/** `services/ActionService.java`: lookups and writes on the action repository. */
module ActionService {
  import opened Wrappers
  import opened Text
  import opened Entities
  import opened Store

  /** `ActionDto`: either field may be null; an action saved without a name violates the `nullable = false` column. */
  datatype ActionDto = ActionDto(name: Option<string>, description: Option<string>)

  /** `getActionById`: the stored action, or NotFound. */
  function GetActionById(db: Db, id: int): (r: Result<Action, Error>)
    ensures r.Success? <==> id in db.actions
    ensures r.Success? ==> r.value == db.actions[id]
    ensures r.Failure? ==> r.error == NotFound("Action not found with id: " + IntToString(id))
  {
    if id in db.actions then Success(db.actions[id])
    else Failure(NotFound("Action not found with id: " + IntToString(id)))
  }

  /** `getActionByName`: the id of the action with exactly that name, or NotFound. */
  ghost function GetActionByName(db: Db, name: string): (r: Result<int, Error>)
    ensures r.Success? <==> HasActionNamed(db.actions, name)
    ensures r.Success? ==> r.value in db.actions && db.actions[r.value].name == name
    ensures r.Failure? ==> r.error == NotFound("Action not found with name: " + name)
  {
    if HasActionNamed(db.actions, name) then Success(ActionIdNamed(db.actions, name))
    else Failure(NotFound("Action not found with name: " + name))
  }

  /** Under unique names, looking a stored action up by its name finds that action. */
  lemma GetByNameFindsStored(db: Db, id: int)
    requires Consistent(db) && id in db.actions
    ensures GetActionByName(db, db.actions[id].name) == Success(id)
  {
    ActionIdNamedIs(db.actions, id);
  }

  /** The message both create and rename raise for a taken name. */
  function TakenName(name: string): Error {
    AlreadyExists("Action already exists with name: " + name)
  }

  /** `createAction`: refuses a taken name, otherwise stores one new action. */
  method CreateAction(s: Store, dto: ActionDto) returns (r: Result<int, Error>)
    requires s.Valid()
    modifies s
    ensures s.Valid()
    ensures dto.name.None? ==> r == Failure(DataIntegrity) && s.Snapshot() == old(s.Snapshot())
    ensures dto.name.Some? && old(HasActionNamed(s.actions, dto.name.value)) ==>
      r == Failure(TakenName(dto.name.value)) && s.Snapshot() == old(s.Snapshot())
    ensures dto.name.Some? && !old(HasActionNamed(s.actions, dto.name.value)) ==>
      && r.Success? && r.value !in old(s.actions)
      && s.Snapshot() == old(s.Snapshot()).(actions :=
           old(s.actions)[r.value := Action(dto.name.value, dto.description)])
  {
    if dto.name.None? {
      return Failure(DataIntegrity);
    }
    var name := dto.name.value;
    if HasActionNamed(s.actions, name) {
      return Failure(TakenName(name));
    }
    var id := s.NewId();
    s.actions := s.actions[id := Action(name, dto.description)];
    r := Success(id);
  }

  /**
   * `updateAction`: NotFound for an unknown id; a non-null name that differs
   * from the current one must be free; null fields keep the stored value.
   */
  method UpdateAction(s: Store, id: int, dto: ActionDto) returns (r: Result<Action, Error>)
    requires s.Valid()
    modifies s
    ensures s.Valid()
    ensures id !in old(s.actions) ==>
      r == Failure(NotFound("Action not found with id: " + IntToString(id)))
      && s.Snapshot() == old(s.Snapshot())
    ensures id in old(s.actions) ==>
      var was := old(s.actions[id]);
      var renames := dto.name.Some? && dto.name.value != was.name;
      if renames && old(HasActionNamed(s.actions, dto.name.value)) then
        r == Failure(TakenName(dto.name.value)) && s.Snapshot() == old(s.Snapshot())
      else
        var now := Action(if renames then dto.name.value else was.name,
                            if dto.description.Some? then dto.description else was.description);
        r == Success(now)
        && s.Snapshot() == old(s.Snapshot()).(actions := old(s.actions)[id := now])
  {
    var found := GetActionById(s.Snapshot(), id);
    if found.Failure? {
      return Failure(found.error);
    }
    var action := found.value;
    if dto.name.Some? && action.name != dto.name.value {
      if HasActionNamed(s.actions, dto.name.value) {
        return Failure(TakenName(dto.name.value));
      }
      action := action.(name := dto.name.value);
    }
    if dto.description.Some? {
      action := action.(description := dto.description);
    }
    s.actions := s.actions[id := action];
    r := Success(action);
  }

  /** `deleteAction`: NotFound for an unknown id, otherwise removes that action alone. */
  method DeleteAction(s: Store, id: int) returns (r: Result<(), Error>)
    requires s.Valid()
    modifies s
    ensures s.Valid()
    ensures id !in old(s.actions) ==>
      r == Failure(NotFound("Action not found with id: " + IntToString(id)))
      && s.Snapshot() == old(s.Snapshot())
    ensures id in old(s.actions) ==>
      r == Success(()) && s.Snapshot() == old(s.Snapshot()).(actions := old(s.actions) - {id})
  {
    if id !in s.actions {
      return Failure(NotFound("Action not found with id: " + IntToString(id)));
    }
    s.actions := s.actions - {id};
    r := Success(());
  }
}
