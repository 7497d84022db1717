/** `services/ResourceService.java`: lookups and writes on the resource repository. */
module ResourceService {
  import opened Wrappers
  import opened Text
  import opened Entities
  import opened Store

  /** `ResourceDto`: either field may be null; a resource saved without a name violates the `nullable = false` column. */
  datatype ResourceDto = ResourceDto(name: Option<string>, description: Option<string>)

  /** `getResourceById`: the stored resource, or NotFound. */
  function GetResourceById(db: Db, id: int): (r: Result<Resource, Error>)
    ensures r.Success? <==> id in db.resources
    ensures r.Success? ==> r.value == db.resources[id]
    ensures r.Failure? ==> r.error == NotFound("Resource not found with id: " + IntToString(id))
  {
    if id in db.resources then Success(db.resources[id])
    else Failure(NotFound("Resource not found with id: " + IntToString(id)))
  }

  /** `getResourceByName`: the id of the resource with exactly that name, or NotFound. */
  ghost function GetResourceByName(db: Db, name: string): (r: Result<int, Error>)
    ensures r.Success? <==> HasResourceNamed(db.resources, name)
    ensures r.Success? ==> r.value in db.resources && db.resources[r.value].name == name
    ensures r.Failure? ==> r.error == NotFound("Resource not found with name: " + name)
  {
    if HasResourceNamed(db.resources, name) then Success(ResourceIdNamed(db.resources, name))
    else Failure(NotFound("Resource not found with name: " + name))
  }

  /** Under unique names, looking a stored resource up by its name finds that resource. */
  lemma GetByNameFindsStored(db: Db, id: int)
    requires Consistent(db) && id in db.resources
    ensures GetResourceByName(db, db.resources[id].name) == Success(id)
  {
    ResourceIdNamedIs(db.resources, id);
  }

  /** The message both create and rename raise for a taken name. */
  function TakenName(name: string): Error {
    AlreadyExists("Resource already exists with name: " + name)
  }

  /** `createResource`: refuses a taken name, otherwise stores one new resource. */
  method CreateResource(s: Store, dto: ResourceDto) returns (r: Result<int, Error>)
    requires s.Valid()
    modifies s
    ensures s.Valid()
    ensures dto.name.None? ==> r == Failure(DataIntegrity) && s.Snapshot() == old(s.Snapshot())
    ensures dto.name.Some? && old(HasResourceNamed(s.resources, dto.name.value)) ==>
      r == Failure(TakenName(dto.name.value)) && s.Snapshot() == old(s.Snapshot())
    ensures dto.name.Some? && !old(HasResourceNamed(s.resources, dto.name.value)) ==>
      && r.Success? && r.value !in old(s.resources)
      && s.Snapshot() == old(s.Snapshot()).(resources :=
           old(s.resources)[r.value := Resource(dto.name.value, dto.description)])
  {
    if dto.name.None? {
      return Failure(DataIntegrity);
    }
    var name := dto.name.value;
    if HasResourceNamed(s.resources, name) {
      return Failure(TakenName(name));
    }
    var id := s.NewId();
    s.resources := s.resources[id := Resource(name, dto.description)];
    r := Success(id);
  }

  /**
   * `updateResource`: NotFound for an unknown id; a non-null name that differs
   * from the current one must be free; null fields keep the stored value.
   */
  method UpdateResource(s: Store, id: int, dto: ResourceDto) returns (r: Result<Resource, Error>)
    requires s.Valid()
    modifies s
    ensures s.Valid()
    ensures id !in old(s.resources) ==>
      r == Failure(NotFound("Resource not found with id: " + IntToString(id)))
      && s.Snapshot() == old(s.Snapshot())
    ensures id in old(s.resources) ==>
      var was := old(s.resources[id]);
      var renames := dto.name.Some? && dto.name.value != was.name;
      if renames && old(HasResourceNamed(s.resources, dto.name.value)) then
        r == Failure(TakenName(dto.name.value)) && s.Snapshot() == old(s.Snapshot())
      else
        var now := Resource(if renames then dto.name.value else was.name,
                            if dto.description.Some? then dto.description else was.description);
        r == Success(now)
        && s.Snapshot() == old(s.Snapshot()).(resources := old(s.resources)[id := now])
  {
    var found := GetResourceById(s.Snapshot(), id);
    if found.Failure? {
      return Failure(found.error);
    }
    var resource := found.value;
    if dto.name.Some? && resource.name != dto.name.value {
      if HasResourceNamed(s.resources, dto.name.value) {
        return Failure(TakenName(dto.name.value));
      }
      resource := resource.(name := dto.name.value);
    }
    if dto.description.Some? {
      resource := resource.(description := dto.description);
    }
    s.resources := s.resources[id := resource];
    r := Success(resource);
  }

  /** `deleteResource`: NotFound for an unknown id, otherwise removes that resource alone. */
  method DeleteResource(s: Store, id: int) returns (r: Result<(), Error>)
    requires s.Valid()
    modifies s
    ensures s.Valid()
    ensures id !in old(s.resources) ==>
      r == Failure(NotFound("Resource not found with id: " + IntToString(id)))
      && s.Snapshot() == old(s.Snapshot())
    ensures id in old(s.resources) ==>
      r == Success(()) && s.Snapshot() == old(s.Snapshot()).(resources := old(s.resources) - {id})
  {
    if id !in s.resources {
      return Failure(NotFound("Resource not found with id: " + IntToString(id)));
    }
    s.resources := s.resources - {id};
    r := Success(());
  }
}
