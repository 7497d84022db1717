/**
 * The browser's `localStorage` as the frontend uses it: string items by
 * key. When storage is unavailable (disabled, private mode, quota) every
 * access throws; `accessible` says which case holds.
 */
module Browser {
  import opened Wrappers

  /** The key under which the frontend keeps the access token. */
  const AuthTokenKey := "authToken"

  class LocalStorage {
    var items: map<string, string>
    var accessible: bool

    constructor (items: map<string, string>, accessible: bool)
      ensures this.items == items && this.accessible == accessible
    {
      this.items := items;
      this.accessible := accessible;
    }

    /** `getItem(key)`: the stored string or null; throws when storage is unavailable. */
    function GetItem(key: string): (r: Result<Option<string>, ()>)
      reads this
      ensures r.Success? <==> accessible
      ensures r.Success? ==> (r.value.Some? <==> key in items)
      ensures r.Success? && key in items ==> r.value == Some(items[key])
    {
      if !accessible then Failure(())
      else if key in items then Success(Some(items[key]))
      else Success(None)
    }

    /** `setItem(key, value)`: false when it throws, and then nothing is stored. */
    method SetItem(key: string, value: string) returns (ok: bool)
      modifies this`items
      ensures ok == accessible
      ensures items == if accessible then old(items)[key := value] else old(items)
    {
      ok := accessible;
      if accessible {
        items := items[key := value];
      }
    }

    /** `removeItem(key)`: false when it throws, and then nothing is removed. */
    method RemoveItem(key: string) returns (ok: bool)
      modifies this`items
      ensures ok == accessible
      ensures items == if accessible then old(items) - {key} else old(items)
    {
      ok := accessible;
      if accessible {
        items := items - {key};
      }
    }
  }
}
