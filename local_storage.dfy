/** The browser's `localStorage` as the registration and verification pages
    use it: one value per key. A value is either a plain string, as
    `setItem(key, userId)` writes it, or the JSON record
    `{ userId, timestamp }` the older registration form writes; reading it
    back with `JSON.parse` gives that record again. */
module BrowserStorage {

  import opened Wrappers

  datatype Stored = Plain(text: string) | Stamped(userId: Option<string>, timestamp: int)

  class LocalStorage {
    var items: map<string, Stored>

    constructor()
      ensures items == map[]
    {
      items := map[];
    }

    /** `getItem(key)`: `null` for a missing key. */
    function GetItem(key: string): (r: Option<Stored>)
      reads this
      ensures r.Some? <==> key in items
      ensures r.Some? ==> r.value == items[key]
    {
      if key in items then Some(items[key]) else None
    }

    method SetItem(key: string, value: Stored)
      modifies this
      ensures items == old(items)[key := value]
    {
      items := items[key := value];
    }

    method RemoveItem(key: string)
      modifies this
      ensures items == old(items) - {key}
    {
      items := items - {key};
    }
  }
}
