/** `window.localStorage`, as a map from key to value. */
module LocalStorage {
  import opened Js

  type Storage = map<string, string>

  /** `localStorage.getItem(key)`: the value under `key`, or null. */
  function GetItem(storage: Storage, key: string): (r: Option<string>)
    ensures r.Some? <==> key in storage
    ensures r.Some? ==> r.value == storage[key]
  {
    if key in storage then Some(storage[key]) else None
  }
}
