/** The browser's `localStorage`, reduced to what the application uses: a
    string-to-string map read with `getItem` and written with `setItem`. */
module WebStorage {
  import opened Js

  type Storage = map<string, string>

  /** `localStorage.getItem(key)`: the stored string, or `null` when the key is absent. */
  function GetItem(store: Storage, key: string): (v: JsValue)
    ensures v.Null? || v.Str?
    ensures v.Null? <==> key !in store
    ensures v.Str? ==> v.s == store[key]
  {
    if key in store then Str(store[key]) else Null
  }

  /** `localStorage.setItem(key, value)`. */
  function SetItem(store: Storage, key: string, value: string): (r: Storage)
    ensures key in r && r[key] == value
    ensures r.Keys == store.Keys + {key}
    ensures forall k :: k in store && k != key ==> r[k] == store[k]
  {
    store[key := value]
  }

  /** The key under which the login token is kept. */
  const AuthorizationKey: string := "Authorization"

  /** `!!localStorage.getItem('Authorization')`, as both the route guard and the
      request interceptor compute it: a missing key and an empty string both
      mean logged out. */
  predicate HasToken(store: Storage)
    ensures HasToken(store) <==> AuthorizationKey in store && store[AuthorizationKey] != ""
  {
    Truthy(GetItem(store, AuthorizationKey))
  }
}
