/**
 * The browser's `localStorage` as far as the front end uses it: the bearer
 * token under the key "token", written by `setAuthToken` and read by the
 * request interceptors of `App` and `HistoryTable` at the moment a request
 * is sent.
 */
module Session {
  import opened Wrappers
  import opened Js

  const TokenKey := "token"

  /** `localStorage` holds strings only; `setItem` stores `String(v)`. */
  type Storage = map<string, string>

  function GetItem(storage: Storage, key: string): (r: Option<string>)
    ensures r.Some? <==> key in storage
    ensures r.Some? ==> r.value == storage[key]
  {
    if key in storage then Some(storage[key]) else None
  }

  /** The storage half of `setAuthToken`: keep a truthy token, remove a falsy one. */
  function StoreToken(storage: Storage, newToken: Value): (s: Storage)
    ensures Truthy(newToken) ==> TokenKey in s && s[TokenKey] == ToJsString(newToken)
    ensures !Truthy(newToken) ==> TokenKey !in s
    ensures forall k | k != TokenKey :: (k in s <==> k in storage) && (k in s ==> s[k] == storage[k])
  {
    if Truthy(newToken) then storage[TokenKey := ToJsString(newToken)] else storage - {TokenKey}
  }

  /**
   * The header the interceptor adds: `Bearer <t>` when `getItem("token")`
   * gives a truthy string `t`, and no header otherwise.
   */
  function AuthorizationHeader(storage: Storage): (h: Option<string>)
    ensures h.Some? <==> TokenKey in storage && storage[TokenKey] != ""
    ensures h.Some? ==> h.value == "Bearer " + storage[TokenKey]
  {
    match GetItem(storage, TokenKey)
    case Some(t) => if Truthy(Str(t)) then Some("Bearer " + t) else None
    case None => None
  }

  /** After a truthy token that is not an array is stored, requests carry it. */
  lemma StoredTokenIsSent(storage: Storage, newToken: Value)
    requires Truthy(newToken) && !newToken.Arr?
    ensures AuthorizationHeader(StoreToken(storage, newToken)) == Some("Bearer " + ToJsString(newToken))
  {
  }

  /** After a falsy token (logout) requests carry no header. */
  lemma ClearedTokenIsNotSent(storage: Storage, newToken: Value)
    requires !Truthy(newToken)
    ensures AuthorizationHeader(StoreToken(storage, newToken)).None?
  {
  }

  /**
   * An empty array is truthy, so `setAuthToken([])` keeps it, but it is
   * stored as "" and so no header is sent.
   */
  lemma EmptyArrayTokenIsNotSent(storage: Storage)
    ensures Truthy(Arr([]))
    ensures AuthorizationHeader(StoreToken(storage, Arr([]))).None?
  {
  }
}
