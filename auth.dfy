/** `frontend/lib/auth.ts`: the session kept as one JSON record under the
  * `"session"` key of `localStorage`. Every function first checks that a
  * window exists and does nothing (or answers null) without one. */
module Auth {
  import opened Wrappers
  import Json
  import Types
  import B = Browser

  const SessionKey := "session"

  datatype Session = Session(token: string, user: Types.User)

  /** The object literal `{ token, user }`. */
  function SessionToJson(s: Session): Json.Value {
    Json.JObj([
      Json.Member("token", Json.JStr(s.token)),
      Json.Member("user", Types.UserToJson(s.user))])
  }

  /** The store after `setSession(token, user)`. */
  function Stored(hasWindow: bool, storage: map<string, string>, token: string, user: Types.User): map<string, string> {
    if hasWindow then storage[SessionKey := Json.Serialize(SessionToJson(Session(token, user)))] else storage
  }

  /** The store after `clearSession()`. */
  function Cleared(hasWindow: bool, storage: map<string, string>): map<string, string> {
    if hasWindow then storage - {SessionKey} else storage
  }

  /** `getSession()`. The parsed record is returned unchecked, as the source
    * returns whatever `JSON.parse` yields; `JNull` is JavaScript's `null`,
    * which is also the answer without a window, without a stored record,
    * for an empty record and for a record that does not parse. */
  function GetSession(hasWindow: bool, storage: map<string, string>): Json.Value {
    if !hasWindow then Json.JNull
    else
      match B.Get(storage, SessionKey)
      case None => Json.JNull
      case Some(text) =>
        if text == "" then Json.JNull
        else
          match Json.Parse(text)
          case None => Json.JNull
          case Some(v) => v
  }

  method SetSession(b: B.Browser, token: string, user: Types.User)
    modifies b`storage
    ensures b.storage == Stored(b.hasWindow, old(b.storage), token, user)
  {
    if b.hasWindow {
      b.SetItem(SessionKey, Json.Serialize(SessionToJson(Session(token, user))));
    }
  }

  method ClearSession(b: B.Browser)
    modifies b`storage
    ensures b.storage == Cleared(b.hasWindow, old(b.storage))
  {
    if b.hasWindow {
      b.RemoveItem(SessionKey);
    }
  }

  /** `getSession()` after `setSession(t, u)` returns `{token: t, user: u}`,
    * whatever was stored before. */
  lemma GetAfterSet(storage: map<string, string>, token: string, user: Types.User)
    ensures GetSession(true, Stored(true, storage, token, user)) == SessionToJson(Session(token, user))
  {
    var v := SessionToJson(Session(token, user));
    Json.ParseSerialize(v);
    Json.SerializeStart(v);
  }

  /** `getSession()` after `clearSession()` returns null. */
  lemma GetAfterClear(hasWindow: bool, storage: map<string, string>)
    ensures GetSession(hasWindow, Cleared(hasWindow, storage)) == Json.JNull
  {
  }

  /** A stored record that does not parse reads as null; nothing is thrown. */
  lemma CorruptRecordIsNull(storage: map<string, string>, text: string)
    requires Json.Parse(text) == None
    ensures GetSession(true, storage[SessionKey := text]) == Json.JNull
  {
  }

  /** `setSession` writes the `"session"` key and no other, and what it
    * writes does not depend on any earlier session. */
  lemma SetWritesOnlySession(hasWindow: bool, storage: map<string, string>, other: map<string, string>,
                             token: string, user: Types.User)
    requires hasWindow
    ensures Stored(hasWindow, storage, token, user).Keys == storage.Keys + {SessionKey}
    ensures forall k :: k in storage && k != SessionKey ==> Stored(hasWindow, storage, token, user)[k] == storage[k]
    ensures GetSession(hasWindow, Stored(hasWindow, storage, token, user))
         == GetSession(hasWindow, Stored(hasWindow, other, token, user))
  {
    GetAfterSet(storage, token, user);
    GetAfterSet(other, token, user);
  }

  /** `clearSession` is idempotent and removes the `"session"` key only. */
  lemma ClearIdempotent(hasWindow: bool, storage: map<string, string>)
    ensures Cleared(hasWindow, Cleared(hasWindow, storage)) == Cleared(hasWindow, storage)
    ensures forall k :: k != SessionKey ==> (k in Cleared(hasWindow, storage) <==> k in storage)
    ensures forall k :: k in storage && k != SessionKey ==> Cleared(hasWindow, storage)[k] == storage[k]
    ensures hasWindow ==> SessionKey !in Cleared(hasWindow, storage)
  {
  }

  /** Without a window nothing is read or written. */
  lemma NoWindow(storage: map<string, string>, token: string, user: Types.User)
    ensures GetSession(false, storage) == Json.JNull
    ensures Stored(false, storage, token, user) == storage
    ensures Cleared(false, storage) == storage
  {
  }
}
