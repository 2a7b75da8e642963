/**
 * The authentication store: the session held in memory (`token`, `user`),
 * its mirror in two `localStorage` keys, the getters derived from it, and
 * the `login`/`logout` actions. The network exchange of `login` is an input
 * (`Response`); JSON is the abstract `Codec` of module Json.
 */
module Auth {
  import opened Std
  import opened Json
  import opened Storage

  /** The two storage keys the store owns. */
  const TokenKey := "token"
  const UserKey := "user"

  /** JavaScript truthiness of the `token` field, which holds a string or `null`. */
  predicate Present(token: Option<string>)
  {
    token.Some? && token.value != ""
  }

  /** The store's state: `token` (`None` is `null`) and `user` (any value, usually an object). */
  datatype Session = Session(token: Option<string>, user: Value)
  {
    /** `isAuthenticated`: `!!state.token`. */
    predicate IsAuthenticated(): (r: bool)
      ensures r ==> token.Some? && |token.value| > 0
      ensures token == None || token == Some("") ==> !r
    {
      Present(token)
    }

    /** `isSuperuser`: `state.user?.is_superuser === true`. */
    predicate IsSuperuser(): (r: bool)
      ensures r ==> user.Obj? && "is_superuser" in user.fields
      ensures user == Null || user == Undefined ==> !r
    {
      Get(user, "is_superuser") == Bool(true)
    }

    /** `hotelName`: `state.user?.hotel_name` (`Undefined` when absent). */
    function HotelName(): (r: Value)
      ensures !user.Obj? ==> r == Undefined
      ensures user.Obj? && "hotel_name" in user.fields ==> r == user.fields["hotel_name"]
      ensures r != Undefined ==> user.Obj? && "hotel_name" in user.fields
    {
      Get(user, "hotel_name")
    }

    /** `userFullName`: `state.user?.full_name`. */
    function UserFullName(): (r: Value)
      ensures !user.Obj? ==> r == Undefined
      ensures user.Obj? && "full_name" in user.fields ==> r == user.fields["full_name"]
      ensures r != Undefined ==> user.Obj? && "full_name" in user.fields
    {
      Get(user, "full_name")
    }

    /** `username`: `state.user?.username`. */
    function Username(): (r: Value)
      ensures !user.Obj? ==> r == Undefined
      ensures user.Obj? && "username" in user.fields ==> r == user.fields["username"]
      ensures r != Undefined ==> user.Obj? && "username" in user.fields
    {
      Get(user, "username")
    }
  }

  /** The state `logout` leaves behind: both fields `null`. */
  const SignedOut := Session(None, Null)

  /**
   * The state initialiser: `token` is the stored text or `null` when that is
   * missing or empty (`|| null`); `user` is `JSON.parse` of the stored text
   * (of "null" when the key is missing), replaced by `null` when falsy.
   * `JSON.parse` is not guarded: unparseable text makes the store's creation
   * throw, which is `Err` here.
   */
  function Restore(items: map<string, string>, c: Codec): (r: Result<Session>)
    ensures r.Ok? ==> r.value.token == None || (TokenKey in items && items[TokenKey] != "" && r.value.token == Some(items[TokenKey]))
    ensures r.Ok? ==> (r.value.token == None <==> TokenKey !in items || items[TokenKey] == "")
    ensures r.Ok? ==> r.value.user == Null || Truthy(r.value.user)
    ensures var parsed := c.parse(if UserKey in items then items[UserKey] else "null");
            r.Ok? ==> parsed.Ok? && r.value.user == (if Truthy(parsed.value) then parsed.value else Null)
    ensures r.Err? <==> c.parse(if UserKey in items then items[UserKey] else "null").Err?
  {
    var token := if TokenKey in items && items[TokenKey] != "" then Some(items[TokenKey]) else None;
    var parsed := c.parse(if UserKey in items then items[UserKey] else "null");
    match parsed
    case Err(e) => Err(e)
    case Ok(v) => Ok(Session(token, if Truthy(v) then v else Null))
  }

  /** `localStorage` after `logout`: both keys removed, every other entry kept. */
  function ClearSession(items: map<string, string>): (r: map<string, string>)
    ensures r.Keys == items.Keys - {TokenKey, UserKey}
    ensures forall k :: k in r ==> r[k] == items[k]
  {
    items - {TokenKey, UserKey}
  }

  /**
   * The outcome of the POST to the token endpoint: the response's `token`
   * and `user` (`Undefined` when the response has no `user`), or any
   * exception (network error, rejected credentials).
   */
  datatype Response = Success(token: string, user: Value) | Failure

  /** The in-memory state after `login` with the given outcome, whatever the state before. */
  function AfterLogin(response: Response): (s: Session)
    ensures response.Success? ==> s.token == Some(response.token) && s.user == response.user
    ensures response.Failure? ==> s == SignedOut
  {
    match response
    case Success(t, u) => Session(Some(t), u)
    case Failure => SignedOut
  }

  /** `localStorage` after `login` with the given outcome. */
  function StoredAfterLogin(items: map<string, string>, response: Response, c: Codec): (r: map<string, string>)
    ensures response.Success? ==> r == items[TokenKey := response.token][UserKey := StoredText(c, response.user)]
    ensures response.Failure? ==> r == ClearSession(items)
  {
    match response
    case Success(t, u) => items[TokenKey := t][UserKey := StoredText(c, u)]
    case Failure => ClearSession(items)
  }

  /** The Pinia store: its two state fields, and the storage and JSON functions it uses. */
  class AuthStore {
    var token: Option<string>
    var user: Value
    const storage: LocalStorage
    const codec: Codec

    /** The store's state as a value, for the getters and the specifications. */
    function State(): Session
      reads this
    {
      Session(token, user)
    }

    /** The state initialiser, run when the store is first used; it needs readable stored JSON. */
    constructor (storage: LocalStorage, codec: Codec)
      requires Restore(storage.items, codec).Ok?
      ensures this.storage == storage && this.codec == codec
      ensures State() == Restore(storage.items, codec).value
    {
      this.storage := storage;
      this.codec := codec;
      var storedToken := storage.GetItem(TokenKey);
      token := if storedToken.Some? && storedToken.value != "" then storedToken else None;
      var storedUser := storage.GetItem(UserKey);
      var parsed := codec.parse(if storedUser.Some? then storedUser.value else "null");
      user := if Truthy(parsed.value) then parsed.value else Null;
    }

    /**
     * `login`: on success, sets both fields from the response and writes
     * both keys, returning true; on any failure runs `logout` and returns
     * false.
     */
    method Login(response: Response) returns (ok: bool)
      modifies this, storage
      ensures ok <==> response.Success?
      ensures State() == AfterLogin(response)
      ensures storage.items == StoredAfterLogin(old(storage.items), response, codec)
    {
      match response
      case Success(t, u) =>
        token := Some(t);
        user := u;
        storage.SetItem(TokenKey, t);
        storage.SetItem(UserKey, StoredText(codec, user));
        ok := true;
      case Failure =>
        Logout();
        ok := false;
    }

    /** `logout`: clears both fields and removes both keys, unconditionally. */
    method Logout()
      modifies this, storage
      ensures State() == SignedOut
      ensures storage.items == ClearSession(old(storage.items))
    {
      token := None;
      user := Null;
      storage.RemoveItem(TokenKey);
      storage.RemoveItem(UserKey);
    }
  }

  // ---------------------------------------------------------------------
  // Getters

  /** `isAuthenticated` holds exactly for a non-empty token string; `null` and "" give false. */
  lemma AuthenticatedIffNonEmptyToken(s: Session)
    ensures s.IsAuthenticated() <==> exists t :: s.token == Some(t) && t != ""
    ensures s.token == None ==> !s.IsAuthenticated()
    ensures s.token == Some("") ==> !s.IsAuthenticated()
  {
  }

  /** `isSuperuser` needs an object user whose `is_superuser` is the boolean `true`. */
  lemma SuperuserNeedsTrueFlag(s: Session)
    ensures s.IsSuperuser() <==> s.user.Obj? && "is_superuser" in s.user.fields && s.user.fields["is_superuser"] == Bool(true)
    ensures s.user == Null ==> !s.IsSuperuser()
  {
  }

  /** The three profile getters read the matching field of `user`, and are undefined without a user object or without that field. */
  lemma ProfileGettersReadUser(s: Session)
    ensures s.user.Obj? && "hotel_name" in s.user.fields ==> s.HotelName() == s.user.fields["hotel_name"]
    ensures s.user.Obj? && "full_name" in s.user.fields ==> s.UserFullName() == s.user.fields["full_name"]
    ensures s.user.Obj? && "username" in s.user.fields ==> s.Username() == s.user.fields["username"]
    ensures !s.user.Obj? ==> s.HotelName() == Undefined && s.UserFullName() == Undefined && s.Username() == Undefined
    ensures s.user.Obj? && "hotel_name" !in s.user.fields ==> s.HotelName() == Undefined
    ensures s.user.Obj? && "full_name" !in s.user.fields ==> s.UserFullName() == Undefined
    ensures s.user.Obj? && "username" !in s.user.fields ==> s.Username() == Undefined
  {
  }

  // ---------------------------------------------------------------------
  // Initialisation

  /** With no stored `user`, the initialiser yields `user == null` (`JSON.parse(null)` is `null`). */
  lemma RestoreWithoutUserKey(items: map<string, string>, c: Codec)
    requires Lawful(c)
    requires UserKey !in items
    ensures Restore(items, c).Ok?
    ensures Restore(items, c).value.user == Null
  {
  }

  /** Stored `user` text that does not parse makes initialisation throw; it never degrades to `null`. */
  lemma RestoreRejectsCorruptUser(items: map<string, string>, c: Codec)
    requires UserKey in items && c.parse(items[UserKey]).Err?
    ensures Restore(items, c).Err?
  {
  }

  // ---------------------------------------------------------------------
  // login and logout

  /** A failed login signs out whatever the state before, and leaves neither key in storage. */
  lemma FailedLoginSignsOut(items: map<string, string>, c: Codec)
    ensures AfterLogin(Failure) == SignedOut
    ensures !AfterLogin(Failure).IsAuthenticated() && !AfterLogin(Failure).IsSuperuser()
    ensures TokenKey !in StoredAfterLogin(items, Failure, c) && UserKey !in StoredAfterLogin(items, Failure, c)
  {
  }

  /** `logout` run twice leaves the same storage as run once; the state is `SignedOut` either way. */
  lemma LogoutIdempotent(items: map<string, string>)
    ensures ClearSession(ClearSession(items)) == ClearSession(items)
  {
  }

  /**
   * A successful login persists the session: initialising a new store from
   * the storage it leaves gives back the token (`null` if it was "") and the
   * user (`null` if it was falsy), so every getter agrees with the state
   * the login set in memory.
   */
  lemma ReloadAfterLogin(items: map<string, string>, t: string, u: Value, c: Codec)
    requires Lawful(c) && IsJson(u) && c.parse(c.stringify(u)) == Ok(u)
    ensures Restore(StoredAfterLogin(items, Success(t, u), c), c)
         == Ok(Session(if t != "" then Some(t) else None, if Truthy(u) then u else Null))
    ensures var before := AfterLogin(Success(t, u));
            var after := Restore(StoredAfterLogin(items, Success(t, u), c), c).value;
            && after.IsAuthenticated() == before.IsAuthenticated()
            && after.IsSuperuser() == before.IsSuperuser()
            && after.HotelName() == before.HotelName()
            && after.UserFullName() == before.UserFullName()
            && after.Username() == before.Username()
  {
  }

  /** After `logout` (or a failed login) a reload starts signed out, whatever else storage holds. */
  lemma ReloadAfterLogout(items: map<string, string>, c: Codec)
    requires Lawful(c)
    ensures Restore(ClearSession(items), c) == Ok(SignedOut)
  {
  }

  /**
   * A success response without `user` stores the text "undefined" under the
   * `user` key, which `JSON.parse` rejects: the next initialisation throws.
   */
  lemma UserMissingBreaksReload(items: map<string, string>, t: string, c: Codec)
    requires Lawful(c)
    ensures StoredAfterLogin(items, Success(t, Undefined), c)[UserKey] == "undefined"
    ensures Restore(StoredAfterLogin(items, Success(t, Undefined), c), c).Err?
  {
  }

  /**
   * The store does not tie `user` to `token`: a success response with an
   * empty token leaves a user in memory while the session is not authenticated.
   */
  lemma UserWithoutAuthenticationReachable(u: Value)
    requires Truthy(u)
    ensures AfterLogin(Success("", u)).user != Null
    ensures !AfterLogin(Success("", u)).IsAuthenticated()
  {
  }
}
