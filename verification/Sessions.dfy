/** Logins, refreshes, role changes and logouts, and which tokens are accepted afterwards.

    A token is an unforgeable record; decoding it is the expiry test of its "exp" claim
    (section 4.1.4 of RFC 7519). The clock counts seconds and never goes back.
  */
module Sessions {
  import opened Common
  import opened TokenRevocation

  datatype TokenType = ACCESS | REFRESH

  /** `rv` is missing in tokens signed before role versions were introduced. */
  datatype Token = Token(jti: string, uid: string, role: string, rv: Option<int>, exp: int, kind: TokenType)

  datatype User = User(role: string, roleVersion: int, isActive: bool, isLocked: bool)

  /** A token that was signed, and the token it was refreshed from, by its place in the list. */
  datatype Minted = Minted(token: Token, parent: Option<nat>)

  datatype Settings = Settings(accessSeconds: int, refreshSeconds: int)

  datatype State = State(now: real, users: map<string, User>, minted: seq<Minted>, blacklist: Blacklist)

  // ---- Checking a token ----

  datatype Refusal = Expired | Revoked | StoreUnavailable | NoUser | Inactive | Locked | RoleChanged | VersionMismatch | WrongType

  function VerifyToken(s: State, t: Token, storeUp: bool): Result<Token, Refusal> {
    if t.exp < s.now.Floor then Err(Expired)
    else if !storeUp then Err(StoreUnavailable)
    else if Refuses(s.blacklist, t.jti, s.now) then Err(Revoked)
    else Ok(t)
  }

  /** The role a request with this token acts under. */
  function GetCurrentUser(s: State, t: Token, storeUp: bool, databaseUp: bool): Result<string, Refusal> {
    var verified := VerifyToken(s, t, storeUp);
    if verified.Err? then Err(verified.error)
    else if !databaseUp then Err(StoreUnavailable)
    else if t.uid !in s.users then Err(NoUser)
    else
      var user := s.users[t.uid];
      if !user.isActive then Err(Inactive)
      else if user.isLocked then Err(Locked)
      else if user.role != t.role then Err(RoleChanged)
      else if t.rv != Some(user.roleVersion) then Err(VersionMismatch)
      else Ok(user.role)
  }

  /** Whether the refresh endpoint issues a new pair for this token. */
  function RefreshAllowed(s: State, t: Token, storeUp: bool, databaseUp: bool): Result<(), Refusal> {
    var verified := VerifyToken(s, t, storeUp);
    if verified.Err? then Err(verified.error)
    else if t.kind != REFRESH then Err(WrongType)
    else if t.rv.None? then Err(VersionMismatch)
    else if !databaseUp then Err(StoreUnavailable)
    else if t.uid !in s.users then Err(VersionMismatch)
    else if t.rv != Some(s.users[t.uid].roleVersion) then Err(VersionMismatch)
    else Ok(())
  }

  // ---- Changing users ----

  function WithRole(u: User, role: string): User {
    if u.role != role then u.(role := role, roleVersion := u.roleVersion + 1) else u
  }

  /** The role of an update: not given, given by a name that no role has, or found. */
  datatype RoleRequest = NotGiven | Unknown | Known(role: string)

  class UserRecord {
    var email: string
    var role: string
    var roleVersion: int
    var isActive: bool
    var isLocked: bool

    constructor (email: string, role: string)
      ensures Value() == User(role, 0, true, false) && this.email == email
    {
      this.email, this.role, roleVersion, isActive, isLocked := email, role, 0, true, false;
    }

    function Value(): User
      reads this
    {
      User(role, roleVersion, isActive, isLocked)
    }

    /** The parts of an update that are given. An unknown role ends it as failed, after the
        e-mail address and the activity have been changed; the session commits these. */
    method Update(newEmail: Option<string>, newActive: Option<bool>, newRole: RoleRequest) returns (success: bool)
      modifies this
      ensures email == if newEmail.Some? then newEmail.value else old(email)
      ensures var u := if newActive.Some? then old(Value()).(isActive := newActive.value) else old(Value());
              Value() == if newRole.Known? then WithRole(u, newRole.role) else u
      ensures success <==> !newRole.Unknown?
    {
      if newEmail.Some? {
        email := newEmail.value;
      }
      if newActive.Some? {
        isActive := newActive.value;
      }
      if newRole.Unknown? {
        return false;
      }
      if newRole.Known? {
        var previous := role;
        role := newRole.role;
        if previous != newRole.role {
          roleVersion := roleVersion + 1;
        }
      }
      success := true;
    }
  }

  // ---- Runs ----

  /** `i` is the place of a token in the list of minted ones. */
  datatype Action =
    | Tick(elapsed: real)
    | CreateUser(uid: string, role: string)
    | SetRole(uid: string, role: string)
    | SetActive(uid: string, active: bool)
    | SetLocked(uid: string, locked: bool)
    | Login(uid: string, jti1: string, jti2: string)
    | Refresh(i: nat, jti1: string, jti2: string)
    | Logout(i: nat)

  function Pair(c: Settings, s: State, uid: string, jti1: string, jti2: string, parent: Option<nat>): seq<Minted>
    requires uid in s.users
  {
    var u := s.users[uid];
    [Minted(Token(jti1, uid, u.role, Some(u.roleVersion), (s.now + c.accessSeconds as real).Floor, ACCESS), parent),
     Minted(Token(jti2, uid, u.role, Some(u.roleVersion), (s.now + c.refreshSeconds as real).Floor, REFRESH), parent)]
  }

  /** Steps that succeed; requests that are refused change nothing. */
  predicate Enabled(s: State, a: Action) {
    match a
    case Tick(elapsed) => elapsed >= 0.0
    case CreateUser(uid, _) => uid !in s.users
    case SetRole(uid, _) => uid in s.users
    case SetActive(uid, _) => uid in s.users
    case SetLocked(uid, _) => uid in s.users
    case Login(uid, _, _) => uid in s.users && s.users[uid].isActive && !s.users[uid].isLocked
    case Refresh(i, _, _) => i < |s.minted| && RefreshAllowed(s, s.minted[i].token, true, true).Ok?
    case Logout(i) => i < |s.minted| && GetCurrentUser(s, s.minted[i].token, true, true).Ok?
  }

  /** Time to live of a revocation: what is left of the token and a minute, at least a minute. */
  function RevocationTtl(t: Token, now: real): int {
    var left := t.exp - now.Floor + 60;
    if left < 60 then 60 else left
  }

  function Step(c: Settings, s: State, a: Action): State
    requires Enabled(s, a)
  {
    match a
    case Tick(elapsed) => s.(now := s.now + elapsed)
    case CreateUser(uid, role) => s.(users := s.users[uid := User(role, 0, true, false)])
    case SetRole(uid, role) => s.(users := s.users[uid := WithRole(s.users[uid], role)])
    case SetActive(uid, active) => s.(users := s.users[uid := s.users[uid].(isActive := active)])
    case SetLocked(uid, locked) => s.(users := s.users[uid := s.users[uid].(isLocked := locked)])
    case Login(uid, jti1, jti2) => s.(minted := s.minted + Pair(c, s, uid, jti1, jti2, None))
    case Refresh(i, jti1, jti2) => s.(minted := s.minted + Pair(c, s, s.minted[i].token.uid, jti1, jti2, Some(i)))
    case Logout(i) =>
      var t := s.minted[i].token;
      s.(blacklist := WithRevoked(s.blacklist, t.jti, RevocationTtl(t, s.now), s.now))
  }

  predicate ValidRun(c: Settings, s: State, run: seq<Action>)
    decreases |run|
  {
    run == [] || (Enabled(s, run[0]) && ValidRun(c, Step(c, s, run[0]), run[1..]))
  }

  function After(c: Settings, s: State, run: seq<Action>): State
    requires ValidRun(c, s, run)
    decreases |run|
  {
    if run == [] then s else After(c, Step(c, s, run[0]), run[1..])
  }

  // ---- Tokens and role versions ----

  /** No token is ahead of its user's role version, and a refreshed token comes from a refresh
      token and belongs to the same user and version. */
  ghost predicate VersionInv(s: State) {
    forall i :: 0 <= i < |s.minted| ==> TokenInv(s, i)
  }

  ghost predicate TokenInv(s: State, i: nat)
    requires i < |s.minted|
  {
    var m := s.minted[i];
    && (m.token.rv.Some? ==> m.token.uid in s.users && m.token.rv.value <= s.users[m.token.uid].roleVersion)
    && (m.parent.Some? ==>
          && m.parent.value < i && s.minted[m.parent.value].token.uid == m.token.uid
          && s.minted[m.parent.value].token.kind == REFRESH
          && m.token.rv.Some? && s.minted[m.parent.value].token.rv == m.token.rv)
  }

  /** The i-th token comes, by refreshes, from the a-th. */
  predicate ComesFrom(minted: seq<Minted>, i: nat, a: nat)
    decreases i
  {
    i == a
    || (i < |minted| && minted[i].parent.Some? && minted[i].parent.value < i && ComesFrom(minted, minted[i].parent.value, a))
  }

  lemma StepKeepsVersions(c: Settings, s: State, a: Action)
    requires VersionInv(s) && Enabled(s, a)
    ensures VersionInv(Step(c, s, a))
    ensures s.minted <= Step(c, s, a).minted
    ensures forall uid :: uid in s.users ==>
                            uid in Step(c, s, a).users && s.users[uid].roleVersion <= Step(c, s, a).users[uid].roleVersion
  {
    var s' := Step(c, s, a);
    forall i | 0 <= i < |s'.minted|
      ensures TokenInv(s', i)
    {
      if i < |s.minted| {
        assert TokenInv(s, i);
      } else if a.Refresh? {
        assert TokenInv(s, a.i);
      }
    }
  }

  lemma {:induction false} RunKeepsVersions(c: Settings, s: State, run: seq<Action>)
    requires VersionInv(s) && ValidRun(c, s, run)
    ensures VersionInv(After(c, s, run)) && s.minted <= After(c, s, run).minted
    ensures forall uid :: uid in s.users ==>
                            uid in After(c, s, run).users && s.users[uid].roleVersion <= After(c, s, run).users[uid].roleVersion
    decreases |run|
  {
    if run != [] {
      StepKeepsVersions(c, s, run[0]);
      RunKeepsVersions(c, Step(c, s, run[0]), run[1..]);
    }
  }

  /** A whole line of refreshes carries one user and one version. */
  lemma {:induction false} LineHasOneVersion(s: State, i: nat, a: nat)
    requires VersionInv(s) && i < |s.minted| && a < |s.minted| && ComesFrom(s.minted, i, a)
    ensures s.minted[i].token.uid == s.minted[a].token.uid && s.minted[i].token.rv == s.minted[a].token.rv
    decreases i
  {
    if i != a {
      assert TokenInv(s, i);
      LineHasOneVersion(s, s.minted[i].parent.value, a);
    }
  }

  /** After a user's role changes, no token signed before and none refreshed from one, however
      late and in however many steps, is accepted or refreshed again, even when the old role
      is given back. */
  lemma RoleChangeEndsSessions(c: Settings, s: State, uid: string, role: string, run: seq<Action>, a: nat, i: nat)
    requires VersionInv(s) && uid in s.users && s.users[uid].role != role
    requires a < |s.minted| && s.minted[a].token.uid == uid
    requires ValidRun(c, Step(c, s, SetRole(uid, role)), run)
    requires var end := After(c, Step(c, s, SetRole(uid, role)), run); i < |end.minted| && ComesFrom(end.minted, i, a)
    ensures var end := After(c, Step(c, s, SetRole(uid, role)), run);
            forall storeUp, databaseUp ::
              && GetCurrentUser(end, end.minted[i].token, storeUp, databaseUp).Err?
              && RefreshAllowed(end, end.minted[i].token, storeUp, databaseUp).Err?
  {
    var changed := Step(c, s, SetRole(uid, role));
    var end := After(c, changed, run);
    StepKeepsVersions(c, s, SetRole(uid, role));
    RunKeepsVersions(c, changed, run);
    LineHasOneVersion(end, i, a);
    assert end.minted[a] == s.minted[a];
    assert TokenInv(s, a);
    assert changed.users[uid].roleVersion == s.users[uid].roleVersion + 1;
  }

  /** An accepted token names the role its user has now, at the version it has now. */
  lemma AcceptedIsCurrent(s: State, t: Token, storeUp: bool, databaseUp: bool)
    ensures GetCurrentUser(s, t, storeUp, databaseUp).Ok? <==>
              && storeUp && databaseUp
              && s.now.Floor <= t.exp && !Refuses(s.blacklist, t.jti, s.now)
              && t.uid in s.users && s.users[t.uid].isActive && !s.users[t.uid].isLocked
              && s.users[t.uid].role == t.role && t.rv == Some(s.users[t.uid].roleVersion)
    ensures GetCurrentUser(s, t, storeUp, databaseUp).Ok? ==> GetCurrentUser(s, t, storeUp, databaseUp).value == t.role
  {
  }

  // ---- Revocation ----

  /** The blacklist entry of a revoked token outlives the token itself. */
  ghost predicate GoneForGood(s: State, t: Token) {
    t.exp < s.now.Floor || (t.jti in s.blacklist && s.blacklist[t.jti] >= (t.exp + 1) as real)
  }

  lemma RevokingIsForGood(c: Settings, s: State, i: nat)
    requires Enabled(s, Logout(i))
    ensures GoneForGood(Step(c, s, Logout(i)), s.minted[i].token)
  {
  }

  /** Ids are unique among tokens, so revoking one never rewrites the entry of another. */
  ghost predicate UniqueIds(minted: seq<Minted>) {
    forall i, j :: 0 <= i < j < |minted| ==> minted[i].token.jti != minted[j].token.jti
  }

  lemma StepKeepsGone(c: Settings, s: State, a: Action, k: nat)
    requires Enabled(s, a) && k < |s.minted| && GoneForGood(s, s.minted[k].token) && UniqueIds(s.minted)
    ensures GoneForGood(Step(c, s, a), s.minted[k].token)
  {
    if a.Logout? && a.i != k {
      assert s.minted[a.i].token.jti != s.minted[k].token.jti;
    }
  }

  lemma {:induction false} RunKeepsGone(c: Settings, s: State, run: seq<Action>, k: nat)
    requires ValidRun(c, s, run) && k < |s.minted| && GoneForGood(s, s.minted[k].token)
    requires UniqueIds(After(c, s, run).minted)
    ensures GoneForGood(After(c, s, run), s.minted[k].token)
    decreases |run|
  {
    if run != [] {
      MintedGrows(c, s, run);
      StepKeepsGone(c, s, run[0], k);
      RunKeepsGone(c, Step(c, s, run[0]), run[1..], k);
    }
  }

  lemma {:induction false} MintedGrows(c: Settings, s: State, run: seq<Action>)
    requires ValidRun(c, s, run)
    ensures s.minted <= After(c, s, run).minted
    decreases |run|
  {
    if run != [] {
      MintedGrows(c, Step(c, s, run[0]), run[1..]);
    }
  }

  /** A token logged out is never accepted or refreshed again, whatever follows: as long as it
      would decode, its entry is still in the store. */
  lemma LogoutIsFinal(c: Settings, s: State, k: nat, run: seq<Action>)
    requires Enabled(s, Logout(k)) && ValidRun(c, Step(c, s, Logout(k)), run)
    requires UniqueIds(After(c, Step(c, s, Logout(k)), run).minted)
    ensures var end := After(c, Step(c, s, Logout(k)), run);
            var t := s.minted[k].token;
            forall storeUp, databaseUp ::
              GetCurrentUser(end, t, storeUp, databaseUp).Err? && RefreshAllowed(end, t, storeUp, databaseUp).Err?
  {
    RevokingIsForGood(c, s, k);
    RunKeepsGone(c, Step(c, s, Logout(k)), run, k);
    var end := After(c, Step(c, s, Logout(k)), run);
    var t := s.minted[k].token;
    assert t.exp < end.now.Floor || Refuses(end.blacklist, t.jti, end.now);
  }

  // ---- What ends a session, and what does not ----

  /** Some step of the run really changes the user's role. */
  predicate RoleChanges(c: Settings, s: State, run: seq<Action>, uid: string)
    requires ValidRun(c, s, run)
    decreases |run|
  {
    run != [] && (ChangesRole(s, run[0], uid) || RoleChanges(c, Step(c, s, run[0]), run[1..], uid))
  }

  predicate ChangesRole(s: State, a: Action, uid: string) {
    a.SetRole? && a.uid == uid && uid in s.users && a.role != s.users[uid].role
  }

  lemma {:induction false} VersionsGrow(c: Settings, s: State, run: seq<Action>, uid: string)
    requires ValidRun(c, s, run) && uid in s.users
    ensures uid in After(c, s, run).users && s.users[uid].roleVersion <= After(c, s, run).users[uid].roleVersion
    decreases |run|
  {
    if run != [] {
      VersionsGrow(c, Step(c, s, run[0]), run[1..], uid);
    }
  }

  /** A user's role version has grown exactly if the role has changed on the way, and the role
      is still the same if not. */
  lemma {:induction false} VersionTellsRoleChange(c: Settings, s: State, run: seq<Action>, uid: string)
    requires ValidRun(c, s, run) && uid in s.users
    ensures uid in After(c, s, run).users
    ensures After(c, s, run).users[uid].roleVersion > s.users[uid].roleVersion <==> RoleChanges(c, s, run, uid)
    ensures !RoleChanges(c, s, run, uid) ==>
              && After(c, s, run).users[uid].role == s.users[uid].role
              && After(c, s, run).users[uid].roleVersion == s.users[uid].roleVersion
    decreases |run|
  {
    if run != [] {
      VersionTellsRoleChange(c, Step(c, s, run[0]), run[1..], uid);
      VersionsGrow(c, Step(c, s, run[0]), run[1..], uid);
    }
  }

  /** Without its own logout a token is not in the store. */
  lemma {:induction false} UnlistedWithoutLogout(c: Settings, s: State, k: nat, run: seq<Action>)
    requires k < |s.minted| && ValidRun(c, s, run) && UniqueIds(After(c, s, run).minted)
    requires s.minted[k].token.jti !in s.blacklist && Logout(k) !in run
    ensures s.minted[k].token.jti !in After(c, s, run).blacklist
    decreases |run|
  {
    if run != [] {
      MintedGrows(c, s, run);
      if run[0].Logout? {
        assert run[0] in run;
        assert s.minted[run[0].i].token.jti != s.minted[k].token.jti;
      }
      assert forall a :: a in run[1..] ==> a in run;
      UnlistedWithoutLogout(c, Step(c, s, run[0]), k, run[1..]);
    }
  }

  /** With it, it is refused at the end, wherever in the run it was. */
  lemma {:induction false} RefusedAfterLogout(c: Settings, s: State, k: nat, run: seq<Action>)
    requires k < |s.minted| && ValidRun(c, s, run) && UniqueIds(After(c, s, run).minted)
    requires Logout(k) in run
    ensures VerifyToken(After(c, s, run), s.minted[k].token, true).Err?
    decreases |run|
  {
    MintedGrows(c, s, run);
    var next := Step(c, s, run[0]);
    if run[0] == Logout(k) {
      RevokingIsForGood(c, s, k);
      RunKeepsGone(c, next, run[1..], k);
    } else {
      assert next.minted[k] == s.minted[k];
      assert run == [run[0]] + run[1..];
      RefusedAfterLogout(c, next, k, run[1..]);
    }
  }

  /** An accepted token is accepted after any run, exactly if it has not expired, it was not
      itself logged out, its user's role was not changed, not even there and back, and the
      user is active and not locked by then; other users and tokens do not matter. */
  lemma SessionLasts(c: Settings, s: State, k: nat, run: seq<Action>)
    requires k < |s.minted| && GetCurrentUser(s, s.minted[k].token, true, true).Ok?
    requires s.minted[k].token.jti !in s.blacklist
    requires ValidRun(c, s, run) && UniqueIds(After(c, s, run).minted)
    ensures var end, t := After(c, s, run), s.minted[k].token;
            && t.uid in end.users
            && (GetCurrentUser(end, t, true, true).Ok? <==>
                  && end.now.Floor <= t.exp && Logout(k) !in run && !RoleChanges(c, s, run, t.uid)
                  && end.users[t.uid].isActive && !end.users[t.uid].isLocked)
  {
    var t := s.minted[k].token;
    VersionTellsRoleChange(c, s, run, t.uid);
    if Logout(k) in run {
      RefusedAfterLogout(c, s, k, run);
    } else {
      UnlistedWithoutLogout(c, s, k, run);
    }
  }

  /** The same from a login on, for its access token. */
  lemma LoginLasts(c: Settings, s: State, uid: string, jti1: string, jti2: string, run: seq<Action>)
    requires Enabled(s, Login(uid, jti1, jti2)) && c.accessSeconds >= 0 && jti1 !in s.blacklist
    requires var after := Step(c, s, Login(uid, jti1, jti2)); ValidRun(c, after, run) && UniqueIds(After(c, after, run).minted)
    ensures var after, k := Step(c, s, Login(uid, jti1, jti2)), |s.minted|;
            var end := After(c, after, run);
            && k < |end.minted| && uid in end.users
            && (GetCurrentUser(end, end.minted[k].token, true, true).Ok? <==>
                  && end.now.Floor <= (s.now + c.accessSeconds as real).Floor
                  && Logout(k) !in run && !RoleChanges(c, after, run, uid)
                  && end.users[uid].isActive && !end.users[uid].isLocked)
  {
    var after := Step(c, s, Login(uid, jti1, jti2));
    AcceptedIsCurrent(after, after.minted[|s.minted|].token, true, true);
    MintedGrows(c, after, run);
    SessionLasts(c, after, |s.minted|, run);
  }

  /** Switching a user off, or locking, does not stop the user's refresh tokens: they go on
      yielding pairs, which are accepted as soon as the user is switched on again. */
  lemma SwitchedOffStillRefreshes(c: Settings, s: State, i: nat, jti1: string, jti2: string)
    requires Enabled(s, Refresh(i, jti1, jti2)) && c.accessSeconds >= 0 && jti1 !in s.blacklist
    requires s.users[s.minted[i].token.uid].isActive && !s.users[s.minted[i].token.uid].isLocked
    ensures var uid, k := s.minted[i].token.uid, |s.minted|;
            var run := [SetActive(uid, false), Refresh(i, jti1, jti2)];
            && ValidRun(c, s, run) && k < |After(c, s, run).minted|
            && var off := After(c, s, run);
               && GetCurrentUser(off, off.minted[k].token, true, true) == Err(Inactive)
               && Enabled(off, SetActive(uid, true))
               && GetCurrentUser(Step(c, off, SetActive(uid, true)), off.minted[k].token, true, true) == Ok(s.users[uid].role)
  {
    var uid := s.minted[i].token.uid;
    var run := [SetActive(uid, false), Refresh(i, jti1, jti2)];
    var s1 := Step(c, s, SetActive(uid, false));
    var s2 := Step(c, s1, Refresh(i, jti1, jti2));
    assert run[1..] == [Refresh(i, jti1, jti2)] && run[1..][1..] == [];
    assert After(c, s1, run[1..]) == s2;
  }

  // ---- Refreshing ----

  /** In any run, only refresh tokens lead to further tokens. */
  lemma AccessTokensLeadNowhere(c: Settings, s: State, run: seq<Action>, i: nat, a: nat)
    requires VersionInv(s) && ValidRun(c, s, run)
    requires var end := After(c, s, run); i < |end.minted| && i != a && ComesFrom(end.minted, i, a)
    ensures a < |After(c, s, run).minted| && After(c, s, run).minted[a].token.kind == REFRESH
  {
    RunKeepsVersions(c, s, run);
    OriginIsRefreshToken(After(c, s, run), i, a);
  }

  lemma {:induction false} OriginIsRefreshToken(s: State, i: nat, a: nat)
    requires VersionInv(s) && i < |s.minted| && i != a && ComesFrom(s.minted, i, a)
    ensures a < |s.minted| && s.minted[a].token.kind == REFRESH
    decreases i
  {
    assert TokenInv(s, i);
    if s.minted[i].parent.value != a {
      OriginIsRefreshToken(s, s.minted[i].parent.value, a);
    }
  }

  /** A token that may refresh may do so after any run, exactly if it has not expired, was not
      itself logged out, and its user's role was not changed. */
  lemma RefreshLasts(c: Settings, s: State, k: nat, run: seq<Action>)
    requires k < |s.minted| && RefreshAllowed(s, s.minted[k].token, true, true).Ok?
    requires s.minted[k].token.jti !in s.blacklist
    requires ValidRun(c, s, run) && UniqueIds(After(c, s, run).minted)
    ensures var end, t := After(c, s, run), s.minted[k].token;
            RefreshAllowed(end, t, true, true).Ok? <==>
              end.now.Floor <= t.exp && Logout(k) !in run && !RoleChanges(c, s, run, t.uid)
  {
    VersionTellsRoleChange(c, s, run, s.minted[k].token.uid);
    if Logout(k) in run {
      RefusedAfterLogout(c, s, k, run);
    } else {
      UnlistedWithoutLogout(c, s, k, run);
    }
  }

  /** The same from a login on, for its refresh token; its access token never refreshes. */
  lemma LoginRefreshLasts(c: Settings, s: State, uid: string, jti1: string, jti2: string, run: seq<Action>)
    requires Enabled(s, Login(uid, jti1, jti2)) && c.refreshSeconds >= 0 && jti2 !in s.blacklist
    requires var after := Step(c, s, Login(uid, jti1, jti2)); ValidRun(c, after, run) && UniqueIds(After(c, after, run).minted)
    ensures var after, k := Step(c, s, Login(uid, jti1, jti2)), |s.minted| + 1;
            var end := After(c, after, run);
            && k < |end.minted|
            && (RefreshAllowed(end, end.minted[k].token, true, true).Ok? <==>
                  && end.now.Floor <= (s.now + c.refreshSeconds as real).Floor
                  && Logout(k) !in run && !RoleChanges(c, after, run, uid))
            && RefreshAllowed(end, end.minted[k - 1].token, true, true).Err?
  {
    var after := Step(c, s, Login(uid, jti1, jti2));
    MintedGrows(c, after, run);
    RefreshLasts(c, after, |s.minted| + 1, run);
  }
}
