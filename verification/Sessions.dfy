/**
 Stateless session tokens and their revocation by epoch (internal/panel/auth.go
 signSession, verifySession, requireAuth; internal/panel/portal.go portalUser;
 internal/panel/store.go session epochs).

 The MAC is a parameter that returns pipe-free text (hex). Base64 is a bijection
 on its valid strings, so a token is modelled by its decoded text, and by None
 when it does not decode.
 */
module Sessions {
  import opened Wrappers
  import opened Strings
  import opened Decimal

  const ROLE_ADMIN := "admin"
  const ROLE_USER := "user"

  type Mac = (string, string) -> string

  ghost predicate Hex(mac: Mac) {
    forall secret: string, msg: string :: '|' !in mac(secret, msg)
  }

  datatype Session = Session(role: string, subject: string, epoch: int)

  function Payload(role: string, subject: string, epoch: string, exp: string): string {
    role + "|" + subject + "|" + epoch + "|" + exp
  }

  function SignSession(mac: Mac, secret: string, role: string, subject: string, epoch: int, exp: int): string {
    var payload := Payload(role, subject, FormatInt(epoch), FormatInt(exp));
    payload + "|" + mac(secret, payload)
  }

  function VerifySession(mac: Mac, secret: string, token: Option<string>, now: int): Option<Session> {
    if token.None? then None
    else
      var parts := Split(token.value, '|');
      if |parts| != 5 then None
      else if parts[4] != mac(secret, Payload(parts[0], parts[1], parts[2], parts[3])) then None
      else
        var epoch, exp := ParseInt(parts[2]), ParseInt(parts[3]);
        if epoch.None? || exp.None? || now >= exp.value then None
        else Some(Session(parts[0], parts[1], epoch.value))
  }

  lemma TokenIsJoin(a: string, b: string, c: string, d: string, e: string)
    ensures Payload(a, b, c, d) + "|" + e == Join([a, b, c, d, e], '|')
  {
    JoinFirst(a, [b, c, d, e]);
    JoinFirst(b, [c, d, e]);
    JoinFirst(c, [d, e]);
    JoinFirst(d, [e]);
    assert Join([e], '|') == e;
  }

  lemma JoinFirst(first: string, rest: seq<string>)
    requires rest != []
    ensures Join([first] + rest, '|') == first + "|" + Join(rest, '|')
  {
  }

  lemma CountPipes(a: string, b: string, c: string, d: string, e: string)
    ensures Count(Payload(a, b, c, d) + "|" + e, '|') ==
      Count(a, '|') + Count(b, '|') + Count(c, '|') + Count(d, '|') + Count(e, '|') + 4
  {
    var p := Payload(a, b, c, d);
    CountAppend(p + "|", e, '|');
    CountAppend(p, "|", '|');
    CountAppend(a + "|" + b + "|" + c + "|", d, '|');
    CountAppend(a + "|" + b + "|" + c, "|", '|');
    CountAppend(a + "|" + b + "|", c, '|');
    CountAppend(a + "|" + b, "|", '|');
    CountAppend(a + "|", b, '|');
    CountAppend(a, "|", '|');
    assert Count("|", '|') == 1 + Count("", '|');
  }

  /**
   Round trip: a signed token verifies, to exactly the signed role, subject and
   epoch, if and only if it has not expired and neither role nor subject contains
   the separator. In every other case it is rejected.
   */
  lemma SessionRoundTrip(mac: Mac, secret: string, role: string, subject: string, epoch: int, exp: int, now: int)
    requires Hex(mac) && InInt64(epoch) && InInt64(exp)
    ensures VerifySession(mac, secret, Some(SignSession(mac, secret, role, subject, epoch, exp)), now) ==
      if '|' !in role && '|' !in subject && now < exp then Some(Session(role, subject, epoch)) else None
  {
    var es, xs := FormatInt(epoch), FormatInt(exp);
    var sig := mac(secret, Payload(role, subject, es, xs));
    var token := Payload(role, subject, es, xs) + "|" + sig;
    IntRoundTrip(epoch);
    IntRoundTrip(exp);
    if '|' !in role && '|' !in subject {
      var parts := [role, subject, es, xs, sig];
      assert Free(parts, '|');
      TokenIsJoin(role, subject, es, xs, sig);
      SplitJoin(parts, '|');
    } else {
      SplitCount(token, '|');
      CountPipes(role, subject, es, xs, sig);
      CountZero(role, '|');
      CountZero(subject, '|');
      assert |Split(token, '|')| > 5;
    }
  }

  /** The text is the signed form of these fields, under this secret. */
  ghost predicate IsToken(mac: Mac, secret: string, text: string, role: string, subject: string, epoch: string, exp: string) {
    var payload := Payload(role, subject, epoch, exp);
    && text == payload + "|" + mac(secret, payload)
    && Free([role, subject, epoch, exp, mac(secret, payload)], '|')
  }

  /** The text is a token of this session that has not expired. */
  ghost predicate Shows(mac: Mac, secret: string, text: string, now: int, s: Session) {
    exists epoch: string, exp: string ::
      && IsToken(mac, secret, text, s.role, s.subject, epoch, exp)
      && ParseInt(epoch) == Some(s.epoch) && ParseInt(exp).Some? && now < ParseInt(exp).value
  }

  /**
   What verifies, with no assumption on the MAC: a text is accepted as a session if
   and only if it is that session's fields followed by their MAC under this very
   secret, and has not expired. A text signed under another secret, or changed in
   any field, is accepted only if the MAC happens to agree.
   */
  lemma VerifiesExactly(mac: Mac, secret: string, text: string, now: int, s: Session)
    ensures VerifySession(mac, secret, Some(text), now) == Some(s) <==> Shows(mac, secret, text, now, s)
  {
    var parts := Split(text, '|');
    JoinSplit(text, '|');
    if VerifySession(mac, secret, Some(text), now) == Some(s) {
      assert parts == [parts[0], parts[1], parts[2], parts[3], parts[4]];
      TokenIsJoin(parts[0], parts[1], parts[2], parts[3], parts[4]);
      assert IsToken(mac, secret, text, s.role, s.subject, parts[2], parts[3]);
    }
    if Shows(mac, secret, text, now, s) {
      var epoch: string, exp: string :|
        && IsToken(mac, secret, text, s.role, s.subject, epoch, exp)
        && ParseInt(epoch) == Some(s.epoch) && ParseInt(exp).Some? && now < ParseInt(exp).value;
      var sig := mac(secret, Payload(s.role, s.subject, epoch, exp));
      TokenIsJoin(s.role, s.subject, epoch, exp, sig);
      SplitJoin([s.role, s.subject, epoch, exp, sig], '|');
    }
  }

  // ------------------------------------------------- accounts

  /** Session epochs of the existing portal users and admins. */
  datatype Accounts = Accounts(users: map<int, int>, admins: map<string, int>)

  /** portalUser: the authenticated user, if any. */
  function PortalUser(mac: Mac, secret: string, a: Accounts, token: Option<string>, now: int): Option<int> {
    var s := VerifySession(mac, secret, token, now);
    if s.None? || s.value.role != ROLE_USER then None
    else
      var id := ParseInt(s.value.subject);
      if id.None? || id.value !in a.users || a.users[id.value] != s.value.epoch then None else id
  }

  /** requireAuth: whether the request may proceed. */
  predicate RequireAuth(mac: Mac, secret: string, a: Accounts, token: Option<string>, now: int) {
    var s := VerifySession(mac, secret, token, now);
    s.Some? && s.value.role == ROLE_ADMIN && s.value.subject in a.admins && a.admins[s.value.subject] == s.value.epoch
  }

  /** Who gets in at the portal: exactly the holders of an unexpired user token of an existing account at its current epoch. */
  lemma PortalUserExactly(mac: Mac, secret: string, a: Accounts, text: string, now: int, id: int)
    ensures PortalUser(mac, secret, a, Some(text), now) == Some(id) <==>
      id in a.users && exists subject: string ::
        ParseInt(subject) == Some(id) && Shows(mac, secret, text, now, Session(ROLE_USER, subject, a.users[id]))
  {
    var s := VerifySession(mac, secret, Some(text), now);
    if s.Some? {
      VerifiesExactly(mac, secret, text, now, s.value);
    }
    if PortalUser(mac, secret, a, Some(text), now) == Some(id) {
      assert s.value == Session(ROLE_USER, s.value.subject, a.users[id]);
    }
    if id in a.users {
      forall subject: string | Shows(mac, secret, text, now, Session(ROLE_USER, subject, a.users[id]))
        ensures s == Some(Session(ROLE_USER, subject, a.users[id]))
      {
        VerifiesExactly(mac, secret, text, now, Session(ROLE_USER, subject, a.users[id]));
      }
    }
  }

  /** Who gets in on the admin side: exactly the holders of an unexpired admin token of an existing admin at its current epoch. */
  lemma RequireAuthExactly(mac: Mac, secret: string, a: Accounts, text: string, now: int)
    ensures RequireAuth(mac, secret, a, Some(text), now) <==>
      exists name: string :: name in a.admins && Shows(mac, secret, text, now, Session(ROLE_ADMIN, name, a.admins[name]))
  {
    var s := VerifySession(mac, secret, Some(text), now);
    if s.Some? {
      VerifiesExactly(mac, secret, text, now, s.value);
    }
    if RequireAuth(mac, secret, a, Some(text), now) {
      assert s.value == Session(ROLE_ADMIN, s.value.subject, a.admins[s.value.subject]);
    }
    forall name: string | name in a.admins && Shows(mac, secret, text, now, Session(ROLE_ADMIN, name, a.admins[name]))
      ensures s == Some(Session(ROLE_ADMIN, name, a.admins[name]))
    {
      VerifiesExactly(mac, secret, text, now, Session(ROLE_ADMIN, name, a.admins[name]));
    }
  }

  function PortalToken(mac: Mac, secret: string, id: int, epoch: int, exp: int): string {
    SignSession(mac, secret, ROLE_USER, FormatInt(id), epoch, exp)
  }

  /** A portal token opens exactly its own account, while the epoch matches and it has not expired; never the admin side. */
  lemma PortalTokenMeaning(mac: Mac, secret: string, a: Accounts, id: int, epoch: int, exp: int, now: int)
    requires Hex(mac) && InInt64(id) && InInt64(epoch) && InInt64(exp)
    ensures var token := Some(PortalToken(mac, secret, id, epoch, exp));
      && PortalUser(mac, secret, a, token, now) ==
           (if now < exp && id in a.users && a.users[id] == epoch then Some(id) else None)
      && !RequireAuth(mac, secret, a, token, now)
  {
    IntRoundTrip(id);
    SessionRoundTrip(mac, secret, ROLE_USER, FormatInt(id), epoch, exp, now);
  }

  /** What can happen to accounts. */
  datatype Event =
    | Bump(id: int)         // BumpUserSessionEpoch, ChangeUserPortalPassword
    | DeleteUser(id: int)
    | CreateUser(id: int)   // ids are never reused
    | BumpAdmin(name: string)     // BumpAdminSessionEpoch, a new admin password
    | DeleteAdmin(name: string)
    | CreateAdmin(name: string)   // fails if the name is taken; a name may be used again

  function Apply(a: Accounts, e: Event): Accounts {
    match e
    case Bump(id) => if id in a.users then a.(users := a.users[id := a.users[id] + 1]) else a
    case DeleteUser(id) => a.(users := a.users - {id})
    case CreateUser(id) => a.(users := a.users[id := 0])
    case BumpAdmin(name) => if name in a.admins then a.(admins := a.admins[name := a.admins[name] + 1]) else a
    case DeleteAdmin(name) => a.(admins := a.admins - {name})
    case CreateAdmin(name) => if name in a.admins then a else a.(admins := a.admins[name := 0])
  }

  function Exec(a: Accounts, events: seq<Event>): Accounts {
    if events == [] then a else Apply(Exec(a, events[..|events| - 1]), events[|events| - 1])
  }

  /** Ids of existing users are not handed out again. */
  predicate NeverCreated(events: seq<Event>, id: int) {
    forall i :: 0 <= i < |events| ==> events[i] != CreateUser(id)
  }

  function Bumps(events: seq<Event>, id: int): nat {
    if events == [] then 0
    else Bumps(events[..|events| - 1], id) + (if events[|events| - 1] == Bump(id) then 1 else 0)
  }

  predicate Deleted(events: seq<Event>, id: int) {
    exists i :: 0 <= i < |events| && events[i] == DeleteUser(id)
  }

  lemma {:induction false} EpochAfter(a: Accounts, events: seq<Event>, id: int)
    requires id in a.users && NeverCreated(events, id)
    ensures id in Exec(a, events).users <==> !Deleted(events, id)
    ensures !Deleted(events, id) ==> Exec(a, events).users[id] == a.users[id] + Bumps(events, id)
  {
    if events == [] {
    } else {
      var n := |events| - 1;
      EpochAfter(a, events[..n], id);
      assert Deleted(events, id) <==> Deleted(events[..n], id) || events[n] == DeleteUser(id) by {
        if i :| 0 <= i < n && events[..n][i] == DeleteUser(id) {
          assert events[i] == DeleteUser(id);
        }
        if i :| 0 <= i < |events| && events[i] == DeleteUser(id) && i < n {
          assert events[..n][i] == DeleteUser(id);
        }
      }
    }
  }

  /**
   Revocation: a token issued to a user at its current epoch is, after any
   sequence of events, accepted exactly until it expires, the user's epoch is
   bumped or the user is deleted. So a bump rejects every earlier token for good,
   and the token re-issued after it is not affected by it.
   */
  lemma Revocation(mac: Mac, secret: string, a: Accounts, id: int, exp: int, events: seq<Event>, now: int)
    requires Hex(mac) && InInt64(id) && InInt64(exp)
    requires id in a.users && InInt64(a.users[id]) && NeverCreated(events, id)
    ensures var token := Some(PortalToken(mac, secret, id, a.users[id], exp));
      PortalUser(mac, secret, Exec(a, events), token, now) == Some(id) <==>
        now < exp && Bumps(events, id) == 0 && !Deleted(events, id)
  {
    EpochAfter(a, events, id);
    PortalTokenMeaning(mac, secret, Exec(a, events), id, a.users[id], exp, now);
  }

  /** Changing the password: the session used for it is re-issued and stays valid, older ones end. */
  lemma PasswordChangeKeepsOwnSession(mac: Mac, secret: string, a: Accounts, id: int, exp: int, newExp: int, now: int)
    requires Hex(mac) && InInt64(id) && InInt64(exp) && InInt64(newExp) && now < newExp
    requires id in a.users && InInt64(a.users[id]) && InInt64(a.users[id] + 1)
    ensures var after := Apply(a, Bump(id));
      && PortalUser(mac, secret, after, Some(PortalToken(mac, secret, id, after.users[id], newExp)), now) == Some(id)
      && PortalUser(mac, secret, after, Some(PortalToken(mac, secret, id, a.users[id], exp)), now) == None
  {
    var after := Apply(a, Bump(id));
    PortalTokenMeaning(mac, secret, after, id, after.users[id], newExp, now);
    PortalTokenMeaning(mac, secret, after, id, a.users[id], exp, now);
  }

  // ------------------------------------------------- admins

  function AdminToken(mac: Mac, secret: string, name: string, epoch: int, exp: int): string {
    SignSession(mac, secret, ROLE_ADMIN, name, epoch, exp)
  }

  /** An admin token opens the admin side exactly while its epoch matches and it has not expired; never a portal account. */
  lemma AdminTokenMeaning(mac: Mac, secret: string, a: Accounts, name: string, epoch: int, exp: int, now: int)
    requires Hex(mac) && InInt64(epoch) && InInt64(exp)
    ensures var token := Some(AdminToken(mac, secret, name, epoch, exp));
      && (RequireAuth(mac, secret, a, token, now) <==>
            '|' !in name && now < exp && name in a.admins && a.admins[name] == epoch)
      && PortalUser(mac, secret, a, token, now) == None
  {
    assert '|' !in ROLE_ADMIN;
    SessionRoundTrip(mac, secret, ROLE_ADMIN, name, epoch, exp, now);
  }

  function AdminBumps(events: seq<Event>, name: string): nat {
    if events == [] then 0
    else AdminBumps(events[..|events| - 1], name) + (if events[|events| - 1] == BumpAdmin(name) then 1 else 0)
  }

  predicate NeverDeleted(events: seq<Event>, name: string) {
    forall i :: 0 <= i < |events| ==> events[i] != DeleteAdmin(name)
  }

  lemma {:induction false} AdminEpochAfter(a: Accounts, events: seq<Event>, name: string)
    requires name in a.admins && NeverDeleted(events, name)
    ensures name in Exec(a, events).admins && Exec(a, events).admins[name] == a.admins[name] + AdminBumps(events, name)
  {
    if events == [] {
    } else {
      AdminEpochAfter(a, events[..|events| - 1], name);
    }
  }

  /** Revocation for admins: while the account is not deleted, a token is accepted exactly until it expires or the epoch is bumped. */
  lemma AdminRevocation(mac: Mac, secret: string, a: Accounts, name: string, exp: int, events: seq<Event>, now: int)
    requires Hex(mac) && InInt64(exp) && '|' !in name
    requires name in a.admins && InInt64(a.admins[name]) && NeverDeleted(events, name)
    ensures RequireAuth(mac, secret, Exec(a, events), Some(AdminToken(mac, secret, name, a.admins[name], exp)), now) <==>
      now < exp && AdminBumps(events, name) == 0
  {
    AdminEpochAfter(a, events, name);
    AdminTokenMeaning(mac, secret, Exec(a, events), name, a.admins[name], exp, now);
  }

  lemma {:induction false} ExecAppend(a: Accounts, x: seq<Event>, y: seq<Event>)
    ensures Exec(a, x + y) == Exec(Exec(a, x), y)
    decreases |y|
  {
    if y == [] {
      assert x + y == x;
    } else {
      var n := |y| - 1;
      assert (x + y)[..|x + y| - 1] == x + y[..n];
      ExecAppend(a, x, y[..n]);
    }
  }

  /**
   Deletion does not revoke for good when a name is used again: the new account
   counts its epochs from zero, so an earlier token of epoch k is accepted again
   exactly while the new account has been bumped k times.
   */
  lemma RecreatedAdmin(
    mac: Mac, secret: string, a: Accounts, name: string, epoch: int, exp: int, later: seq<Event>, now: int)
    requires Hex(mac) && InInt64(epoch) && InInt64(exp) && '|' !in name && NeverDeleted(later, name)
    ensures var events := [DeleteAdmin(name), CreateAdmin(name)] + later;
      RequireAuth(mac, secret, Exec(a, events), Some(AdminToken(mac, secret, name, epoch, exp)), now) <==>
        now < exp && AdminBumps(later, name) == epoch
  {
    var again := [DeleteAdmin(name), CreateAdmin(name)];
    assert again[..1] == [DeleteAdmin(name)] && again[..1][..0] == [];
    assert Exec(a, again[..1]) == Apply(a, DeleteAdmin(name));
    ExecAppend(a, again, later);
    AdminEpochAfter(Exec(a, again), later, name);
    AdminTokenMeaning(mac, secret, Exec(a, again + later), name, epoch, exp, now);
  }
}
