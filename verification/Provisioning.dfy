/**
 Which users a node should serve, and the signature that stands for that set
 (internal/panel/models.go active, internal/panel/config.go buildXrayConfig,
 internal/panel/traffic.go activeSignature). SHA-256 is taken as injective, so a
 signature is modelled by the string that is hashed.
 */
module Provisioning {
  import opened Strings
  import opened XrayConfig

  datatype User = User(
    username: string, uuid: string, enabled: bool, expireAt: int, dataLimit: int, dataUsed: int)
  {
    predicate Active(now: int) {
      enabled && !(expireAt > 0 && now >= expireAt) && !(dataLimit > 0 && dataUsed >= dataLimit)
    }
  }

  /** Who is active: enabled, before the expiry if there is one, and below the limit if there is one. */
  lemma ActiveExactly(u: User, now: int)
    ensures u.Active(now) <==>
      u.enabled && (u.expireAt <= 0 || now < u.expireAt) && (u.dataLimit <= 0 || u.dataUsed < u.dataLimit)
  {
  }

  /** Time alone only ever ends activity, and exactly at the expiry. */
  lemma ActivityEnds(u: User, s: int, t: int)
    requires s <= t && u.Active(s)
    ensures u.Active(t) <==> u.expireAt <= 0 || t < u.expireAt
  {
  }

  /** The meaning of provisioning: name is an active user of the list, with this uuid. */
  ghost predicate Provides(users: seq<User>, now: int, name: string, id: string) {
    exists i :: 0 <= i < |users| && users[i].Active(now) && users[i].username == name && users[i].uuid == id
  }

  /** Usernames are unique and use the validated character set; uuids hold no space. */
  ghost predicate Valid(users: seq<User>) {
    && (forall i :: 0 <= i < |users| ==>
          users[i].username != "" && ':' !in users[i].username && ' ' !in users[i].username && ' ' !in users[i].uuid)
    && (forall i, j :: 0 <= i < j < |users| ==> users[i].username != users[j].username)
  }

  function ActiveClients(users: seq<User>, now: int): seq<Client> {
    if users == [] then []
    else
      var rest := ActiveClients(users[..|users| - 1], now);
      var u := users[|users| - 1];
      if u.Active(now) then rest + [Client(u.uuid, u.username)] else rest
  }

  function NodeConfig(p: NodeParams, users: seq<User>, now: int): Doc {
    Build(p, ActiveClients(users, now))
  }

  /** The filtering loop of buildXrayConfig. */
  method BuildXrayConfig(p: NodeParams, users: seq<User>, now: int) returns (doc: Doc)
    ensures doc == NodeConfig(p, users, now)
  {
    var clients: seq<Client> := [];
    for i := 0 to |users|
      invariant clients == ActiveClients(users[..i], now)
    {
      assert users[..i + 1][..i] == users[..i];
      if users[i].Active(now) {
        clients := clients + [Client(users[i].uuid, users[i].username)];
      }
    }
    assert users[..|users|] == users;
    doc := Build(p, clients);
  }

  lemma {:induction false} ActiveClientsMeaning(users: seq<User>, now: int)
    ensures forall name: string, id: string ::
      Client(id, name) in ActiveClients(users, now) <==> Provides(users, now, name, id)
  {
    if users == [] {
    } else {
      var n := |users| - 1;
      ActiveClientsMeaning(users[..n], now);
      forall name: string, id: string
        ensures Client(id, name) in ActiveClients(users, now) <==> Provides(users, now, name, id)
      {
        assert Client(id, name) in ActiveClients(users[..n], now) <==> Provides(users[..n], now, name, id);
        if Provides(users[..n], now, name, id) {
          var i :| 0 <= i < n && users[..n][i].Active(now) && users[..n][i].username == name && users[..n][i].uuid == id;
          assert users[i].Active(now);
        }
        if Provides(users, now, name, id) {
          var i :| 0 <= i < |users| && users[i].Active(now) && users[i].username == name && users[i].uuid == id;
          if i < n {
            assert users[..n][i].Active(now);
          }
        }
      }
    }
  }

  ghost predicate GoodClients(clients: seq<Client>) {
    && Distinct(clients)
    && forall i :: 0 <= i < |clients| ==>
         ':' !in clients[i].email && ' ' !in clients[i].email && ' ' !in clients[i].uuid
  }

  lemma {:induction false} ActiveClientsGood(users: seq<User>, now: int)
    requires Valid(users)
    ensures GoodClients(ActiveClients(users, now))
  {
    if users == [] {
    } else {
      var n := |users| - 1;
      var init := ActiveClients(users[..n], now);
      ActiveClientsGood(users[..n], now);
      ActiveClientsMeaning(users[..n], now);
      forall i | 0 <= i < |init| ensures init[i].email != users[n].username {
        assert Client(init[i].uuid, init[i].email) in init;
        assert Provides(users[..n], now, init[i].email, init[i].uuid);
      }
    }
  }

  /** A node's config holds, under every served tag, exactly the active users. */
  lemma ConfigProvides(p: NodeParams, users: seq<User>, now: int, tag: string, name: string, id: string)
    requires Valid(users) && tag in ServedTags(p)
    ensures var sets := Load(NodeConfig(p, users, now)).clients;
      tag in sets && (name in sets[tag] && sets[tag][name] == id <==> Provides(users, now, name, id))
  {
    var clients := ActiveClients(users, now);
    BuildClients(p, clients);
    ActiveClientsGood(users, now);
    ActiveClientsMeaning(users, now);
    UsersAreClients(clients, name, id);
  }

  // ---------------------------------------------------------------- signature

  function Line(c: Client): string {
    c.email + ":" + c.uuid
  }

  function Lines(clients: seq<Client>): seq<string> {
    seq(|clients|, i requires 0 <= i < |clients| => Line(clients[i]))
  }

  /** fmt.Sprint of a string slice. */
  function Sprint(lines: seq<string>): string {
    "[" + Join(lines, ' ') + "]"
  }

  function Signature(users: seq<User>, now: int): string {
    Sprint(Sort(Lines(ActiveClients(users, now))))
  }

  /** activeSignature: collect, sort, print. */
  method ActiveSignature(users: seq<User>, now: int) returns (sig: string)
    ensures sig == Signature(users, now)
  {
    var lines: seq<string> := [];
    for i := 0 to |users|
      invariant lines == Lines(ActiveClients(users[..i], now))
    {
      assert users[..i + 1][..i] == users[..i];
      if users[i].Active(now) {
        lines := lines + [users[i].username + ":" + users[i].uuid];
      }
    }
    assert users[..|users|] == users;
    sig := Sprint(Sort(lines));
  }

  lemma LineInjective(c: Client, d: Client)
    requires ':' !in c.email && ':' !in d.email && Line(c) == Line(d)
    ensures c == d
  {
    var n, m := |c.email|, |d.email|;
    assert Line(c)[n] == ':' && Line(d)[m] == ':';
    assert n == m;
    assert Line(c)[..n] == c.email && Line(d)[..m] == d.email;
    assert Line(c)[n + 1..] == c.uuid && Line(d)[m + 1..] == d.uuid;
  }

  lemma SprintInjective(a: seq<string>, b: seq<string>)
    requires Free(a, ' ') && Free(b, ' ') && "" !in a && "" !in b
    requires Sprint(a) == Sprint(b)
    ensures a == b
  {
    var ja, jb := Join(a, ' '), Join(b, ' ');
    assert Sprint(a)[1..|Sprint(a)| - 1] == ja && Sprint(b)[1..|Sprint(b)| - 1] == jb;
    if a == [] && b != [] {
      SplitJoin(b, ' ');
    } else if b == [] && a != [] {
      SplitJoin(a, ' ');
    } else if a != [] {
      SplitJoin(a, ' ');
      SplitJoin(b, ' ');
    }
  }

  /** The sorted lines of good clients are printable: no blanks, none empty. */
  lemma SortedLinesPrintable(clients: seq<Client>)
    requires GoodClients(clients)
    ensures Free(Sort(Lines(clients)), ' ') && "" !in Sort(Lines(clients))
  {
    var lines := Lines(clients);
    var sorted := Sort(lines);
    SortSorts(lines);
    forall i | 0 <= i < |sorted| ensures ' ' !in sorted[i] && sorted[i] != "" {
      assert sorted[i] in multiset(lines);
      var k :| 0 <= k < |lines| && lines[k] == sorted[i];
      assert lines[k] == Line(clients[k]);
    }
  }

  lemma {:induction false} LinesAreClients(clients: seq<Client>, c: Client)
    requires GoodClients(clients) && ':' !in c.email
    ensures multiset(Lines(clients))[Line(c)] == if c in clients then 1 else 0
  {
    if clients == [] {
    } else {
      var n := |clients| - 1;
      LinesAreClients(clients[..n], c);
      assert Lines(clients) == Lines(clients[..n]) + [Line(clients[n])];
      assert clients == clients[..n] + [clients[n]];
      if Line(clients[n]) == Line(c) {
        LineInjective(clients[n], c);
      }
    }
  }

  lemma SameLines(a: seq<Client>, b: seq<Client>)
    requires GoodClients(a) && GoodClients(b) && forall c :: c in a <==> c in b
    ensures multiset(Lines(a)) == multiset(Lines(b))
  {
    forall x: string ensures multiset(Lines(a))[x] == multiset(Lines(b))[x] {
      if x in Lines(a) {
        var k :| 0 <= k < |a| && Lines(a)[k] == x;
        assert a[k] in a;
        LinesAreClients(a, a[k]);
        LinesAreClients(b, a[k]);
      } else if x in Lines(b) {
        var k :| 0 <= k < |b| && Lines(b)[k] == x;
        assert b[k] in b;
        LinesAreClients(b, b[k]);
        LinesAreClients(a, b[k]);
      }
    }
  }

  /**
   Canonical signature: two user lists, at two times and in any order, give the
   same signature exactly when they have the same active (username, uuid) pairs.
   */
  lemma CanonicalSignature(a: seq<User>, nowA: int, b: seq<User>, nowB: int)
    requires Valid(a) && Valid(b)
    ensures Signature(a, nowA) == Signature(b, nowB) <==>
      forall name: string, id: string :: Provides(a, nowA, name, id) <==> Provides(b, nowB, name, id)
  {
    var ca, cb := ActiveClients(a, nowA), ActiveClients(b, nowB);
    ActiveClientsGood(a, nowA);
    ActiveClientsGood(b, nowB);
    ActiveClientsMeaning(a, nowA);
    ActiveClientsMeaning(b, nowB);
    SortSorts(Lines(ca));
    SortSorts(Lines(cb));
    if Signature(a, nowA) == Signature(b, nowB) {
      SortedLinesPrintable(ca);
      SortedLinesPrintable(cb);
      SprintInjective(Sort(Lines(ca)), Sort(Lines(cb)));
      forall name: string, id: string ensures Provides(a, nowA, name, id) <==> Provides(b, nowB, name, id) {
        var c := Client(id, name);
        assert c in ca <==> Provides(a, nowA, name, id);
        assert c in cb <==> Provides(b, nowB, name, id);
        if c in ca || c in cb {
          assert ':' !in c.email;
          LinesAreClients(ca, c);
          LinesAreClients(cb, c);
        }
      }
    } else if forall name: string, id: string :: Provides(a, nowA, name, id) <==> Provides(b, nowB, name, id) {
      forall c ensures c in ca <==> c in cb {
        assert Client(c.uuid, c.email) in ca <==> Provides(a, nowA, c.email, c.uuid);
        assert Client(c.uuid, c.email) in cb <==> Provides(b, nowB, c.email, c.uuid);
      }
      SameLines(ca, cb);
      SortedUnique(Sort(Lines(ca)), Sort(Lines(cb)));
    }
  }
}
