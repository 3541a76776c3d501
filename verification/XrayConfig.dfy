/**
 The Xray configuration as the panel builds it and the agent reads it:
 internal/nodeconf/nodeconf.go (Build), internal/agent/live_grpc.go
 (parseClients) and internal/agent/xray.go (stripTLSIfNoCert).

 JSON is abstracted to what these functions look at. Everything they only carry
 along is a Rest value, so equal documents mean equal JSON.
 */
module XrayConfig {
  import opened Wrappers

  const TAG_TLS := "vless-xtls-vision"
  const TAG_REALITY := "vless-reality-vision"

  /** A client entry; a missing or non-string field reads as "". */
  datatype ClientJson = ClientObj(email: string, id: string) | NotObject

  datatype ClientList = Clients(list: seq<ClientJson>) | NotArray

  datatype Rest =
    | ApiRest
    | TlsRest
    | RealityRest(dest: string, serverName: string, privateKey: string, shortID: string)
    | TopRest
    | OtherRest(raw: string)

  /** settings is None when the inbound has no settings object. */
  datatype Inbound =
    | Inbound(tag: string, settings: Option<ClientList>, rest: Rest)
    | NotInbound(raw: string)

  datatype Doc =
    | Doc(inbounds: seq<Inbound>, rest: Rest)
    | NoInbounds(raw: string)   // valid JSON without an inbounds array
    | Malformed                 // not JSON

  type Users = map<string, string>       // email -> uuid
  type ClientSets = map<string, Users>   // inbound tag -> users

  // ------------------------------------------------------------- parseClients

  /** Inbounds whose client lists the agent manages. */
  predicate Managed(ib: Inbound) {
    ib.Inbound? && (ib.tag == TAG_TLS || ib.tag == TAG_REALITY) && ib.settings.Some?
  }

  function UsersOf(list: seq<ClientJson>): Users {
    if list == [] then map[]
    else
      var m := UsersOf(list[..|list| - 1]);
      var c := list[|list| - 1];
      if c.ClientObj? && c.email != "" then m[c.email := c.id] else m
  }

  function ListOf(ib: Inbound): seq<ClientJson>
    requires Managed(ib)
  {
    if ib.settings.value.Clients? then ib.settings.value.list else []
  }

  function ClientSetsOf(inbounds: seq<Inbound>): ClientSets {
    if inbounds == [] then map[]
    else
      var m := ClientSetsOf(inbounds[..|inbounds| - 1]);
      var ib := inbounds[|inbounds| - 1];
      if Managed(ib) then m[ib.tag := UsersOf(ListOf(ib))] else m
  }

  function Emptied(ib: Inbound): Inbound {
    if Managed(ib) then ib.(settings := Some(Clients([]))) else ib
  }

  /** The document with the managed client lists emptied. */
  function SkeletonOf(doc: Doc): Doc {
    if doc.Doc? then Doc(seq(|doc.inbounds|, i requires 0 <= i < |doc.inbounds| => Emptied(doc.inbounds[i])), doc.rest)
    else doc
  }

  /** What a started Xray holds: the non-user part, and the users of each managed inbound. */
  datatype Running = Running(skeleton: Doc, clients: ClientSets)

  function Load(doc: Doc): Running {
    Running(SkeletonOf(doc), if doc.Doc? then ClientSetsOf(doc.inbounds) else map[])
  }

  /** The uuid of a user: that of the last entry with this email; entries without an email are left out. */
  lemma {:induction false} UsersMeaning(list: seq<ClientJson>, email: string, id: string)
    ensures email in UsersOf(list) && UsersOf(list)[email] == id <==>
      email != "" && exists i :: 0 <= i < |list| && IsLast(list, email, i) && list[i].id == id
  {
    if list == [] {
    } else {
      var n := |list| - 1;
      var init := list[..n];
      UsersMeaning(init, email, id);
      if list[n].ClientObj? && list[n].email == email {
        assert IsLast(list, email, n);
        assert forall i :: 0 <= i < n ==> !IsLast(list, email, i);
      } else {
        assert forall i :: 0 <= i < n ==> (IsLast(list, email, i) <==> IsLast(init, email, i)) by {
          forall i | 0 <= i < n ensures IsLast(list, email, i) <==> IsLast(init, email, i) {
            assert forall j :: i < j < n ==> init[j] == list[j];
          }
        }
        assert forall i :: 0 <= i < n ==> init[i] == list[i];
      }
    }
  }

  ghost predicate IsLast(list: seq<ClientJson>, email: string, i: nat)
    requires i < |list|
  {
    && list[i].ClientObj? && list[i].email == email
    && forall j :: i < j < |list| ==> !(list[j].ClientObj? && list[j].email == email)
  }

  /** The users under a tag are those of the last managed inbound that carries it. */
  lemma {:induction false} SetsMeaning(inbounds: seq<Inbound>, tag: string, users: Users)
    ensures tag in ClientSetsOf(inbounds) && ClientSetsOf(inbounds)[tag] == users <==>
      exists i :: 0 <= i < |inbounds| && IsLastManaged(inbounds, tag, i) && users == UsersOf(ListOf(inbounds[i]))
  {
    if inbounds == [] {
    } else {
      var n := |inbounds| - 1;
      var init := inbounds[..n];
      SetsMeaning(init, tag, users);
      assert forall i :: 0 <= i < n ==> init[i] == inbounds[i];
      if Managed(inbounds[n]) && inbounds[n].tag == tag {
        assert IsLastManaged(inbounds, tag, n);
        assert forall i :: 0 <= i < n ==> !IsLastManaged(inbounds, tag, i);
      } else {
        forall i | 0 <= i < n ensures IsLastManaged(inbounds, tag, i) <==> IsLastManaged(init, tag, i) {
          assert forall j :: i < j < n ==> init[j] == inbounds[j];
        }
      }
    }
  }

  ghost predicate IsLastManaged(inbounds: seq<Inbound>, tag: string, i: nat)
    requires i < |inbounds|
  {
    && Managed(inbounds[i]) && inbounds[i].tag == tag
    && forall j :: i < j < |inbounds| ==> !(Managed(inbounds[j]) && inbounds[j].tag == tag)
  }

  /** The nested loops of parseClients. */
  method ParseClients(doc: Doc) returns (skeleton: Doc, clients: ClientSets, ok: bool)
    ensures ok <==> doc.Doc?
    ensures ok ==> Running(skeleton, clients) == Load(doc)
  {
    clients := map[];
    if !doc.Doc? {
      return doc, clients, false;
    }
    var inbounds: seq<Inbound> := [];
    for i := 0 to |doc.inbounds|
      invariant |inbounds| == i
      invariant forall k :: 0 <= k < i ==> inbounds[k] == Emptied(doc.inbounds[k])
      invariant clients == ClientSetsOf(doc.inbounds[..i])
    {
      var ib := doc.inbounds[i];
      assert doc.inbounds[..i + 1][..i] == doc.inbounds[..i];
      if !Managed(ib) {
        inbounds := inbounds + [ib];
        continue;
      }
      var arr := if ib.settings.value.Clients? then ib.settings.value.list else [];
      var users: Users := map[];
      for j := 0 to |arr|
        invariant users == UsersOf(arr[..j])
      {
        assert arr[..j + 1][..j] == arr[..j];
        if arr[j].ClientObj? && arr[j].email != "" {
          users := users[arr[j].email := arr[j].id];
        }
      }
      assert arr[..|arr|] == arr;
      clients := clients[ib.tag := users];
      inbounds := inbounds + [ib.(settings := Some(Clients([])))];
    }
    assert doc.inbounds[..|doc.inbounds|] == doc.inbounds;
    assert inbounds == SkeletonOf(doc).inbounds;
    skeleton := Doc(inbounds, doc.rest);
    ok := true;
  }

  /** A tag is managed exactly when some managed inbound carries it. */
  lemma {:induction false} ManagedTags(inbounds: seq<Inbound>, tag: string)
    ensures tag in ClientSetsOf(inbounds) <==> exists i :: 0 <= i < |inbounds| && Managed(inbounds[i]) && inbounds[i].tag == tag
  {
    if inbounds == [] {
    } else {
      var n := |inbounds| - 1;
      ManagedTags(inbounds[..n], tag);
      if i :| 0 <= i < n && Managed(inbounds[i]) && inbounds[i].tag == tag {
        assert inbounds[..n][i] == inbounds[i];
      }
    }
  }

  /** Documents that differ only in users manage the same tags. */
  lemma {:induction false} SameSkeletonSameTags(a: seq<Inbound>, b: seq<Inbound>)
    requires |a| == |b| && forall i :: 0 <= i < |a| ==> Emptied(a[i]) == Emptied(b[i])
    ensures ClientSetsOf(a).Keys == ClientSetsOf(b).Keys
  {
    if a == [] {
    } else {
      var n := |a| - 1;
      SameSkeletonSameTags(a[..n], b[..n]);
      assert Emptied(a[n]) == Emptied(b[n]);
    }
  }

  /** Two inbounds that differ in nothing but the users the agent manages. */
  predicate SameButUsers(a: Inbound, b: Inbound) {
    a == b || (Managed(a) && Managed(b) && a.tag == b.tag && a.rest == b.rest)
  }

  /**
   What a skeleton keeps: two documents have the same one if and only if they agree
   in everything but the client lists of managed inbounds. So a live apply is only
   tried when nothing else changed.
   */
  lemma SkeletonExactly(a: Doc, b: Doc)
    requires a.Doc? && b.Doc?
    ensures SkeletonOf(a) == SkeletonOf(b) <==>
      && a.rest == b.rest && |a.inbounds| == |b.inbounds|
      && forall i :: 0 <= i < |a.inbounds| ==> SameButUsers(a.inbounds[i], b.inbounds[i])
  {
    var sa, sb := SkeletonOf(a).inbounds, SkeletonOf(b).inbounds;
    assert |sa| == |a.inbounds| && |sb| == |b.inbounds|;
    if SkeletonOf(a) == SkeletonOf(b) {
      forall i | 0 <= i < |a.inbounds| ensures SameButUsers(a.inbounds[i], b.inbounds[i]) {
        assert sa[i] == sb[i];
      }
    } else if a.rest == b.rest && |sa| == |sb| {
      assert sa != sb;
      var i :| 0 <= i < |sa| && sa[i] != sb[i];
      assert !SameButUsers(a.inbounds[i], b.inbounds[i]);
    }
  }

  lemma SkeletonFixesTags(a: Doc, b: Doc)
    requires SkeletonOf(a) == SkeletonOf(b)
    ensures Load(a).clients.Keys == Load(b).clients.Keys
  {
    if a.Doc? && b.Doc? {
      var sa, sb := SkeletonOf(a).inbounds, SkeletonOf(b).inbounds;
      assert |sa| == |a.inbounds| && |sb| == |b.inbounds|;
      forall i | 0 <= i < |a.inbounds| ensures Emptied(a.inbounds[i]) == Emptied(b.inbounds[i]) {
        assert sa[i] == sb[i];
      }
      SameSkeletonSameTags(a.inbounds, b.inbounds);
    }
  }

  // -------------------------------------------------------- stripTLSIfNoCert

  function WithoutTLS(inbounds: seq<Inbound>): seq<Inbound> {
    if inbounds == [] then []
    else
      var rest := WithoutTLS(inbounds[..|inbounds| - 1]);
      var ib := inbounds[|inbounds| - 1];
      if ib.Inbound? && ib.tag == TAG_TLS then rest else rest + [ib]
  }

  /** certMissing: a certificate path is configured and the file is not there. */
  function Strip(doc: Doc, certMissing: bool): Doc {
    if certMissing && doc.Doc? then doc.(inbounds := WithoutTLS(doc.inbounds)) else doc
  }

  method StripTLSIfNoCert(doc: Doc, certMissing: bool) returns (r: Doc)
    ensures r == Strip(doc, certMissing)
  {
    if !certMissing || !doc.Doc? {
      return doc;
    }
    var kept: seq<Inbound> := [];
    for i := 0 to |doc.inbounds|
      invariant kept == WithoutTLS(doc.inbounds[..i])
    {
      var ib := doc.inbounds[i];
      assert doc.inbounds[..i + 1][..i] == doc.inbounds[..i];
      if !(ib.Inbound? && ib.tag == TAG_TLS) {
        kept := kept + [ib];
      }
    }
    assert doc.inbounds[..|doc.inbounds|] == doc.inbounds;
    r := doc.(inbounds := kept);
  }

  /**
   What stripping keeps: the inbounds at these increasing positions, which are all
   the positions of inbounds other than TLS.
   */
  lemma {:induction false} StripKeeps(inbounds: seq<Inbound>) returns (kept: seq<nat>)
    ensures |kept| == |WithoutTLS(inbounds)|
    ensures forall k :: 0 <= k < |kept| ==> kept[k] < |inbounds| && WithoutTLS(inbounds)[k] == inbounds[kept[k]]
    ensures forall j, k :: 0 <= j < k < |kept| ==> kept[j] < kept[k]
    ensures forall i :: 0 <= i < |inbounds| ==>
      (i in kept <==> !(inbounds[i].Inbound? && inbounds[i].tag == TAG_TLS))
  {
    if inbounds == [] {
      kept := [];
    } else {
      var n := |inbounds| - 1;
      kept := StripKeeps(inbounds[..n]);
      assert forall i :: 0 <= i < n ==> inbounds[..n][i] == inbounds[i];
      if !(inbounds[n].Inbound? && inbounds[n].tag == TAG_TLS) {
        kept := kept + [n];
      }
    }
  }

  /** Stripping removes the TLS users and touches no other inbound's users. */
  lemma {:induction false} StripClients(inbounds: seq<Inbound>)
    ensures ClientSetsOf(WithoutTLS(inbounds)) == ClientSetsOf(inbounds) - {TAG_TLS}
  {
    if inbounds == [] {
    } else {
      var n := |inbounds| - 1;
      var ib := inbounds[n];
      StripClients(inbounds[..n]);
      var rest := WithoutTLS(inbounds[..n]);
      if !(ib.Inbound? && ib.tag == TAG_TLS) {
        assert (rest + [ib])[..|rest|] == rest;
      }
    }
  }

  // -------------------------------------------------------------------- Build

  datatype Client = Client(uuid: string, email: string)

  datatype NodeParams = NodeParams(
    realityDest: string, realityServerName: string, realityPrivateKey: string,
    realityShortID: string, tlsDomain: string)
  {
    predicate HasReality() {
      realityDest != "" && realityServerName != "" && realityPrivateKey != ""
    }
  }

  function ClientJsons(clients: seq<Client>): seq<ClientJson> {
    seq(|clients|, i requires 0 <= i < |clients| => ClientObj(clients[i].email, clients[i].uuid))
  }

  function Build(p: NodeParams, clients: seq<Client>): Doc {
    var list := Some(Clients(ClientJsons(clients)));
    Doc([Inbound("api", Some(NotArray), ApiRest)]
        + (if p.tlsDomain != "" then [Inbound(TAG_TLS, list, TlsRest)] else [])
        + (if p.HasReality()
           then [Inbound(TAG_REALITY, list,
                         RealityRest(p.realityDest, p.realityServerName, p.realityPrivateKey, p.realityShortID))]
           else []),
        TopRest)
  }

  /** The managed inbounds a node with these settings serves. */
  function ServedTags(p: NodeParams): set<string> {
    (if p.tlsDomain != "" then {TAG_TLS} else {}) + (if p.HasReality() then {TAG_REALITY} else {})
  }

  /** A built document holds the whole client list under every served tag, and no other. */
  lemma BuildClients(p: NodeParams, clients: seq<Client>)
    ensures Load(Build(p, clients)).clients == map tag | tag in ServedTags(p) :: UsersOf(ClientJsons(clients))
  {
    var list := ClientJsons(clients);
    var users := UsersOf(list);
    var api := [Inbound("api", Some(NotArray), ApiRest)];
    var tls := if p.tlsDomain != "" then [Inbound(TAG_TLS, Some(Clients(list)), TlsRest)] else [];
    var a := api + tls;
    assert api[..0] == [];
    assert ClientSetsOf(api) == map[];
    if tls != [] {
      assert a[..1] == api;
      assert ClientSetsOf(a) == map[TAG_TLS := users];
    } else {
      assert a == api;
    }
    var all := Build(p, clients).inbounds;
    if p.HasReality() {
      assert all[..|all| - 1] == a;
      assert ClientSetsOf(all) == ClientSetsOf(a)[TAG_REALITY := users];
    } else {
      assert all == a;
    }
  }

  /** What the settings turn into: an inbound for the API, one for TLS and one for REALITY with its own parameters. */
  lemma BuildInbounds(p: NodeParams, clients: seq<Client>, ib: Inbound)
    ensures ib in Build(p, clients).inbounds <==>
      || ib == Inbound("api", Some(NotArray), ApiRest)
      || (p.tlsDomain != "" && ib == Inbound(TAG_TLS, Some(Clients(ClientJsons(clients))), TlsRest))
      || (p.realityDest != "" && p.realityServerName != "" && p.realityPrivateKey != ""
          && ib.Inbound? && ib.tag == TAG_REALITY && ib.settings == Some(Clients(ClientJsons(clients)))
          && ib.rest.RealityRest? && ib.rest.dest == p.realityDest && ib.rest.serverName == p.realityServerName
          && ib.rest.privateKey == p.realityPrivateKey && ib.rest.shortID == p.realityShortID)
  {
    var list := Some(Clients(ClientJsons(clients)));
    var api := [Inbound("api", Some(NotArray), ApiRest)];
    var tls := if p.tlsDomain != "" then [Inbound(TAG_TLS, list, TlsRest)] else [];
    var all := Build(p, clients).inbounds;
    assert all[..|api + tls|] == api + tls;
    assert ib in all <==> ib in api || ib in tls || (p.HasReality() && ib == all[|all| - 1]);
  }

  /** The settings that show in a config. */
  predicate SameSettings(p: NodeParams, q: NodeParams) {
    && (p.tlsDomain != "" <==> q.tlsDomain != "")
    && (p.HasReality() <==> q.HasReality())
    && (p.HasReality() ==>
          && p.realityDest == q.realityDest && p.realityServerName == q.realityServerName
          && p.realityPrivateKey == q.realityPrivateKey && p.realityShortID == q.realityShortID)
  }

  /** A change of settings always changes the skeleton, and so forces a restart; a change of users never does. */
  lemma SettingsDecideSkeleton(p: NodeParams, a: seq<Client>, q: NodeParams, b: seq<Client>)
    ensures SkeletonOf(Build(p, a)) == SkeletonOf(Build(q, b)) <==> SameSettings(p, q)
  {
    var da, db := Build(p, a), Build(q, b);
    SkeletonExactly(da, db);
    if SkeletonOf(da) == SkeletonOf(db) {
      var n := |da.inbounds| - 1;
      assert n > 0 ==> SameButUsers(da.inbounds[1], db.inbounds[1]) && SameButUsers(da.inbounds[n], db.inbounds[n]);
    }
  }

  /** Two client lists for the same settings differ in users only. */
  lemma BuildSkeleton(p: NodeParams, a: seq<Client>, b: seq<Client>)
    ensures SkeletonOf(Build(p, a)) == SkeletonOf(Build(p, b))
  {
  }

  ghost predicate Distinct(clients: seq<Client>) {
    && (forall i :: 0 <= i < |clients| ==> clients[i].email != "")
    && (forall i, j :: 0 <= i < j < |clients| ==> clients[i].email != clients[j].email)
  }

  /** With unique emails the parsed users are exactly the listed pairs. */
  lemma {:induction false} UsersAreClients(clients: seq<Client>, email: string, id: string)
    requires Distinct(clients)
    ensures var m := UsersOf(ClientJsons(clients));
      email in m && m[email] == id <==> exists i :: 0 <= i < |clients| && clients[i] == Client(id, email)
  {
    if clients == [] {
    } else {
      var n := |clients| - 1;
      var init := clients[..n];
      assert ClientJsons(clients)[..n] == ClientJsons(init);
      UsersAreClients(init, email, id);
      assert forall i :: 0 <= i < n ==> init[i] == clients[i];
      if email == clients[n].email {
        forall i | 0 <= i < |clients| && clients[i] == Client(id, email) ensures i == n {
        }
      }
    }
  }

  lemma UserMapIncluded(a: seq<Client>, b: seq<Client>, name: string)
    requires Distinct(a) && Distinct(b) && forall c :: c in a ==> c in b
    requires name in UsersOf(ClientJsons(a))
    ensures name in UsersOf(ClientJsons(b)) && UsersOf(ClientJsons(b))[name] == UsersOf(ClientJsons(a))[name]
  {
    var id := UsersOf(ClientJsons(a))[name];
    UsersAreClients(a, name, id);
    UsersAreClients(b, name, id);
    assert Client(id, name) in a;
  }

  /** Only the set of clients matters, not their order. */
  lemma SameClientsSameUsers(a: seq<Client>, b: seq<Client>)
    requires Distinct(a) && Distinct(b) && forall c :: c in a <==> c in b
    ensures UsersOf(ClientJsons(a)) == UsersOf(ClientJsons(b))
  {
    var ua, ub := UsersOf(ClientJsons(a)), UsersOf(ClientJsons(b));
    forall name | name in ua ensures name in ub && ub[name] == ua[name] {
      UserMapIncluded(a, b, name);
    }
    forall name | name in ub ensures name in ua {
      UserMapIncluded(b, a, name);
    }
  }
}
