/**
 Traffic amounts and reported items (internal/wire/wire.go, TrafficItem), with
 the per-user totals every accounting statement is phrased in.
 */
module Traffic {
  datatype Dir = Up | Down

  /** Bytes in both directions. The source uses int64; here they are unbounded. */
  datatype Amount = Amount(up: int, down: int) {
    function Of(d: Dir): int {
      if d == Up then up else down
    }
  }

  /** One user's increment in a report. */
  datatype Item = Item(email: string, up: int, down: int) {
    function Amt(): Amount {
      Amount(up, down)
    }
  }

  type Counters = map<string, Amount>

  /** What a counter map holds for a user; an absent entry counts as zero. */
  function At(m: Counters, email: string, d: Dir): int {
    if email in m then m[email].Of(d) else 0
  }

  /** What one item reports for a user. */
  function Share(it: Item, email: string, d: Dir): int {
    if it.email == email then it.Amt().Of(d) else 0
  }

  /** Sum of the items of one user, in one direction. */
  function Total(items: seq<Item>, email: string, d: Dir): int {
    if items == [] then 0
    else Total(items[..|items| - 1], email, d) + Share(items[|items| - 1], email, d)
  }

  lemma {:induction false} TotalAppend(a: seq<Item>, b: seq<Item>, email: string, d: Dir)
    ensures Total(a + b, email, d) == Total(a, email, d) + Total(b, email, d)
  {
    if b == [] {
      assert a + b == a;
    } else {
      var n := |b| - 1;
      assert (a + b)[..|a + b| - 1] == a + b[..n];
      TotalAppend(a, b[..n], email, d);
    }
  }

  lemma TotalPush(items: seq<Item>, it: Item, email: string, d: Dir)
    ensures Total(items + [it], email, d) == Total(items, email, d) + Share(it, email, d)
  {
  }

  /** items enumerates the entries of m, each exactly once, in some order. */
  ghost predicate Lists(items: seq<Item>, m: Counters) {
    && (forall i :: 0 <= i < |items| ==> items[i].email in m && m[items[i].email] == items[i].Amt())
    && (forall i, j :: 0 <= i < j < |items| ==> items[i].email != items[j].email)
    && (forall e :: e in m ==> exists i :: 0 <= i < |items| && items[i].email == e)
  }

  lemma ListsInit(items: seq<Item>, m: Counters)
    requires Lists(items, m) && items != []
    ensures Lists(items[..|items| - 1], m - {items[|items| - 1].email})
  {
  }

  /** A listing reports, for every user, what the map holds. */
  lemma {:induction false} ListedTotals(items: seq<Item>, m: Counters, email: string, d: Dir)
    requires Lists(items, m)
    ensures Total(items, email, d) == At(m, email, d)
    decreases |items|
  {
    if items == [] {
    } else {
      var n := |items| - 1;
      ListsInit(items, m);
      ListedTotals(items[..n], m - {items[n].email}, email, d);
    }
  }

  /** Two listings of one map are permutations of each other. */
  lemma {:induction false} ListingsPermute(a: seq<Item>, b: seq<Item>, m: Counters)
    requires Lists(a, m) && Lists(b, m)
    ensures multiset(a) == multiset(b)
  {
    forall it: Item ensures multiset(a)[it] == multiset(b)[it] {
      ListingMultiset(a, m, it);
      ListingMultiset(b, m, it);
    }
  }

  lemma {:induction false} ListingMultiset(items: seq<Item>, m: Counters, it: Item)
    requires Lists(items, m)
    ensures multiset(items)[it] == if it.email in m && m[it.email] == it.Amt() then 1 else 0
    decreases |items|
  {
    if items == [] {
    } else {
      var n := |items| - 1;
      ListsInit(items, m);
      ListingMultiset(items[..n], m - {items[n].email}, it);
      MultisetInit(items, it);
    }
  }

  lemma MultisetInit(items: seq<Item>, it: Item)
    requires items != []
    ensures multiset(items)[it] ==
      multiset(items[..|items| - 1])[it] + (if it == items[|items| - 1] then 1 else 0)
  {
    var n := |items| - 1;
    assert items == items[..n] + [items[n]];
  }

  /** Every map can be enumerated. */
  lemma {:induction false} ListingExists(m: Counters) returns (items: seq<Item>)
    ensures Lists(items, m)
    decreases |m|
  {
    if m == map[] {
      items := [];
    } else {
      var e :| e in m;
      var rest := ListingExists(m - {e});
      items := rest + [Item(e, m[e].up, m[e].down)];
      ListsAppend(rest, m - {e}, items[|rest|]);
      assert (m - {e})[e := m[e]] == m;
    }
  }

  lemma ListsAppend(items: seq<Item>, m: Counters, it: Item)
    requires Lists(items, m) && it.email !in m
    ensures Lists(items + [it], m[it.email := it.Amt()])
  {
    var all := items + [it];
    var m' := m[it.email := it.Amt()];
    forall f | f in m' ensures exists i :: 0 <= i < |all| && all[i].email == f {
      if f == it.email {
        assert all[|items|].email == f;
      } else {
        var i :| 0 <= i < |items| && items[i].email == f;
        assert all[i].email == f;
      }
    }
  }

  /** mergeInto for one item: zero items leave the map alone. */
  function MergeOne(m: Counters, it: Item): Counters {
    if it.up == 0 && it.down == 0 then m
    else m[it.email := Amount(At(m, it.email, Up) + it.up, At(m, it.email, Down) + it.down)]
  }

  function Merge(m: Counters, items: seq<Item>): Counters {
    if items == [] then m
    else MergeOne(Merge(m, items[..|items| - 1]), items[|items| - 1])
  }

  lemma MergeOneTotal(m: Counters, it: Item, email: string, d: Dir)
    ensures At(MergeOne(m, it), email, d) == At(m, email, d) + Share(it, email, d)
  {
  }

  /** Merging neither loses nor invents bytes, for every user and direction. */
  /** The users an item list reports any bytes for. */
  ghost function Reported(items: seq<Item>): set<string> {
    set i | 0 <= i < |items| && !(items[i].up == 0 && items[i].down == 0) :: items[i].email
  }

  lemma ReportedInit(items: seq<Item>)
    requires items != []
    ensures var n := |items| - 1;
      Reported(items) ==
        Reported(items[..n]) + (if items[n].up == 0 && items[n].down == 0 then {} else {items[n].email})
  {
    var n := |items| - 1;
    forall e | e in Reported(items[..n]) ensures e in Reported(items) {
      var i :| 0 <= i < n && !(items[..n][i].up == 0 && items[..n][i].down == 0) && items[..n][i].email == e;
      assert items[i] == items[..n][i];
    }
    forall e | e in Reported(items)
      ensures e in Reported(items[..n]) || (!(items[n].up == 0 && items[n].down == 0) && e == items[n].email)
    {
      var i :| 0 <= i < |items| && !(items[i].up == 0 && items[i].down == 0) && items[i].email == e;
      if i < n {
        assert items[..n][i] == items[i];
      }
    }
  }

  /** Merging makes an entry for every user with reported bytes, and for no other. */
  lemma {:induction false} MergeKeys(m: Counters, items: seq<Item>)
    ensures Merge(m, items).Keys == m.Keys + Reported(items)
  {
    if items == [] {
    } else {
      MergeKeys(m, items[..|items| - 1]);
      ReportedInit(items);
    }
  }

  lemma {:induction false} MergeTotals(m: Counters, items: seq<Item>, email: string, d: Dir)
    ensures At(Merge(m, items), email, d) == At(m, email, d) + Total(items, email, d)
  {
    if items == [] {
    } else {
      var n := |items| - 1;
      MergeTotals(m, items[..n], email, d);
      MergeOneTotal(Merge(m, items[..n]), items[n], email, d);
    }
  }
}
