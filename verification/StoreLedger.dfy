/**
 The panel's traffic tables (internal/panel/store.go AddTraffic, ResetUserTraffic,
 DeleteUser, DeleteNode) and the ingest of a reported batch into them
 (internal/panel/traffic.go ingestTraffic). Every operation is one transaction.
 User ids are never reused (AUTOINCREMENT).
 */
module StoreLedger {
  import opened Traffic
  import opened MapSums
  import TrafficProtocol

  type Rows = map<(int, int), Amount>

  datatype Tables = Tables(
    dataUsed: map<int, int>,   // users: id -> data_used
    nodeTraffic: Rows,         // (user, node)
    daily: Rows,               // (user, day)
    nodeDaily: Rows)           // (node, day)

  const EMPTY := Tables(map[], map[], map[], map[])

  /** INSERT ... ON CONFLICT DO UPDATE SET up=up+?, down=down+?. */
  function Upsert(rows: Rows, key: (int, int), up: int, down: int): Rows {
    if key in rows then rows[key := Amount(rows[key].up + up, rows[key].down + down)] else rows[key := Amount(up, down)]
  }

  function AddTraffic(t: Tables, user: int, node: int, up: int, down: int, day: int): Tables {
    Tables(
      if user in t.dataUsed then t.dataUsed[user := t.dataUsed[user] + up + down] else t.dataUsed,
      Upsert(t.nodeTraffic, (user, node), up, down),
      Upsert(t.daily, (user, day), up, down),
      Upsert(t.nodeDaily, (node, day), up, down))
  }

  function ResetUserTraffic(t: Tables, user: int): Tables {
    t.(dataUsed := if user in t.dataUsed then t.dataUsed[user := 0] else t.dataUsed,
       nodeTraffic := map k | k in t.nodeTraffic && k.0 != user :: t.nodeTraffic[k])
  }

  function DeleteUser(t: Tables, user: int): Tables {
    t.(dataUsed := t.dataUsed - {user},
       nodeTraffic := map k | k in t.nodeTraffic && k.0 != user :: t.nodeTraffic[k])
  }

  function DeleteNode(t: Tables, node: int): Tables {
    t.(nodeTraffic := map k | k in t.nodeTraffic && k.1 != node :: t.nodeTraffic[k],
       nodeDaily := map k | k in t.nodeDaily && k.0 != node :: t.nodeDaily[k])
  }

  // ------------------------------------------------- totals

  /** The rows of one user, and of one day, in one direction. */
  function UserRows(rows: Rows, user: int, d: Dir): map<(int, int), int> {
    map k | k in rows && k.0 == user :: rows[k].Of(d)
  }

  function DayRows(rows: Rows, day: int, d: Dir): map<(int, int), int> {
    map k | k in rows && k.1 == day :: rows[k].Of(d)
  }

  /** UserTrafficTotals: SUM(up), SUM(down) of node_traffic grouped by user. */
  ghost function UserTotal(t: Tables, user: int, d: Dir): int {
    Sum(UserRows(t.nodeTraffic, user, d))
  }

  /** FleetDaily: SUM of traffic_daily grouped by day; and the same over the nodes. */
  ghost function FleetTotal(t: Tables, day: int, d: Dir): int {
    Sum(DayRows(t.daily, day, d))
  }

  ghost function NodesTotal(t: Tables, day: int, d: Dir): int {
    Sum(DayRows(t.nodeDaily, day, d))
  }

  // ------------------------------------------------- runs

  datatype Op =
    | CreateUser(user: int)
    | Add(user: int, node: int, up: int, down: int, day: int)
    | Reset(user: int)
    | RemoveUser(user: int)
    | RemoveNode(node: int)

  /** The tables, with what node deletions took out of them. */
  datatype State = State(
    tables: Tables,
    known: set<int>,              // user ids ever handed out
    dropped: map<int, int>,       // per user: bytes of deleted nodes since the user's last reset
    droppedUp: map<int, int>,     // per day: bytes of deleted nodes
    droppedDown: map<int, int>)

  const FIRST := State(EMPTY, {}, map[], map[], map[])

  /** New users get new ids; traffic is only credited to ids that were handed out. */
  predicate Enabled(s: State, op: Op) {
    match op
    case CreateUser(user) => user !in s.known
    case Add(user, _, _, _, _) => user in s.known
    case _ => true
  }

  function RowBytes(rows: Rows, key: (int, int), d: Dir): int {
    if key in rows then rows[key].Of(d) else 0
  }

  /** What deleting a node takes from each day. */
  function DayLoss(lost: map<int, int>, rows: Rows, node: int, d: Dir): map<int, int> {
    map day | day in lost.Keys + (set k | k in rows :: k.1) ::
      Get(lost, day) + RowBytes(rows, (node, day), d)
  }

  function Apply(s: State, op: Op): State {
    var t := s.tables;
    match op
    case CreateUser(user) =>
      s.(tables := t.(dataUsed := t.dataUsed[user := 0]), known := s.known + {user}, dropped := s.dropped[user := 0])
    case Add(user, node, up, down, day) => s.(tables := AddTraffic(t, user, node, up, down, day))
    case Reset(user) => s.(tables := ResetUserTraffic(t, user), dropped := s.dropped[user := 0])
    case RemoveUser(user) => s.(tables := DeleteUser(t, user))
    case RemoveNode(node) =>
      State(DeleteNode(t, node), s.known,
            map u | u in t.dataUsed ::
              Get(s.dropped, u) + RowBytes(t.nodeTraffic, (u, node), Up) + RowBytes(t.nodeTraffic, (u, node), Down),
            DayLoss(s.droppedUp, t.nodeDaily, node, Up),
            DayLoss(s.droppedDown, t.nodeDaily, node, Down))
  }

  function Dropped(s: State, day: int, d: Dir): int {
    if d == Up then Get(s.droppedUp, day) else Get(s.droppedDown, day)
  }

  /** A user's usage is its per-node rows plus what node deletions removed since its last reset. */
  ghost predicate UserLedger(s: State) {
    && (forall u :: u in s.tables.dataUsed ==>
          && u in s.known
          && s.tables.dataUsed[u] == UserTotal(s.tables, u, Up) + UserTotal(s.tables, u, Down) + Get(s.dropped, u))
    && (forall k :: k in s.tables.nodeTraffic ==> k.0 in s.known)
  }

  /** Per day, the users' total is the nodes' total plus what node deletions removed. */
  ghost predicate DayLedger(s: State) {
    forall day: int, d: Dir :: FleetTotal(s.tables, day, d) == NodesTotal(s.tables, day, d) + Dropped(s, day, d)
  }

  lemma UpsertUserRows(rows: Rows, key: (int, int), up: int, down: int, user: int, d: Dir)
    ensures Sum(UserRows(Upsert(rows, key, up, down), user, d)) ==
      Sum(UserRows(rows, user, d)) + (if key.0 == user then Amount(up, down).Of(d) else 0)
  {
    var before, after := UserRows(rows, user, d), UserRows(Upsert(rows, key, up, down), user, d);
    if key.0 == user {
      assert after == before[key := Get(before, key) + Amount(up, down).Of(d)];
      SumPut(before, key, Get(before, key) + Amount(up, down).Of(d));
    } else {
      assert after == before;
    }
  }

  lemma UpsertDayRows(rows: Rows, key: (int, int), up: int, down: int, day: int, d: Dir)
    ensures Sum(DayRows(Upsert(rows, key, up, down), day, d)) ==
      Sum(DayRows(rows, day, d)) + (if key.1 == day then Amount(up, down).Of(d) else 0)
  {
    var before, after := DayRows(rows, day, d), DayRows(Upsert(rows, key, up, down), day, d);
    if key.1 == day {
      assert after == before[key := Get(before, key) + Amount(up, down).Of(d)];
      SumPut(before, key, Get(before, key) + Amount(up, down).Of(d));
    } else {
      assert after == before;
    }
  }

  /** Every total a reader of the tables can ask for grew by exactly what was added for it. */
  ghost predicate Grown(t: Tables, t': Tables, user: int, up: int, down: int, day: int) {
    && t'.dataUsed.Keys == t.dataUsed.Keys
    && (forall u :: u in t.dataUsed ==> t'.dataUsed[u] == t.dataUsed[u] + (if u == user then up + down else 0))
    && (forall u: int, d: Dir ::
          UserTotal(t', u, d) == UserTotal(t, u, d) + (if u == user then Amount(up, down).Of(d) else 0))
    && (forall when: int, d: Dir ::
          && FleetTotal(t', when, d) == FleetTotal(t, when, d) + (if when == day then Amount(up, down).Of(d) else 0)
          && NodesTotal(t', when, d) == NodesTotal(t, when, d) + (if when == day then Amount(up, down).Of(d) else 0))
  }

  lemma AddTrafficGrows(t: Tables, user: int, node: int, up: int, down: int, day: int)
    ensures Grown(t, AddTraffic(t, user, node, up, down, day), user, up, down, day)
  {
    var t' := AddTraffic(t, user, node, up, down, day);
    forall u: int, d: Dir
      ensures UserTotal(t', u, d) == UserTotal(t, u, d) + (if u == user then Amount(up, down).Of(d) else 0)
    {
      UpsertUserRows(t.nodeTraffic, (user, node), up, down, u, d);
    }
    forall when: int, d: Dir
      ensures FleetTotal(t', when, d) == FleetTotal(t, when, d) + (if when == day then Amount(up, down).Of(d) else 0)
      ensures NodesTotal(t', when, d) == NodesTotal(t, when, d) + (if when == day then Amount(up, down).Of(d) else 0)
    {
      UpsertDayRows(t.daily, (user, day), up, down, when, d);
      UpsertDayRows(t.nodeDaily, (node, day), up, down, when, d);
    }
  }

  /** Deleting a node takes exactly its own row from a user. */
  lemma NodeGoneUserRows(t: Tables, node: int, user: int, d: Dir)
    ensures UserTotal(DeleteNode(t, node), user, d) == UserTotal(t, user, d) - RowBytes(t.nodeTraffic, (user, node), d)
  {
    var before := UserRows(t.nodeTraffic, user, d);
    SumWithout(before, (user, node));
    assert UserRows(DeleteNode(t, node).nodeTraffic, user, d) == before - {(user, node)};
  }

  lemma NodeGoneDayRows(t: Tables, node: int, day: int, d: Dir)
    ensures NodesTotal(DeleteNode(t, node), day, d) == NodesTotal(t, day, d) - RowBytes(t.nodeDaily, (node, day), d)
  {
    var before := DayRows(t.nodeDaily, day, d);
    SumWithout(before, (node, day));
    assert DayRows(DeleteNode(t, node).nodeDaily, day, d) == before - {(node, day)};
  }

  /** Clearing one user's rows leaves every other user's total alone. */
  lemma OtherUserRows(rows: Rows, gone: int, user: int, d: Dir)
    ensures var kept: Rows := map k | k in rows && k.0 != gone :: rows[k];
      Sum(UserRows(kept, user, d)) == if user == gone then 0 else Sum(UserRows(rows, user, d))
  {
    var kept: Rows := map k | k in rows && k.0 != gone :: rows[k];
    if user == gone {
      assert UserRows(kept, user, d) == map[];
    } else {
      assert UserRows(kept, user, d) == UserRows(rows, user, d);
    }
  }

  ghost predicate UserBalanced(s: State, u: int) {
    u in s.tables.dataUsed ==>
      && u in s.known
      && s.tables.dataUsed[u] == UserTotal(s.tables, u, Up) + UserTotal(s.tables, u, Down) + Get(s.dropped, u)
  }

  lemma AddBalanced(s: State, user: int, node: int, up: int, down: int, day: int, u: int)
    requires UserBalanced(s, u)
    ensures UserBalanced(Apply(s, Add(user, node, up, down, day)), u)
  {
    UpsertUserRows(s.tables.nodeTraffic, (user, node), up, down, u, Up);
    UpsertUserRows(s.tables.nodeTraffic, (user, node), up, down, u, Down);
  }

  lemma CutBalanced(s: State, user: int, u: int)
    requires UserBalanced(s, u)
    ensures UserBalanced(Apply(s, Reset(user)), u) && UserBalanced(Apply(s, RemoveUser(user)), u)
  {
    OtherUserRows(s.tables.nodeTraffic, user, u, Up);
    OtherUserRows(s.tables.nodeTraffic, user, u, Down);
  }

  lemma NodeGoneBalanced(s: State, node: int, u: int)
    requires UserBalanced(s, u)
    ensures UserBalanced(Apply(s, RemoveNode(node)), u)
  {
    NodeGoneUserRows(s.tables, node, u, Up);
    NodeGoneUserRows(s.tables, node, u, Down);
  }

  lemma CreatedBalanced(s: State, user: int, u: int)
    requires UserLedger(s) && Enabled(s, CreateUser(user))
    ensures UserBalanced(Apply(s, CreateUser(user)), u)
  {
    assert UserBalanced(s, u);
    if u == user {
      assert UserRows(s.tables.nodeTraffic, u, Up) == map[];
      assert UserRows(s.tables.nodeTraffic, u, Down) == map[];
    }
  }

  lemma UserLedgerStep(s: State, op: Op)
    requires UserLedger(s) && Enabled(s, op)
    ensures UserLedger(Apply(s, op))
  {
    forall u ensures UserBalanced(Apply(s, op), u) {
      assert UserBalanced(s, u);
      match op
      case CreateUser(user) => CreatedBalanced(s, user, u);
      case Add(user, node, up, down, day) => AddBalanced(s, user, node, up, down, day, u);
      case Reset(user) => CutBalanced(s, user, u);
      case RemoveUser(user) => CutBalanced(s, user, u);
      case RemoveNode(node) => NodeGoneBalanced(s, node, u);
    }
    assert forall u :: u in Apply(s, op).tables.dataUsed ==> UserBalanced(Apply(s, op), u);
  }

  lemma DayLedgerStep(s: State, op: Op)
    requires DayLedger(s)
    ensures DayLedger(Apply(s, op))
  {
    var t := Apply(s, op);
    forall day: int, d: Dir
      ensures FleetTotal(t.tables, day, d) == NodesTotal(t.tables, day, d) + Dropped(t, day, d)
    {
      assert FleetTotal(s.tables, day, d) == NodesTotal(s.tables, day, d) + Dropped(s, day, d);
      match op
      case Add(user, node, up, down, when) =>
        UpsertDayRows(s.tables.daily, (user, when), up, down, day, d);
        UpsertDayRows(s.tables.nodeDaily, (node, when), up, down, day, d);
      case RemoveNode(node) =>
        NodeGoneDayRows(s.tables, node, day, d);
        if (node, day) in s.tables.nodeDaily {
          assert day in (set k | k in s.tables.nodeDaily :: k.1);
        }
      case _ =>
    }
  }

  function Exec(s: State, ops: seq<Op>): State
    decreases |ops|
  {
    if ops == [] then s else Exec(Apply(s, ops[0]), ops[1..])
  }

  predicate Legal(s: State, ops: seq<Op>)
    decreases |ops|
  {
    ops == [] || (Enabled(s, ops[0]) && Legal(Apply(s, ops[0]), ops[1..]))
  }

  lemma {:induction false} LedgerRun(s: State, ops: seq<Op>)
    requires UserLedger(s) && DayLedger(s) && Legal(s, ops)
    ensures UserLedger(Exec(s, ops)) && DayLedger(Exec(s, ops))
    decreases |ops|
  {
    if ops == [] {
    } else {
      UserLedgerStep(s, ops[0]);
      DayLedgerStep(s, ops[0]);
      LedgerRun(Apply(s, ops[0]), ops[1..]);
    }
  }

  /** The ledger invariants hold after every sequence of adds, resets and deletions. */
  lemma Ledger(ops: seq<Op>)
    requires Legal(FIRST, ops)
    ensures UserLedger(Exec(FIRST, ops)) && DayLedger(Exec(FIRST, ops))
  {
    forall day: int, d: Dir
      ensures FleetTotal(EMPTY, day, d) == NodesTotal(EMPTY, day, d) + Dropped(FIRST, day, d)
    {
      assert DayRows(EMPTY.daily, day, d) == map[];
      assert DayRows(EMPTY.nodeDaily, day, d) == map[];
    }
    LedgerRun(FIRST, ops);
  }

  /** The user was created and not deleted since. */
  ghost predicate Present(ops: seq<Op>, user: int) {
    exists i :: 0 <= i < |ops| && PresentSince(ops, user, i)
  }

  ghost predicate PresentSince(ops: seq<Op>, user: int, i: nat)
    requires i < |ops|
  {
    ops[i] == CreateUser(user) && forall j :: i < j < |ops| ==> ops[j] != RemoveUser(user)
  }

  lemma PresentFirst(ops: seq<Op>, user: int)
    requires ops != []
    ensures Present(ops, user) <==>
      || Present(ops[1..], user)
      || (ops[0] == CreateUser(user) && forall j :: 0 <= j < |ops| ==> ops[j] != RemoveUser(user))
  {
    var rest := ops[1..];
    assert forall j :: 0 <= j < |rest| ==> rest[j] == ops[j + 1];
    if i :| 0 <= i < |ops| && PresentSince(ops, user, i) {
      if i > 0 {
        assert PresentSince(rest, user, i - 1);
      }
    }
    if i :| 0 <= i < |rest| && PresentSince(rest, user, i) {
      assert forall j :: i + 1 < j < |ops| ==> ops[j] == rest[j - 1];
      assert PresentSince(ops, user, i + 1);
    }
    if ops[0] == CreateUser(user) && forall j :: 0 <= j < |ops| ==> ops[j] != RemoveUser(user) {
      assert PresentSince(ops, user, 0);
    }
  }

  lemma {:induction false} UsersRun(s: State, ops: seq<Op>, user: int)
    ensures user in Exec(s, ops).tables.dataUsed <==>
      Present(ops, user) || (user in s.tables.dataUsed && forall j :: 0 <= j < |ops| ==> ops[j] != RemoveUser(user))
    decreases |ops|
  {
    if ops == [] {
    } else {
      UsersRun(Apply(s, ops[0]), ops[1..], user);
      PresentFirst(ops, user);
      assert forall j :: 0 <= j < |ops[1..]| ==> ops[1..][j] == ops[j + 1];
      assert forall j :: 1 <= j < |ops| ==> ops[j] == ops[1..][j - 1];
    }
  }

  /** Who has a usage row, after every sequence of operations: exactly the users created and not deleted since. */
  lemma LedgerUsers(ops: seq<Op>, user: int)
    ensures user in Exec(FIRST, ops).tables.dataUsed <==> Present(ops, user)
  {
    UsersRun(FIRST, ops, user);
  }

  // ------------------------------------------------- ingest

  /** AddTraffic for every credited item of a batch, in order. */
  function CreditAll(t: Tables, node: int, credits: seq<Item>, allowed: map<string, int>, day: int): Tables
    requires forall i :: 0 <= i < |credits| ==> credits[i].email in allowed
  {
    if credits == [] then t
    else
      var it := credits[|credits| - 1];
      AddTraffic(CreditAll(t, node, credits[..|credits| - 1], allowed, day), node := node, user := allowed[it.email],
                 up := it.up, down := it.down, day := day)
  }

  lemma {:induction false} CreditedAllowed(items: seq<Item>, members: set<string>)
    ensures forall i :: 0 <= i < |TrafficProtocol.Credited(items, members)| ==>
      TrafficProtocol.Credited(items, members)[i].email in members
  {
    if items == [] {
    } else {
      CreditedAllowed(items[..|items| - 1], members);
    }
  }

  /** Crediting a batch raises each user's usage by exactly what the batch reports for that user. */
  lemma {:induction false} CreditedUsage(
    t: Tables, node: int, credits: seq<Item>, allowed: map<string, int>, day: int, name: string)
    requires forall i :: 0 <= i < |credits| ==> credits[i].email in allowed
    requires forall a, b :: a in allowed && b in allowed && allowed[a] == allowed[b] ==> a == b
    requires name in allowed && allowed[name] in t.dataUsed
    ensures var after := CreditAll(t, node, credits, allowed, day);
      && allowed[name] in after.dataUsed
      && after.dataUsed[allowed[name]] ==
           t.dataUsed[allowed[name]] + Total(credits, name, Up) + Total(credits, name, Down)
  {
    if credits == [] {
    } else {
      CreditedUsage(t, node, credits[..|credits| - 1], allowed, day, name);
    }
  }

  // ------------------------------------------------- what an ingest books, row by row

  type Ids = map<string, int>   // assigned username -> user id

  ghost predicate Injective(ids: Ids) {
    forall a, b :: a in ids && b in ids && ids[a] == ids[b] ==> a == b
  }

  /** Exactly one row grew. */
  ghost predicate OneRow(rows: Rows, rows': Rows, key: (int, int), up: int, down: int) {
    && rows'.Keys == rows.Keys + {key}
    && (forall d: Dir :: RowBytes(rows', key, d) == RowBytes(rows, key, d) + Amount(up, down).Of(d))
    && forall k :: k in rows && k != key ==> rows'[k] == rows[k]
  }

  /** AddTraffic books under the user and the node, under the user and the day, and under the node and the day. */
  lemma AddTrafficRows(t: Tables, user: int, node: int, up: int, down: int, day: int)
    ensures var t' := AddTraffic(t, user, node, up, down, day);
      && OneRow(t.nodeTraffic, t'.nodeTraffic, (user, node), up, down)
      && OneRow(t.daily, t'.daily, (user, day), up, down)
      && OneRow(t.nodeDaily, t'.nodeDaily, (node, day), up, down)
  {
  }

  /** Bytes a batch reports for one user id, and for all assigned users. */
  function ById(items: seq<Item>, ids: Ids, user: int, d: Dir): int {
    if items == [] then 0
    else
      var it := items[|items| - 1];
      ById(items[..|items| - 1], ids, user, d) + (if it.email in ids && ids[it.email] == user then it.Amt().Of(d) else 0)
  }

  function ByAll(items: seq<Item>, ids: Ids, d: Dir): int {
    if items == [] then 0
    else
      var it := items[|items| - 1];
      ByAll(items[..|items| - 1], ids, d) + (if it.email in ids then it.Amt().Of(d) else 0)
  }

  /** The ids of assigned users with reported bytes. */
  ghost function Touched(items: seq<Item>, ids: Ids): set<int> {
    set name | name in ids && name in Reported(items) :: ids[name]
  }

  lemma TouchedInit(items: seq<Item>, ids: Ids)
    requires items != []
    ensures var it := items[|items| - 1];
      Touched(items, ids) ==
        Touched(items[..|items| - 1], ids) + (if (it.up == 0 && it.down == 0) || it.email !in ids then {} else {ids[it.email]})
  {
    ReportedInit(items);
  }

  /** Per user: the rows filed under other get the user's bytes, and exactly the touched users have such a row. */
  ghost predicate UserRowsBooked(rows: Rows, rows': Rows, other: int, items: seq<Item>, ids: Ids) {
    && (forall k: (int, int) :: k in rows' <==> k in rows || (k.1 == other && k.0 in Touched(items, ids)))
    && (forall k: (int, int), d: Dir ::
          RowBytes(rows', k, d) == RowBytes(rows, k, d) + (if k.1 == other then ById(items, ids, k.0, d) else 0))
  }

  ghost predicate NodeRowBooked(rows: Rows, rows': Rows, key: (int, int), items: seq<Item>, ids: Ids) {
    && (forall k: (int, int) :: k in rows' <==> k in rows || (k == key && Touched(items, ids) != {}))
    && (forall k: (int, int), d: Dir ::
          RowBytes(rows', k, d) == RowBytes(rows, k, d) + (if k == key then ByAll(items, ids, d) else 0))
  }

  ghost predicate UsageBooked(used: map<int, int>, used': map<int, int>, items: seq<Item>, ids: Ids) {
    && used'.Keys == used.Keys
    && forall u :: u in used ==> used'[u] == used[u] + ById(items, ids, u, Up) + ById(items, ids, u, Down)
  }

  lemma UserRowsStep(rows: Rows, mid: Rows, other: int, items: seq<Item>, ids: Ids)
    requires items != [] && UserRowsBooked(rows, mid, other, items[..|items| - 1], ids)
    ensures var it := items[|items| - 1];
      if (it.up == 0 && it.down == 0) || it.email !in ids then UserRowsBooked(rows, mid, other, items, ids)
      else UserRowsBooked(rows, Upsert(mid, (ids[it.email], other), it.up, it.down), other, items, ids)
  {
    TouchedInit(items, ids);
  }

  lemma NodeRowStep(rows: Rows, mid: Rows, key: (int, int), items: seq<Item>, ids: Ids)
    requires items != [] && NodeRowBooked(rows, mid, key, items[..|items| - 1], ids)
    ensures var it := items[|items| - 1];
      if (it.up == 0 && it.down == 0) || it.email !in ids then NodeRowBooked(rows, mid, key, items, ids)
      else NodeRowBooked(rows, Upsert(mid, key, it.up, it.down), key, items, ids)
  {
    TouchedInit(items, ids);
  }

  ghost predicate RowsBooked(t: Tables, t': Tables, node: int, items: seq<Item>, ids: Ids, day: int) {
    && UserRowsBooked(t.nodeTraffic, t'.nodeTraffic, node, items, ids)
    && UserRowsBooked(t.daily, t'.daily, day, items, ids)
    && NodeRowBooked(t.nodeDaily, t'.nodeDaily, (node, day), items, ids)
    && UsageBooked(t.dataUsed, t'.dataUsed, items, ids)
  }

  lemma UsageStep(used: map<int, int>, mid: Tables, node: int, items: seq<Item>, ids: Ids, day: int)
    requires items != [] && UsageBooked(used, mid.dataUsed, items[..|items| - 1], ids)
    ensures var it := items[|items| - 1];
      if (it.up == 0 && it.down == 0) || it.email !in ids then UsageBooked(used, mid.dataUsed, items, ids)
      else UsageBooked(used, AddTraffic(mid, ids[it.email], node, it.up, it.down, day).dataUsed, items, ids)
  {
  }

  lemma RowsStep(t: Tables, mid: Tables, node: int, items: seq<Item>, ids: Ids, day: int)
    requires items != [] && RowsBooked(t, mid, node, items[..|items| - 1], ids, day)
    ensures var it := items[|items| - 1];
      if (it.up == 0 && it.down == 0) || it.email !in ids then RowsBooked(t, mid, node, items, ids, day)
      else RowsBooked(t, AddTraffic(mid, ids[it.email], node, it.up, it.down, day), node, items, ids, day)
  {
    UserRowsStep(t.nodeTraffic, mid.nodeTraffic, node, items, ids);
    UserRowsStep(t.daily, mid.daily, day, items, ids);
    NodeRowStep(t.nodeDaily, mid.nodeDaily, (node, day), items, ids);
    UsageStep(t.dataUsed, mid, node, items, ids, day);
  }

  lemma {:induction false} IngestRows(t: Tables, node: int, items: seq<Item>, ids: Ids, day: int)
    requires var credits := TrafficProtocol.Credited(items, ids.Keys);
      forall i :: 0 <= i < |credits| ==> credits[i].email in ids
    ensures RowsBooked(t, CreditAll(t, node, TrafficProtocol.Credited(items, ids.Keys), ids, day), node, items, ids, day)
    decreases |items|
  {
    if items == [] {
      assert Touched([], ids) == {};
    } else {
      var n := |items| - 1;
      var credits := TrafficProtocol.Credited(items[..n], ids.Keys);
      CreditedAllowed(items[..n], ids.Keys);
      IngestRows(t, node, items[..n], ids, day);
      RowsStep(t, CreditAll(t, node, credits, ids, day), node, items, ids, day);
      assert (credits + [items[n]])[..|credits|] == credits;
    }
  }

  lemma {:induction false} ByIdTotal(items: seq<Item>, ids: Ids, name: string, d: Dir)
    requires Injective(ids) && name in ids
    ensures ById(items, ids, ids[name], d) == Total(items, name, d)
  {
    if items == [] {
    } else {
      ByIdTotal(items[..|items| - 1], ids, name, d);
    }
  }

  lemma {:induction false} ByIdOther(items: seq<Item>, ids: Ids, user: int, d: Dir)
    requires user !in ids.Values
    ensures ById(items, ids, user, d) == 0
  {
    if items == [] {
    } else {
      ByIdOther(items[..|items| - 1], ids, user, d);
    }
  }

  /** What each assigned user reports, in one direction. */
  function PerName(items: seq<Item>, ids: Ids, d: Dir): map<string, int> {
    map name | name in ids :: Total(items, name, d)
  }

  lemma {:induction false} ByAllSum(items: seq<Item>, ids: Ids, d: Dir)
    ensures ByAll(items, ids, d) == Sum(PerName(items, ids, d))
  {
    if items == [] {
      ZeroSum(PerName(items, ids, d));
    } else {
      var n := |items| - 1;
      var it := items[n];
      var before := PerName(items[..n], ids, d);
      ByAllSum(items[..n], ids, d);
      if it.email in ids {
        assert PerName(items, ids, d) == before[it.email := before[it.email] + it.Amt().Of(d)];
        SumPut(before, it.email, before[it.email] + it.Amt().Of(d));
      } else {
        assert PerName(items, ids, d) == before;
      }
    }
  }

  /**
   What a batch books, in the terms of the report: for every assigned user and each
   direction, the user's row for the node and its row for the day grow by what the
   batch reports for that user; the node's row for the day grows by the sum over the
   assigned users; rows appear for users with reported bytes only; data_used grows
   by both directions; nothing else changes.
   */
  ghost predicate Booked(t: Tables, t': Tables, node: int, items: seq<Item>, ids: Ids, day: int) {
    && (forall name: string, d: Dir :: name in ids ==>
          && RowBytes(t'.nodeTraffic, (ids[name], node), d) ==
               RowBytes(t.nodeTraffic, (ids[name], node), d) + Total(items, name, d)
          && RowBytes(t'.daily, (ids[name], day), d) == RowBytes(t.daily, (ids[name], day), d) + Total(items, name, d))
    && (forall d: Dir :: RowBytes(t'.nodeDaily, (node, day), d) ==
          RowBytes(t.nodeDaily, (node, day), d) + Sum(PerName(items, ids, d)))
    && (forall k: (int, int) :: k in t'.nodeTraffic <==> k in t.nodeTraffic || (k.1 == node && k.0 in Touched(items, ids)))
    && (forall k: (int, int) :: k in t'.daily <==> k in t.daily || (k.1 == day && k.0 in Touched(items, ids)))
    && (forall k: (int, int) :: k in t'.nodeDaily <==> k in t.nodeDaily || (k == (node, day) && Touched(items, ids) != {}))
    && (forall k :: k in t.nodeTraffic && !(k.1 == node && k.0 in ids.Values) ==> t'.nodeTraffic[k] == t.nodeTraffic[k])
    && (forall k :: k in t.daily && !(k.1 == day && k.0 in ids.Values) ==> t'.daily[k] == t.daily[k])
    && (forall k :: k in t.nodeDaily && k != (node, day) ==> t'.nodeDaily[k] == t.nodeDaily[k])
    && t'.dataUsed.Keys == t.dataUsed.Keys
    && (forall name: string :: name in ids && ids[name] in t.dataUsed ==>
          t'.dataUsed[ids[name]] == t.dataUsed[ids[name]] + Total(items, name, Up) + Total(items, name, Down))
    && (forall u :: u in t.dataUsed && u !in ids.Values ==> t'.dataUsed[u] == t.dataUsed[u])
  }

  lemma SameRow(rows: Rows, rows': Rows, k: (int, int))
    requires k in rows && k in rows' && forall d: Dir :: RowBytes(rows', k, d) == RowBytes(rows, k, d)
    ensures rows'[k] == rows[k]
  {
    assert RowBytes(rows', k, Up) == RowBytes(rows, k, Up) && RowBytes(rows', k, Down) == RowBytes(rows, k, Down);
  }

  lemma OtherUserRowsSame(rows: Rows, rows': Rows, other: int, items: seq<Item>, ids: Ids)
    requires UserRowsBooked(rows, rows', other, items, ids)
    ensures forall k :: k in rows && !(k.1 == other && k.0 in ids.Values) ==> k in rows' && rows'[k] == rows[k]
  {
    forall k | k in rows && !(k.1 == other && k.0 in ids.Values) ensures k in rows' && rows'[k] == rows[k] {
      forall d: Dir ensures RowBytes(rows', k, d) == RowBytes(rows, k, d) {
        if k.1 == other {
          ByIdOther(items, ids, k.0, d);
        }
      }
      SameRow(rows, rows', k);
    }
  }

  lemma RowsAreBooked(t: Tables, t': Tables, node: int, items: seq<Item>, ids: Ids, day: int)
    requires Injective(ids) && RowsBooked(t, t', node, items, ids, day)
    ensures Booked(t, t', node, items, ids, day)
  {
    forall name: string, d: Dir | name in ids ensures ById(items, ids, ids[name], d) == Total(items, name, d) {
      ByIdTotal(items, ids, name, d);
    }
    forall d: Dir ensures ByAll(items, ids, d) == Sum(PerName(items, ids, d)) {
      ByAllSum(items, ids, d);
    }
    forall u, d: Dir | u !in ids.Values ensures ById(items, ids, u, d) == 0 {
      ByIdOther(items, ids, u, d);
    }
    OtherUserRowsSame(t.nodeTraffic, t'.nodeTraffic, node, items, ids);
    OtherUserRowsSame(t.daily, t'.daily, day, items, ids);
    forall k | k in t.nodeDaily && k != (node, day) ensures t'.nodeDaily[k] == t.nodeDaily[k] {
      SameRow(t.nodeDaily, t'.nodeDaily, k);
    }
  }

  lemma IngestBooks(t: Tables, node: int, items: seq<Item>, ids: Ids, day: int)
    requires forall i :: 0 <= i < |TrafficProtocol.Credited(items, ids.Keys)| ==>
      TrafficProtocol.Credited(items, ids.Keys)[i].email in ids
    ensures Injective(ids) ==>
      Booked(t, CreditAll(t, node, TrafficProtocol.Credited(items, ids.Keys), ids, day), node, items, ids, day)
  {
    var credits := TrafficProtocol.Credited(items, ids.Keys);
    var after := CreditAll(t, node, credits, ids, day);
    IngestRows(t, node, items, ids, day);
    if Injective(ids) {
      RowsAreBooked(t, after, node, items, ids, day);
    }
  }

  /** Exactly the selected rows are gone. */
  ghost predicate RowsWithout(rows: Rows, rows': Rows, gone: ((int, int)) -> bool) {
    && (forall k: (int, int) :: k in rows' <==> k in rows && !gone(k))
    && (forall k :: k in rows' ==> rows'[k] == rows[k])
  }

  class Store {
    var tables: Tables
    var seqs: map<int, int>                    // nodes: id -> traffic_seq
    var members: map<int, map<string, int>>    // per node: assigned username -> user id

    constructor ()
      ensures tables == EMPTY && seqs == map[] && members == map[]
    {
      tables, seqs, members := EMPTY, map[], map[];
    }

    function Allowed(node: int): map<string, int>
      reads this
    {
      if node in members then members[node] else map[]
    }

    /** AddTraffic: the user's usage and all three totals grow by the amount, every other total stays. */
    method AddUserTraffic(user: int, node: int, up: int, down: int, day: int)
      modifies this`tables
      ensures tables == AddTraffic(old(tables), user, node, up, down, day)
      ensures Grown(old(tables), tables, user, up, down, day)
      ensures OneRow(old(tables.nodeTraffic), tables.nodeTraffic, (user, node), up, down)
      ensures OneRow(old(tables.daily), tables.daily, (user, day), up, down)
      ensures OneRow(old(tables.nodeDaily), tables.nodeDaily, (node, day), up, down)
    {
      AddTrafficGrows(tables, user, node, up, down, day);
      AddTrafficRows(tables, user, node, up, down, day);
      var used := tables.dataUsed;
      if user in used {
        used := used[user := used[user] + (up + down)];
      }
      tables := Tables(used,
                       Upsert(tables.nodeTraffic, (user, node), up, down),
                       Upsert(tables.daily, (user, day), up, down),
                       Upsert(tables.nodeDaily, (node, day), up, down));
    }

    /** ResetUserTraffic: the user's usage is zero and its node rows are gone; daily history and everyone else stay. */
    method ResetTraffic(user: int)
      modifies this`tables
      ensures tables == ResetUserTraffic(old(tables), user)
      ensures tables.dataUsed.Keys == old(tables.dataUsed.Keys) && (user in tables.dataUsed ==> tables.dataUsed[user] == 0)
      ensures forall u :: u in tables.dataUsed && u != user ==> tables.dataUsed[u] == old(tables.dataUsed)[u]
      ensures RowsWithout(old(tables.nodeTraffic), tables.nodeTraffic, (k: (int, int)) => k.0 == user)
      ensures tables.daily == old(tables.daily) && tables.nodeDaily == old(tables.nodeDaily)
    {
      var rows := tables.nodeTraffic;
      var kept := map k | k in rows && k.0 != user :: rows[k];
      var used := tables.dataUsed;
      if user in used {
        used := used[user := 0];
      }
      tables := tables.(dataUsed := used, nodeTraffic := kept);
    }

    /** DeleteUser: exactly this user and its node rows are gone; daily history and everyone else stay. */
    method RemoveUserRows(user: int)
      modifies this`tables
      ensures tables == DeleteUser(old(tables), user)
      ensures tables.dataUsed.Keys == old(tables.dataUsed.Keys) - {user}
      ensures forall u :: u in tables.dataUsed ==> tables.dataUsed[u] == old(tables.dataUsed)[u]
      ensures RowsWithout(old(tables.nodeTraffic), tables.nodeTraffic, (k: (int, int)) => k.0 == user)
      ensures tables.daily == old(tables.daily) && tables.nodeDaily == old(tables.nodeDaily)
    {
      var rows := tables.nodeTraffic;
      var kept := map k | k in rows && k.0 != user :: rows[k];
      tables := tables.(dataUsed := tables.dataUsed - {user}, nodeTraffic := kept);
    }

    /** DeleteNode: exactly the rows filed under this node are gone; every user's usage and daily history stay. */
    method RemoveNodeRows(node: int)
      modifies this`tables
      ensures tables == DeleteNode(old(tables), node)
      ensures tables.dataUsed == old(tables.dataUsed) && tables.daily == old(tables.daily)
      ensures RowsWithout(old(tables.nodeTraffic), tables.nodeTraffic, (k: (int, int)) => k.1 == node)
      ensures RowsWithout(old(tables.nodeDaily), tables.nodeDaily, (k: (int, int)) => k.0 == node)
    {
      var rows, days := tables.nodeTraffic, tables.nodeDaily;
      var kept := map k | k in rows && k.1 != node :: rows[k];
      var keptDays := map k | k in days && k.0 != node :: days[k];
      tables := tables.(nodeTraffic := kept, nodeDaily := keptDays);
    }

    /** The loop of ingestTraffic over the reported items. */
    method CreditItems(node: int, items: seq<Item>, day: int)
      modifies this`tables
      ensures var credits := TrafficProtocol.Credited(items, Allowed(node).Keys);
        && (forall i :: 0 <= i < |credits| ==> credits[i].email in Allowed(node))
        && tables == CreditAll(old(tables), node, credits, Allowed(node), day)
      ensures Injective(Allowed(node)) ==> Booked(old(tables), tables, node, items, Allowed(node), day)
    {
      var allowed := Allowed(node);
      ghost var before := tables;
      for i := 0 to |items|
        invariant seqs == old(seqs) && members == old(members)
        invariant forall j :: 0 <= j < |TrafficProtocol.Credited(items[..i], allowed.Keys)| ==>
          TrafficProtocol.Credited(items[..i], allowed.Keys)[j].email in allowed
        invariant tables == CreditAll(before, node, TrafficProtocol.Credited(items[..i], allowed.Keys), allowed, day)
      {
        var it := items[i];
        ghost var done := TrafficProtocol.Credited(items[..i], allowed.Keys);
        assert items[..i + 1][..i] == items[..i];
        CreditedAllowed(items[..i + 1], allowed.Keys);
        if it.up == 0 && it.down == 0 {
          continue;
        }
        if it.email !in allowed {
          continue;
        }
        AddUserTraffic(allowed[it.email], node, it.up, it.down, day);
        assert (done + [it])[..|done|] == done;
      }
      assert items[..|items|] == items;
      CreditedAllowed(items, allowed.Keys);
      IngestBooks(before, node, items, allowed, day);
    }

    /**
     ingestTraffic: a resend of the last applied batch changes nothing; any other
     batch is credited item by item to the assigned users and its number recorded.
     */
    method IngestTraffic(node: int, number: int, items: seq<Item>, day: int)
      modifies this`tables, this`seqs
      ensures node !in old(seqs) || (number != 0 && number == old(seqs)[node]) ==>
        tables == old(tables) && seqs == old(seqs)
      ensures node in old(seqs) && (number == 0 || number != old(seqs)[node]) ==>
        var credits := TrafficProtocol.Credited(items, Allowed(node).Keys);
        && (forall i :: 0 <= i < |credits| ==> credits[i].email in Allowed(node))
        && tables == CreditAll(old(tables), node, credits, Allowed(node), day)
        && seqs == if number != 0 then old(seqs)[node := number] else old(seqs)
      ensures node in old(seqs) && (number == 0 || number != old(seqs)[node]) && Injective(Allowed(node)) ==>
        Booked(old(tables), tables, node, items, Allowed(node), day)
    {
      if node !in seqs {
        return;
      }
      var last := seqs[node];
      if number != 0 && number == last {
        return;
      }
      CreditItems(node, items, day);
      if number != 0 {
        seqs := seqs[node := number];
      }
    }
  }
}
