/**
 The agent's durable, ack-gated traffic buffer (internal/agent/pending.go).

 The functions on Buffer values say what each operation does to the buffer; the
 class PendingTraffic is the mutable object with its file, proved against them.
 */
module PendingBuffer {
  import opened Wrappers
  import opened Traffic

  /** The persisted fields: last assigned batch number, unacked batch, collected bytes. */
  datatype Buffer = Buffer(sn: int, flight: Counters, flightAt: bool, pend: Counters)

  const FRESH := Buffer(0, map[], false, map[])

  function Collect(b: Buffer, items: seq<Item>): Buffer {
    b.(pend := Merge(b.pend, items))
  }

  /** batch() assigns a new number exactly when nothing is in flight and bytes are waiting. */
  predicate CanPromote(b: Buffer) {
    !b.flightAt && b.pend != map[]
  }

  function Promote(b: Buffer): Buffer {
    if CanPromote(b) then Buffer(b.sn + 1, b.pend, true, map[]) else b
  }

  function Ack(b: Buffer, sn: int): Buffer {
    if b.flightAt && sn == b.sn then b.(flight := map[], flightAt := false) else b
  }

  /** Bytes of one user held anywhere in the buffer. */
  function Held(b: Buffer, email: string, d: Dir): int {
    At(b.pend, email, d) + (if b.flightAt then At(b.flight, email, d) else 0)
  }

  /** Collecting adds exactly the reported bytes. */
  lemma {:induction false} CollectAddsBytes(b: Buffer, items: seq<Item>, email: string, d: Dir)
    ensures Held(Collect(b, items), email, d) == Held(b, email, d) + Total(items, email, d)
  {
    MergeTotals(b.pend, items, email, d);
  }

  /** Batching only moves bytes from pending to in flight. */
  lemma PromoteKeepsBytes(b: Buffer, email: string, d: Dir)
    ensures Held(Promote(b), email, d) == Held(b, email, d)
  {
  }

  /** An ack of anything but the batch in flight is harmless; the right one drops exactly that batch. */
  lemma AckDropsOnlyItsBatch(b: Buffer, sn: int, email: string, d: Dir)
    ensures sn != b.sn || !b.flightAt ==> Ack(b, sn) == b
    ensures sn == b.sn && b.flightAt ==>
      Held(Ack(b, sn), email, d) == At(b.pend, email, d) && Ack(b, sn).sn == b.sn && Ack(b, sn).pend == b.pend
  {
  }

  /** The file behind the buffer; None before the first write. */
  class BufferFile {
    var stored: Option<Buffer>

    constructor ()
      ensures stored == None
    {
      stored := None;
    }
  }

  class PendingTraffic {
    const file: BufferFile?   // null when the path is "": persistence disabled
    var sn: int
    var flight: Counters
    var flightAt: bool
    var pend: Counters

    function Value(): Buffer
      reads this
    {
      Buffer(sn, flight, flightAt, pend)
    }

    /** loadPending: the stored buffer, or a fresh one when nothing was stored. */
    constructor Load(file: BufferFile?)
      ensures this.file == file
      ensures Value() == if file != null && file.stored.Some? then file.stored.value else FRESH
    {
      this.file := file;
      if file != null && file.stored.Some? {
        var b := file.stored.value;
        sn, flight, flightAt, pend := b.sn, b.flight, b.flightAt, b.pend;
      } else {
        sn, flight, flightAt, pend := 0, map[], false, map[];
      }
    }

    /** save: writes the whole buffer, or leaves the old file when the write fails. */
    method Save(written: bool)
      modifies file
      ensures file != null ==> file.stored == if written then Some(Value()) else old(file.stored)
    {
      if file != null && written {
        file.stored := Some(Value());
      }
    }

    /** The loop of mergeInto. */
    static method MergeInto(dst: Counters, items: seq<Item>) returns (m: Counters)
      ensures m == Merge(dst, items)
      ensures forall e: string, d: Dir :: At(m, e, d) == At(dst, e, d) + Total(items, e, d)
      ensures m.Keys == dst.Keys + Reported(items)
    {
      MergeKeys(dst, items);
      m := dst;
      for i := 0 to |items|
        invariant m == Merge(dst, items[..i])
      {
        var it := items[i];
        assert items[..i + 1][..i] == items[..i];
        if it.up == 0 && it.down == 0 {
          continue;
        }
        var entry := if it.email in m then m[it.email] else Amount(0, 0);
        m := m[it.email := Amount(entry.up + it.up, entry.down + it.down)];
      }
      assert items[..|items|] == items;
      forall e: string, d: Dir ensures At(m, e, d) == At(dst, e, d) + Total(items, e, d) {
        MergeTotals(dst, items, e, d);
      }
    }

    method CollectItems(items: seq<Item>, written: bool)
      modifies this`pend, file
      ensures Value() == Collect(old(Value()), items)
      ensures forall e: string, d: Dir :: At(pend, e, d) == old(At(pend, e, d)) + Total(items, e, d)
      ensures pend.Keys == old(pend.Keys) + Reported(items)
      ensures file != null ==> file.stored == if items != [] && written then Some(Value()) else old(file.stored)
    {
      if |items| == 0 {
        return;
      }
      var merged := MergeInto(pend, items);
      pend := merged;
      Save(written);
    }

    /** batch: the current batch under its number, promoting pending bytes first if none is in flight. */
    method Batch(written: bool) returns (number: int, items: seq<Item>, ok: bool)
      modifies this, file
      ensures Value() == Promote(old(Value()))
      ensures if !old(flightAt) && old(pend) != map[]
        then sn == old(sn) + 1 && flight == old(pend) && flightAt && pend == map[]
        else Value() == old(Value())
      ensures file != null ==>
        file.stored == if CanPromote(old(Value())) && written then Some(Value()) else old(file.stored)
      ensures !old(flightAt) && old(pend) == map[] ==> !ok
      ensures Value().flightAt ==> number == sn && Lists(items, flight) && (ok <==> flight != map[])
    {
      if !flightAt {
        if |pend| == 0 {
          return 0, [], false;
        }
        sn := sn + 1;
        flight := pend;
        pend := map[];
        flightAt := true;
        Save(written);
      }
      items := Enumerate(flight);
      return sn, items, |items| > 0;
    }

    /** The range loop over the in-flight map, in an arbitrary order. */
    static method Enumerate(m: Counters) returns (items: seq<Item>)
      ensures Lists(items, m)
      ensures |items| > 0 <==> m != map[]
    {
      items := [];
      var todo := m.Keys;
      while todo != {}
        invariant todo <= m.Keys && |items| + |todo| == |m|
        invariant forall i :: 0 <= i < |items| ==> items[i].email in m && m[items[i].email] == items[i].Amt()
        invariant forall i :: 0 <= i < |items| ==> items[i].email !in todo
        invariant forall i, j :: 0 <= i < j < |items| ==> items[i].email != items[j].email
        invariant forall e :: e in m && e !in todo ==> exists i :: 0 <= i < |items| && items[i].email == e
        decreases todo
      {
        var e :| e in todo;
        ghost var before := items;
        items := items + [Item(e, m[e].up, m[e].down)];
        todo := todo - {e};
        forall f | f in m && f !in todo ensures exists i :: 0 <= i < |items| && items[i].email == f {
          if f == e {
            assert items[|before|].email == f;
          } else {
            var i :| 0 <= i < |before| && before[i].email == f;
            assert items[i].email == f;
          }
        }
      }
    }

    method AckBatch(number: int, written: bool)
      modifies this, file
      ensures Value() == Ack(old(Value()), number)
      ensures number != old(sn) || !old(flightAt) ==> Value() == old(Value())
      ensures number == old(sn) && old(flightAt) ==>
        !flightAt && flight == map[] && sn == old(sn) && pend == old(pend)
      ensures file != null ==>
        file.stored == if old(flightAt) && number == old(sn) && written then Some(Value()) else old(file.stored)
    {
      if flightAt && number == sn {
        flight := map[];
        flightAt := false;
        Save(written);
      }
    }
  }
}
