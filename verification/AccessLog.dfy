/**
 The access-log tailer (internal/agent/devices.go): incremental reading with a
 persisted offset, rotation and truncation handling, and the per-device counts.

 The regular expression and the timestamp parser are parameters. Persistence is
 enabled (a state path is configured).
 */
module AccessLog {
  import opened Wrappers

  // ------------------------------------------------- bufio.Scanner over lines

  /** A line this long stops the scanner (sc.Buffer with 1 MiB). */
  const MAX_TOKEN := 1024 * 1024

  /** Index of the first newline, or the length of the text. */
  function NewlineAt(s: string): (n: nat)
    ensures n <= |s|
    ensures n < |s| ==> s[n] == '\n'
    ensures '\n' !in s[..n]
  {
    if s == "" || s[0] == '\n' then 0 else 1 + NewlineAt(s[1..])
  }

  function DropCR(line: string): string {
    if line != "" && line[|line| - 1] == '\r' then line[..|line| - 1] else line
  }

  /** The tokens of bufio.ScanLines: lines without their newline and one trailing CR. */
  function Tokens(s: string): seq<string>
    decreases |s|
  {
    if s == "" then []
    else
      var n := NewlineAt(s);
      if n >= MAX_TOKEN then []
      else [DropCR(s[..n])] + (if n < |s| then Tokens(s[n + 1..]) else [])
  }

  /** What collect adds to the offset: each token's length plus one. */
  function Consumed(tokens: seq<string>): nat {
    if tokens == [] then 0 else |tokens[0]| + 1 + Consumed(tokens[1..])
  }

  predicate Terminated(s: string) {
    s == "" || s[|s| - 1] == '\n'
  }

  /** No line reaches the scanner's limit. */
  predicate ShortLines(s: string)
    decreases |s|
  {
    s == "" || (var n := NewlineAt(s); n < MAX_TOKEN && (n < |s| ==> ShortLines(s[n + 1..])))
  }

  /** Carriage returns the scanner drops. */
  function DroppedCRs(s: string): nat
    decreases |s|
  {
    if s == "" then 0
    else
      var n := NewlineAt(s);
      |s[..n]| - |DropCR(s[..n])| + (if n < |s| then DroppedCRs(s[n + 1..]) else 0)
  }

  lemma ConsumedFirst(first: string, rest: seq<string>)
    ensures Consumed([first] + rest) == |first| + 1 + Consumed(rest)
  {
  }

  /**
   Exact accounting of the offset: it advances by the bytes read, minus the
   dropped carriage returns, plus one if the last line has no newline yet.
   */
  lemma {:induction false} ConsumedExact(s: string)
    requires ShortLines(s)
    ensures Consumed(Tokens(s)) == |s| - DroppedCRs(s) + (if Terminated(s) then 0 else 1)
    decreases |s|
  {
    if s == "" {
    } else {
      var n := NewlineAt(s);
      var first := DropCR(s[..n]);
      if n < |s| {
        var rest := s[n + 1..];
        ConsumedExact(rest);
        ConsumedFirst(first, Tokens(rest));
        assert rest != "" ==> rest[|rest| - 1] == s[|s| - 1];
      } else {
        assert s[..n] == s && s[|s| - 1] in s[..n];
        ConsumedFirst(first, []);
        assert [first] + [] == [first];
      }
    }
  }

  /** The tokens with a newline after each. */
  function Unlines(tokens: seq<string>): string {
    if tokens == [] then "" else tokens[0] + "\n" + Unlines(tokens[1..])
  }

  lemma ShortFirst(s: string)
    requires ShortLines(s) && NewlineAt(s) < |s|
    ensures NewlineAt(s) < MAX_TOKEN && ShortLines(s[NewlineAt(s) + 1..])
  {
  }

  lemma CRsFirst(s: string)
    requires NewlineAt(s) < |s|
    ensures var n := NewlineAt(s); DroppedCRs(s) == n - |DropCR(s[..n])| + DroppedCRs(s[n + 1..])
  {
  }

  lemma LineFirst(s: string, n: nat)
    requires n < |s| && s[n] == '\n'
    ensures s == s[..n] + "\n" + s[n + 1..]
  {
  }

  lemma CleanFirst(s: string)
    requires Clean(s) && s != ""
    ensures var n := NewlineAt(s);
      && n < |s| && n < MAX_TOKEN && Clean(s[n + 1..]) && DropCR(s[..n]) == s[..n]
      && s == s[..n] + "\n" + s[n + 1..]
  {
    FirstLineApart(s, "");
    ShortFirst(s);
    CRsFirst(s);
    LineFirst(s, NewlineAt(s));
  }

  lemma UnlinesFirst(first: string, rest: seq<string>)
    ensures Unlines([first] + rest) == first + "\n" + Unlines(rest)
  {
    assert ([first] + rest)[1..] == rest;
  }

  /** Reading loses nothing of a clean text: its lines, each with a newline, are the text again. */
  lemma {:induction false} TokensRoundTrip(s: string)
    requires Clean(s)
    ensures Unlines(Tokens(s)) == s
    ensures forall i :: 0 <= i < |Tokens(s)| ==> '\n' !in Tokens(s)[i]
    decreases |s|
  {
    if s == "" {
    } else {
      var first, rest := s[..NewlineAt(s)], s[NewlineAt(s) + 1..];
      assert Clean(rest) && s == first + "\n" + rest && DropCR(first) == first && NewlineAt(s) < MAX_TOKEN && |first| < |s| by {
        CleanFirst(s);
      }
      TokensRoundTrip(rest);
      assert Tokens(s) == [first] + Tokens(rest) by { TokensFirst(s); }
      UnlinesFirst(first, Tokens(rest));
    }
  }

  /** What the tailer assumes of a file it observes. */
  predicate Clean(s: string) {
    Terminated(s) && ShortLines(s) && DroppedCRs(s) == 0
  }

  lemma NewlineAppend(a: string, b: string)
    requires NewlineAt(a) < |a|
    ensures NewlineAt(a + b) == NewlineAt(a)
  {
    if a[0] != '\n' {
      NewlineAppend(a[1..], b);
      assert (a + b)[1..] == a[1..] + b;
    }
  }

  lemma DropAppend(a: string, b: string, k: nat)
    requires k <= |a|
    ensures (a + b)[k..] == a[k..] + b
  {
  }

  lemma FirstLineApart(a: string, b: string)
    requires Terminated(a) && a != ""
    ensures var n := NewlineAt(a);
      && n < |a| && NewlineAt(a + b) == n
      && (a + b)[..n] == a[..n] && (a + b)[n + 1..] == a[n + 1..] + b
      && Terminated(a[n + 1..])
  {
    var n := NewlineAt(a);
    assert n < |a|;
    NewlineAppend(a, b);
    DropAppend(a, b, n + 1);
  }

  lemma {:induction false} ShortApart(a: string, b: string)
    requires Terminated(a)
    ensures ShortLines(a + b) <==> ShortLines(a) && ShortLines(b)
    decreases |a|
  {
    if a == "" {
      assert a + b == b;
    } else {
      FirstLineApart(a, b);
      ShortApart(a[NewlineAt(a) + 1..], b);
    }
  }

  lemma {:induction false} CRsApart(a: string, b: string)
    requires Terminated(a)
    ensures DroppedCRs(a + b) == DroppedCRs(a) + DroppedCRs(b)
    decreases |a|
  {
    if a == "" {
      assert a + b == b;
    } else {
      FirstLineApart(a, b);
      CRsApart(a[NewlineAt(a) + 1..], b);
    }
  }

  lemma ConsAppend(x: string, a: seq<string>, b: seq<string>)
    ensures [x] + (a + b) == ([x] + a) + b
  {
  }

  lemma TokensFirst(s: string)
    requires NewlineAt(s) < |s| && NewlineAt(s) < MAX_TOKEN
    ensures Tokens(s) == [DropCR(s[..NewlineAt(s)])] + Tokens(s[NewlineAt(s) + 1..])
  {
  }

  /** A text that ends in a newline is read independently of what follows it. */
  lemma {:induction false} TokensApart(a: string, b: string)
    requires Terminated(a) && ShortLines(a)
    ensures Tokens(a + b) == Tokens(a) + Tokens(b)
    decreases |a|
  {
    if a == "" {
      assert a + b == b;
    } else {
      var n := NewlineAt(a);
      FirstLineApart(a, b);
      var rest := a[n + 1..];
      TokensApart(rest, b);
      assert Tokens(a) == [DropCR(a[..n])] + Tokens(rest) by { TokensFirst(a); }
      assert Tokens(a + b) == [DropCR(a[..n])] + Tokens(rest + b) by { TokensFirst(a + b); }
      ConsAppend(DropCR(a[..n]), Tokens(rest), Tokens(b));
    }
  }

  // ------------------------------------------------- one collect

  datatype File = File(inode: int, content: string)

  datatype Position = Position(offset: nat, inode: int)

  /** The position a collect reads from: reset on another file, and when the file shrank. */
  function Start(p: Position, f: File): Position {
    var q := if f.inode != p.inode then Position(0, f.inode) else p;
    if |f.content| < q.offset then q.(offset := 0) else q
  }

  datatype Result = Result(pos: Position, lines: seq<string>, saved: bool)

  function Collect(pos: Option<Position>, f: File): Result {
    if pos.None? then Result(Position(|f.content|, f.inode), [], true)
    else
      var p := Start(pos.value, f);
      if |f.content| == p.offset then Result(p, [], false)
      else
        var tokens := Tokens(f.content[p.offset..]);
        Result(p.(offset := p.offset + Consumed(tokens)), tokens, true)
  }

  // ------------------------------------------------- devices

  /** What the regular expression extracts from a line. */
  datatype Hit = Hit(email: string, ip: string, kind: string)

  datatype Device = Device(inbound: string, conns: nat, lastSeen: int)

  type Parser = string -> Option<Hit>

  /** The line counts for this user and address. */
  predicate CountsFor(parse: Parser, line: string, key: (string, string)) {
    var h := parse(line);
    h.Some? && h.value.email != "" && h.value.email != "unknown" && (h.value.email, h.value.ip) == key
  }

  function Conns(parse: Parser, lines: seq<string>, key: (string, string)): nat {
    if lines == [] then 0
    else Conns(parse, lines[..|lines| - 1], key) + (if CountsFor(parse, lines[|lines| - 1], key) then 1 else 0)
  }

  lemma {:induction false} ConnsAppend(parse: Parser, a: seq<string>, b: seq<string>, key: (string, string))
    ensures Conns(parse, a + b, key) == Conns(parse, a, key) + Conns(parse, b, key)
  {
    if b == [] {
      assert a + b == a;
    } else {
      var n := |b| - 1;
      ConnsAppend(parse, a, b[..n], key);
      assert (a + b)[..|a + b| - 1] == a + b[..n];
    }
  }

  /** Conns is the number of lines that count for the device. */
  lemma {:induction false} ConnsAreLines(parse: Parser, lines: seq<string>, key: (string, string))
    ensures Conns(parse, lines, key) == |set i | 0 <= i < |lines| && CountsFor(parse, lines[i], key)|
  {
    var all := set i | 0 <= i < |lines| && CountsFor(parse, lines[i], key);
    if lines == [] {
      assert all == {};
    } else {
      var n := |lines| - 1;
      var init := set i | 0 <= i < n && CountsFor(parse, lines[..n][i], key);
      ConnsAreLines(parse, lines[..n], key);
      assert forall i :: 0 <= i < n ==> lines[..n][i] == lines[i];
      if CountsFor(parse, lines[n], key) {
        assert all == init + {n};
      } else {
        assert all == init;
      }
    }
  }

  /** lastSeen is the latest stamp of the device's lines (or zero), inbound the kind of its last line. */
  ghost predicate Describes(parse: Parser, stamp: string -> int, lines: seq<string>, key: (string, string), d: Device) {
    && d.conns == Conns(parse, lines, key)
    && 0 <= d.lastSeen
    && (forall i :: 0 <= i < |lines| && CountsFor(parse, lines[i], key) ==> stamp(lines[i]) <= d.lastSeen)
    && (d.lastSeen > 0 ==> exists i :: 0 <= i < |lines| && CountsFor(parse, lines[i], key) && stamp(lines[i]) == d.lastSeen)
    && (exists i :: 0 <= i < |lines| && LastFor(parse, lines, key, i) && parse(lines[i]).value.kind == d.inbound)
  }

  ghost predicate LastFor(parse: Parser, lines: seq<string>, key: (string, string), i: nat)
    requires i < |lines|
  {
    CountsFor(parse, lines[i], key) && forall j :: i < j < |lines| ==> !CountsFor(parse, lines[j], key)
  }

  type Devices = map<(string, string), Device>

  /** The map holds exactly the devices seen in the lines, each rightly described. */
  ghost predicate Aggregated(parse: Parser, stamp: string -> int, lines: seq<string>, agg: Devices) {
    forall key: (string, string) ::
      if Conns(parse, lines, key) > 0 then key in agg && Describes(parse, stamp, lines, key, agg[key]) else key !in agg
  }

  /** A line of another device changes nothing for this one. */
  lemma DescribesOther(parse: Parser, stamp: string -> int, lines: seq<string>, line: string, key: (string, string), d: Device)
    requires Describes(parse, stamp, lines, key, d) && !CountsFor(parse, line, key)
    ensures Describes(parse, stamp, lines + [line], key, d)
  {
  }

  /** A line of this device adds one connection and brings its kind and stamp. */
  lemma DescribesNext(parse: Parser, stamp: string -> int, lines: seq<string>, line: string, key: (string, string), seen: Option<Device>)
    requires CountsFor(parse, line, key)
    requires if seen.Some? then Describes(parse, stamp, lines, key, seen.value) else Conns(parse, lines, key) == 0
    ensures var before := if seen.Some? then seen.value else Device("", 0, 0);
      Describes(parse, stamp, lines + [line], key,
                Device(parse(line).value.kind, before.conns + 1,
                       if stamp(line) > before.lastSeen then stamp(line) else before.lastSeen))
  {
    var all := lines + [line];
    var n := |lines|;
    assert all[..n] == lines && all[n] == line;
    assert LastFor(parse, all, key, n);
    if seen.None? {
      forall i | 0 <= i < n ensures !CountsFor(parse, all[i], key) {
        NoneCounted(parse, lines, key, i);
      }
    } else if stamp(line) <= seen.value.lastSeen && seen.value.lastSeen > 0 {
      var k :| 0 <= k < n && CountsFor(parse, lines[k], key) && stamp(lines[k]) == seen.value.lastSeen;
      assert CountsFor(parse, all[k], key) && stamp(all[k]) == seen.value.lastSeen;
    }
    forall i | 0 <= i < n && seen.Some? && CountsFor(parse, all[i], key) ensures stamp(all[i]) <= seen.value.lastSeen {
      assert all[i] == lines[i];
    }
  }

  lemma {:induction false} NoneCounted(parse: Parser, lines: seq<string>, key: (string, string), i: nat)
    requires Conns(parse, lines, key) == 0 && i < |lines|
    ensures !CountsFor(parse, lines[i], key)
  {
    var n := |lines| - 1;
    if i < n {
      NoneCounted(parse, lines[..n], key, i);
    }
  }

  /** The effect of one scanned line on the aggregation map. */
  function AddLine(parse: Parser, stamp: string -> int, agg: Devices, line: string): Devices {
    var h := parse(line);
    if h.None? || h.value.email == "" || h.value.email == "unknown" then agg
    else
      var key := (h.value.email, h.value.ip);
      var d := if key in agg then agg[key] else Device("", 0, 0);
      agg[key := Device(h.value.kind, d.conns + 1, if stamp(line) > d.lastSeen then stamp(line) else d.lastSeen)]
  }

  lemma AggregatedStep(parse: Parser, stamp: string -> int, lines: seq<string>, line: string, agg: Devices)
    requires Aggregated(parse, stamp, lines, agg)
    ensures Aggregated(parse, stamp, lines + [line], AddLine(parse, stamp, agg, line))
  {
    var all, after := lines + [line], AddLine(parse, stamp, agg, line);
    assert all[..|lines|] == lines;
    forall key: (string, string)
      ensures if Conns(parse, all, key) > 0 then key in after && Describes(parse, stamp, all, key, after[key])
              else key !in after
    {
      assert if Conns(parse, lines, key) > 0 then key in agg && Describes(parse, stamp, lines, key, agg[key])
             else key !in agg;
      if CountsFor(parse, line, key) {
        DescribesNext(parse, stamp, lines, line, key, if key in agg then Some(agg[key]) else None);
      } else if key in agg {
        DescribesOther(parse, stamp, lines, line, key, agg[key]);
      }
    }
  }

  class AccessWatcher {
    var offset: nat
    var inode: int
    var seeded: bool
    var state: Option<Position>   // the offset file

    function Pos(): Option<Position>
      reads this
    {
      if seeded then Some(Position(offset, inode)) else None
    }

    /** newAccessWatcher: resume at the stored position, if there is one. */
    constructor (state: Option<Position>)
      ensures Pos() == state && this.state == state
    {
      this.state := state;
      seeded := state.Some?;
      offset := if state.Some? then state.value.offset else 0;
      inode := if state.Some? then state.value.inode else 0;
    }

    /** The aggregation loop over the scanned lines. */
    static method Aggregate(parse: Parser, stamp: string -> int, lines: seq<string>) returns (agg: Devices)
      ensures Aggregated(parse, stamp, lines, agg)
      ensures forall key :: key in agg ==> key.0 != "" && key.0 != "unknown"
    {
      agg := map[];
      for i := 0 to |lines|
        invariant Aggregated(parse, stamp, lines[..i], agg)
        invariant forall key :: key in agg ==> key.0 != "" && key.0 != "unknown"
      {
        var line := lines[i];
        AggregatedStep(parse, stamp, lines[..i], line, agg);
        assert lines[..i + 1] == lines[..i] + [line];
        var h := parse(line);
        if h.None? {
          continue;
        }
        if h.value.email == "" || h.value.email == "unknown" {
          continue;
        }
        var key := (h.value.email, h.value.ip);
        var d := if key in agg then agg[key] else Device("", 0, 0);
        var ts := stamp(line);
        agg := agg[key := Device(h.value.kind, d.conns + 1, if ts > d.lastSeen then ts else d.lastSeen)];
      }
      assert lines[..|lines|] == lines;
    }

    /** collect: the devices in the lines read, and the new position in memory and on disk. */
    method CollectDevices(parse: Parser, stamp: string -> int, file: Option<File>) returns (agg: Devices)
      modifies this
      ensures file.None? ==> agg == map[] && Pos() == old(Pos()) && state == old(state)
      ensures file.Some? ==>
        var r := Collect(old(Pos()), file.value);
        && Pos() == Some(r.pos)
        && state == (if r.saved then Some(r.pos) else old(state))
        && Aggregated(parse, stamp, r.lines, agg)
    {
      agg := map[];
      assert Aggregated(parse, stamp, [], agg);
      if file.None? {
        return;
      }
      var f := file.value;
      if !seeded {
        offset, inode, seeded := |f.content|, f.inode, true;
        state := Some(Position(offset, inode));
        return;
      }
      if f.inode != inode {
        offset, inode := 0, f.inode;
      }
      if |f.content| < offset {
        offset := 0;
      }
      if |f.content| == offset {
        return;
      }
      ghost var from := Position(offset, inode);
      assert from == Start(old(Pos()).value, f);
      var tokens := Tokens(f.content[offset..]);
      agg := Aggregate(parse, stamp, tokens);
      offset := offset + Consumed(tokens);
      state := Some(Position(offset, inode));
    }
  }
}
