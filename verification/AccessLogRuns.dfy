/**
 Incremental reading of the access log against reading it once: the log file
 being appended to, rotated and truncated while the tailer of
 internal/agent/devices.go collects and the agent restarts.

 The reference keeps no offset: it is the text written since the last collect,
 and the lines of that text are what the next collect has to report.
 */
module AccessLogRuns {
  import opened Wrappers
  import opened AccessLog

  datatype State = State(
    file: File,
    mem: Option<Position>, disk: Option<Position>,
    memStale: bool, diskStale: bool,   // the file was replaced or truncated after this position was taken
    unread: string,                    // reference: written since the last collect and still in the file
    expected: seq<string>,             // reference: lines to be reported so far
    batches: seq<seq<string>>)         // lines actually read, one batch per collect

  datatype Step =
    | Append(text: string)
    | Rotate(file: File)         // another file is moved into place
    | Truncate(content: string)  // the same file, rewritten from the start
    | DoCollect
    | Restart                    // the agent restarts and resumes from its offset file

  function Init(file: File): State {
    State(file, None, None, false, false, file.content, [], [])
  }

  function Apply(s: State, step: Step): State {
    match step
    case Append(text) => s.(file := s.file.(content := s.file.content + text), unread := s.unread + text)
    case Rotate(file) => s.(file := file, unread := file.content, memStale := true, diskStale := true)
    case Truncate(content) =>
      s.(file := s.file.(content := content), unread := content, memStale := true, diskStale := true)
    case DoCollect =>
      var r := Collect(s.mem, s.file);
      s.(mem := Some(r.pos), memStale := false,
         disk := if r.saved then Some(r.pos) else s.disk, diskStale := !r.saved && s.diskStale,
         unread := "",
         // the first collect ever only takes a position: the history before it is skipped
         expected := if s.mem.None? then s.expected else s.expected + Tokens(s.unread),
         batches := s.batches + [r.lines])
    case Restart => s.(mem := s.disk, memStale := s.diskStale)
  }

  /** All lines of all collects, in order. */
  function Flat(batches: seq<seq<string>>): seq<string> {
    if batches == [] then [] else Flat(batches[..|batches| - 1]) + batches[|batches| - 1]
  }

  /** The connections of one device, summed over the collects that reported it. */
  function SummedConns(parse: Parser, batches: seq<seq<string>>, key: (string, string)): nat {
    if batches == [] then 0
    else SummedConns(parse, batches[..|batches| - 1], key) + Conns(parse, batches[|batches| - 1], key)
  }

  lemma {:induction false} SummedIsFlat(parse: Parser, batches: seq<seq<string>>, key: (string, string))
    ensures SummedConns(parse, batches, key) == Conns(parse, Flat(batches), key)
  {
    if batches == [] {
    } else {
      var n := |batches| - 1;
      SummedIsFlat(parse, batches[..n], key);
      ConnsAppend(parse, Flat(batches[..n]), batches[n], key);
    }
  }

  /** A replacement of the file that collect will notice (or that cannot matter). */
  predicate Noticed(s: State) {
    s.mem.Some? && s.memStale ==>
      s.mem.value.inode != s.file.inode || |s.file.content| < s.mem.value.offset || s.mem.value.offset == 0
  }

  /** The file hypotheses, at each collect. */
  predicate Observable(s: State, step: Step) {
    step.DoCollect? ==> Clean(s.file.content) && Noticed(s)
  }

  function Exec(s: State, steps: seq<Step>): State
    decreases |steps|
  {
    if steps == [] then s else Exec(Apply(s, steps[0]), steps[1..])
  }

  predicate AllObservable(s: State, steps: seq<Step>)
    decreases |steps|
  {
    steps == [] || (Observable(s, steps[0]) && AllObservable(Apply(s, steps[0]), steps[1..]))
  }

  /** A position that splits the file into what was read and what was not. */
  ghost predicate GoodPosition(s: State, p: Position, stale: bool) {
    if stale then s.unread == s.file.content
    else
      && p.inode == s.file.inode && p.offset <= |s.file.content|
      && Terminated(s.file.content[..p.offset])
      && s.file.content[p.offset..] == s.unread
  }

  ghost predicate Inv(s: State) {
    && (s.mem.None? <==> s.disk.None?)
    && (s.mem.Some? ==> GoodPosition(s, s.mem.value, s.memStale) && GoodPosition(s, s.disk.value, s.diskStale))
  }

  lemma AppendKeeps(s: State, text: string, p: Position, stale: bool)
    requires GoodPosition(s, p, stale)
    ensures GoodPosition(Apply(s, Append(text)), p, stale)
  {
  }

  /** Reading from the start of a line ends at the end of the file, or one past it if the last line is unfinished. */
  lemma ConsumesRest(content: string, k: nat)
    requires ShortLines(content) && DroppedCRs(content) == 0 && k <= |content| && Terminated(content[..k])
    ensures k + Consumed(Tokens(content[k..])) == |content| + (if Terminated(content) then 0 else 1)
  {
    var a, b := content[..k], content[k..];
    assert content == a + b;
    SuffixPlain(a, b);
    ConsumedExact(b);
  }

  lemma SuffixPlain(a: string, b: string)
    requires Terminated(a) && ShortLines(a + b) && DroppedCRs(a + b) == 0
    ensures ShortLines(b) && DroppedCRs(b) == 0 && (Terminated(a + b) <==> Terminated(b))
  {
    ShortApart(a, b);
    CRsApart(a, b);
    if b == "" {
      assert a + b == a;
    } else {
      assert (a + b)[|a + b| - 1] == b[|b| - 1];
    }
  }

  /** A collect reads exactly the unread text and ends at the end of the file. */
  lemma CollectReads(s: State)
    requires Inv(s) && s.mem.Some? && Clean(s.file.content) && Noticed(s)
    ensures var r := Collect(s.mem, s.file);
      && r.lines == Tokens(s.unread)
      && r.pos == Position(|s.file.content|, s.file.inode)
      && (!r.saved ==> r.pos.offset == 0 || (s.mem == Some(r.pos) && !s.memStale))
  {
    var p := Start(s.mem.value, s.file);
    var content := s.file.content;
    assert p.offset <= |content| && p.inode == s.file.inode;
    assert content[p.offset..] == s.unread && Terminated(content[..p.offset]);
    ConsumesRest(content, p.offset);
    if |content| == p.offset {
      assert s.unread == "";
    }
  }

  /** The fields a collect leaves behind. */
  lemma CollectResult(s: State)
    requires Inv(s) && s.mem.Some? && Clean(s.file.content) && Noticed(s)
    ensures var t := Apply(s, DoCollect);
      var end := Position(|s.file.content|, s.file.inode);
      && t.file == s.file && t.unread == "" && t.mem == Some(end) && !t.memStale
      && ((t.disk == Some(end) && !t.diskStale) || (t.disk == s.disk && t.diskStale == s.diskStale
           && (s.file.content == "" || (s.mem == Some(end) && !s.memStale))))
      && t.expected == s.expected + Tokens(s.unread) && t.batches == s.batches + [Tokens(s.unread)]
  {
    CollectReads(s);
  }

  lemma EndPosition(s: State)
    requires s.unread == "" && Terminated(s.file.content)
    ensures GoodPosition(s, Position(|s.file.content|, s.file.inode), false)
  {
  }

  lemma CollectInv(s: State)
    requires Inv(s) && Observable(s, DoCollect)
    ensures Inv(Apply(s, DoCollect))
  {
    var t := Apply(s, DoCollect);
    EndPosition(t);
    if s.mem.Some? {
      CollectResult(s);
      if t.disk == s.disk && t.diskStale == s.diskStale && s.mem == t.mem && !s.memStale {
        assert s.unread == "";
      }
    }
  }

  lemma FlatPush(batches: seq<seq<string>>, b: seq<string>)
    ensures Flat(batches + [b]) == Flat(batches) + b
  {
  }

  lemma CollectKeeps(s: State)
    requires Inv(s) && Observable(s, DoCollect) && Flat(s.batches) == s.expected
    ensures Inv(Apply(s, DoCollect)) && Flat(Apply(s, DoCollect).batches) == Apply(s, DoCollect).expected
  {
    CollectInv(s);
    if s.mem.None? {
      FlatPush(s.batches, []);
    } else {
      CollectResult(s);
      FlatPush(s.batches, Tokens(s.unread));
    }
  }

  lemma RunStep(s: State, step: Step)
    requires Inv(s) && Observable(s, step) && Flat(s.batches) == s.expected
    ensures Inv(Apply(s, step)) && Flat(Apply(s, step).batches) == Apply(s, step).expected
  {
    match step
    case Append(text) =>
      if s.mem.Some? {
        AppendKeeps(s, text, s.mem.value, s.memStale);
        AppendKeeps(s, text, s.disk.value, s.diskStale);
      }
    case DoCollect => CollectKeeps(s);
    case _ =>
  }

  lemma {:induction false} Run(s: State, steps: seq<Step>)
    requires Inv(s) && AllObservable(s, steps) && Flat(s.batches) == s.expected
    ensures Inv(Exec(s, steps)) && Flat(Exec(s, steps).batches) == Exec(s, steps).expected
    decreases |steps|
  {
    if steps == [] {
    } else {
      RunStep(s, steps[0]);
      Run(Apply(s, steps[0]), steps[1..]);
    }
  }

  /**
   Incremental equals batch: over every run of appends, rotations, truncations,
   collects and restarts in which replacements are noticed, the lines reported are
   exactly the lines written after seeding and present at a later collect, in
   order and once each; so the connections summed over all collects are those of
   one pass over these lines, for every user and address.
   */
  lemma IncrementalIsBatch(file: File, steps: seq<Step>, parse: Parser, key: (string, string))
    requires AllObservable(Init(file), steps)
    ensures var s := Exec(Init(file), steps);
      Flat(s.batches) == s.expected && SummedConns(parse, s.batches, key) == Conns(parse, s.expected, key)
  {
    Run(Init(file), steps);
    SummedIsFlat(parse, Exec(Init(file), steps).batches, key);
  }

  /**
   The condition is exact: from a state that satisfies the invariant, a collect
   over a clean file reports the unread lines if and only if a replacement of the
   file is noticed.
   */
  lemma NoticedIsExact(s: State)
    requires Inv(s) && s.mem.Some? && Clean(s.file.content)
    ensures Collect(s.mem, s.file).lines == Tokens(s.unread) <==> Noticed(s)
  {
    if Noticed(s) {
      CollectReads(s);
    } else {
      SuffixDiffers(s.file.content, s.mem.value.offset);
    }
  }

  /** Skipping a part of a clean text never gives the lines of the whole. */
  lemma SuffixDiffers(content: string, k: nat)
    requires Clean(content) && 0 < k <= |content|
    ensures Tokens(content) != [] && Tokens(content[k..]) != Tokens(content)
  {
    ConsumedExact(content);
    var suffix := content[k..];
    assert suffix != "" ==> suffix[|suffix| - 1] == content[|content| - 1];
    ConsumedAtMost(suffix);
    assert Consumed(Tokens(suffix)) <= |suffix| < |content| == Consumed(Tokens(content));
  }

  /** Reading a newline-terminated text never advances past its end. */
  lemma {:induction false} ConsumedAtMost(s: string)
    requires Terminated(s)
    ensures Consumed(Tokens(s)) <= |s|
    decreases |s|
  {
    if s == "" || NewlineAt(s) >= MAX_TOKEN {
    } else {
      var n := NewlineAt(s);
      FirstLineApart(s, "");
      ConsumedAtMost(s[n + 1..]);
      TokensFirst(s);
      ConsumedFirst(DropCR(s[..n]), Tokens(s[n + 1..]));
    }
  }

  /** From its start, or from the file's start if the file was replaced, a collect reads on at a line boundary. */
  lemma StartsAtLine(s: State)
    requires Inv(s) && s.mem.Some? && Noticed(s)
    ensures var p := Start(s.mem.value, s.file);
      && p.inode == s.file.inode && p.offset <= |s.file.content|
      && s.file.content[p.offset..] == s.unread && Terminated(s.file.content[..p.offset])
  {
  }

  /**
   An unfinished last line, exactly: of two collects with nothing written in
   between, the second reports nothing if and only if the log ends in a newline.
   Otherwise the first ends one past the end of the file, which the second takes
   for a truncation, and the whole log is reported again.
   */
  lemma UnfinishedLineRereads(s: State)
    requires Inv(s) && s.mem.Some? && Noticed(s) && ShortLines(s.file.content) && DroppedCRs(s.file.content) == 0
    ensures var content := s.file.content;
      var t := Apply(Apply(s, DoCollect), DoCollect);
      && t.batches == s.batches + [Tokens(s.unread)] + [if Terminated(content) then [] else Tokens(content)]
      && (!Terminated(content) ==> Tokens(content) != [])
  {
    var content, t := s.file.content, Apply(s, DoCollect);
    FirstCollect(s);
    if Terminated(content) {
      CollectAtEnd(t);
    } else {
      CollectPastEnd(t);
      assert NewlineAt(content) < MAX_TOKEN;
    }
  }

  lemma FirstCollect(s: State)
    requires Inv(s) && s.mem.Some? && Noticed(s) && ShortLines(s.file.content) && DroppedCRs(s.file.content) == 0
    ensures var t := Apply(s, DoCollect);
      && t.file == s.file && t.batches == s.batches + [Tokens(s.unread)]
      && t.mem == Some(Position(|s.file.content| + (if Terminated(s.file.content) then 0 else 1), s.file.inode))
  {
    var content, p := s.file.content, Start(s.mem.value, s.file);
    StartsAtLine(s);
    CollectFromStart(s, p, s.unread);
    ConsumesRest(content, p.offset);
  }

  lemma CollectFromStart(s: State, p: Position, unread: string)
    requires s.mem.Some? && p == Start(s.mem.value, s.file) && p.offset <= |s.file.content|
    requires s.file.content[p.offset..] == unread
    ensures var t := Apply(s, DoCollect);
      && t.file == s.file && t.batches == s.batches + [Tokens(unread)]
      && t.mem == Some(p.(offset := p.offset + Consumed(Tokens(unread))))
  {
    if p.offset == |s.file.content| {
      assert unread == "" && Tokens(unread) == [];
    }
  }

  lemma CollectAtEnd(s: State)
    requires s.mem == Some(Position(|s.file.content|, s.file.inode))
    ensures Apply(s, DoCollect).batches == s.batches + [[]]
  {
  }

  lemma CollectPastEnd(s: State)
    requires s.mem.Some? && s.mem.value.inode == s.file.inode && s.mem.value.offset > |s.file.content| > 0
    ensures Apply(s, DoCollect).batches == s.batches + [Tokens(s.file.content)]
  {
  }

  /** Text appended to an unfinished line loses its first character, and the line is reported in two parts. */
  lemma UnfinishedLineSplits(s: State, text: string)
    requires Inv(s) && s.mem.Some? && Noticed(s) && ShortLines(s.file.content) && DroppedCRs(s.file.content) == 0
    requires !Terminated(s.file.content) && text != ""
    ensures var t := Apply(Apply(Apply(s, DoCollect), Append(text)), DoCollect);
      t.batches == s.batches + [Tokens(s.unread)] + [Tokens(text[1..])]
  {
    FirstCollect(s);
    AppendedPastEnd(Apply(s, DoCollect), text);
  }

  lemma AppendedPastEnd(s: State, text: string)
    requires s.mem == Some(Position(|s.file.content| + 1, s.file.inode)) && text != ""
    ensures Apply(Apply(s, Append(text)), DoCollect).batches == s.batches + [Tokens(text[1..])]
  {
    var content, t := s.file.content, Apply(s, Append(text));
    assert (content + text)[|content| + 1..] == text[1..];
    CollectFromStart(t, t.mem.value, text[1..]);
  }

  lemma ExecFirst(s: State, step: Step, rest: seq<Step>)
    ensures Exec(s, [step] + rest) == Exec(Apply(s, step), rest)
  {
  }

  lemma ExecThree(s: State, a: Step, b: Step, c: Step, rest: seq<Step>)
    ensures Exec(s, [a, b, c] + rest) == Exec(Apply(Apply(Apply(s, a), b), c), rest)
  {
    assert [a, b, c] + rest == [a] + ([b] + ([c] + rest));
    ExecFirst(s, a, [b] + ([c] + rest));
    ExecFirst(Apply(s, a), b, [c] + rest);
    ExecFirst(Apply(Apply(s, a), b), c, rest);
  }

  /** A collect that finds the file truncated to nothing, then a restart: the old offset is back. */
  lemma OldOffsetReturns(f: File)
    requires f.content != ""
    ensures var p := Some(Position(|f.content|, f.inode));
      Apply(Apply(Apply(Apply(Init(f), DoCollect), Truncate("")), DoCollect), Restart) ==
        State(f.(content := ""), p, p, true, true, "", [], [[], []])
  {
  }

  lemma ReadFromTheMiddle(s: State, x: string, y: string)
    requires s.mem == Some(Position(|x|, s.file.inode)) && s.file.content == "" && s.unread == ""
    requires y != "" && Terminated(x) && ShortLines(x)
    ensures var t := Apply(Apply(s, Append(x + y)), DoCollect);
      t.expected == s.expected + (Tokens(x) + Tokens(y)) && t.batches == s.batches + [Tokens(y)]
  {
    var u := Apply(s, Append(x + y));
    assert "" + (x + y) == x + y && (x + y)[|x|..] == y;
    assert u.file.content == x + y && u.unread == x + y;
    CollectFrom(u, Position(|x|, s.file.inode));
    TokensApart(x, y);
  }

  lemma CollectFrom(s: State, p: Position)
    requires s.mem == Some(p) && p.inode == s.file.inode && p.offset < |s.file.content|
    ensures Apply(s, DoCollect).expected == s.expected + Tokens(s.unread)
    ensures Apply(s, DoCollect).batches == s.batches + [Tokens(s.file.content[p.offset..])]
  {
  }

  /**
   A truncation that no collect lets regrow is still not enough: a collect that
   finds the file empty resets the offset in memory only, so after a restart the
   old offset is back. A file that then regrows beyond it loses every line before
   the old offset (here the lines of x, which is as long as the old file).
   */
  lemma RestartAfterEmptyCollectLosesLines(f: File, x: string, y: string)
    requires x != "" && y != "" && |x| == |f.content| && Terminated(x) && ShortLines(x)
    ensures var s := Exec(Init(f), [DoCollect, Truncate(""), DoCollect, Restart, Append(x + y), DoCollect]);
      && s.expected == Tokens(x) + Tokens(y)
      && s.batches == [[], [], Tokens(y)]
      && Tokens(x) != []
  {
    var s := Init(f);
    var t := Apply(Apply(Apply(s, DoCollect), Truncate("")), DoCollect);
    var rest := [Restart, Append(x + y), DoCollect];
    assert [DoCollect, Truncate(""), DoCollect, Restart, Append(x + y), DoCollect] ==
      [DoCollect, Truncate(""), DoCollect] + rest;
    ExecThree(s, DoCollect, Truncate(""), DoCollect, rest);
    assert rest == rest + [];
    ExecThree(t, Restart, Append(x + y), DoCollect, []);
    OldOffsetReturns(f);
    ReadFromTheMiddle(Apply(t, Restart), x, y);
  }
}
