/**
 Incremental reading of the log for the dashboard (ReadLog in Daemon.cpp): the client passes the
 offset of the last reply and gets the entries that were completed since.
 */
module LogReader {
  import opened LogChain
  import opened Bytes

  const FIRST_TAIL: nat := 262144
  const MAX_READ: nat := 1048576

  datatype Reply = Reply(offset: nat, reset: bool, entries: seq<string>)

  /** The lines that parse to JSON objects, without a trailing carriage return. */
  ghost function Objects(env: Env, lines: seq<string>): seq<string> {
    if lines == [] then [] else Object(env, lines[0]) + Objects(env, lines[1..])
  }

  function Object(env: Env, line: string): seq<string> {
    if env.parse(Trim(line)).NotObject? then [] else [Trim(line)]
  }

  function Start(size: nat, offset: int): (s: nat)
    ensures s <= size
  {
    if offset < 0 then if size > FIRST_TAIL then size - FIRST_TAIL else 0
    else if offset > size then 0
    else offset
  }

  function Chunk(content: string, start: nat): string
    requires start <= |content|
  {
    if |content| - start > MAX_READ then content[start..start + MAX_READ] else content[start..]
  }

  /** Just past the last newline, 0 if there is none. */
  function AfterLast(s: string): (e: nat)
    ensures e <= |s| && NoNewline(s[e..])
    ensures e > 0 ==> s[e - 1] == '\n'
  {
    if s == "" || s[|s| - 1] == '\n' then |s|
    else
      var e := AfterLast(s[..|s| - 1]);
      assert s[e..] == s[..|s| - 1][e..] + [s[|s| - 1]];
      e
  }

  lemma {:induction false} LastIsLate(s: string, i: nat)
    requires i < |s| && s[i] == '\n'
    ensures AfterLast(s) > i
  {
    if s[|s| - 1] != '\n' { LastIsLate(s[..|s| - 1], i); }
  }

  /** Where the first whole line of the buffer starts. */
  function Begin(buf: string, skip: bool): (b: nat)
    ensures b <= |buf|
  {
    var nl := NewlineFrom(buf, 0);
    if !skip then 0 else if nl == |buf| then |buf| else nl + 1
  }

  function End(buf: string, begin: nat): (e: nat)
    requires begin <= |buf|
    ensures begin <= e <= |buf|
  {
    if AfterLast(buf) <= begin then begin else AfterLast(buf)
  }

  /** The part of the file a request answers with: [begin, end), and `end` is the next offset. */
  function Window(content: string, offset: int, readable: bool): (w: (nat, nat))
    ensures w.0 <= w.1 <= |content|
  {
    var start := Start(|content|, offset);
    var buf := if readable then Chunk(content, start) else "";
    var begin := Begin(buf, offset < 0 && start > 0);
    (start + begin, start + End(buf, begin))
  }

  ghost function Entries(env: Env, bytes: string): seq<string> {
    Objects(env, Lines(bytes))
  }

  /** One request; `readable` says whether the file system delivered the bytes. */
  ghost function Read(env: Env, content: string, offset: int, readable: bool): Reply {
    var w := Window(content, offset, readable);
    Reply(w.1, offset < 0 || offset > |content|, Entries(env, content[w.0..w.1]))
  }

  /** A client that is ahead of the file, because it was rotated, starts over, and so does a first load. */
  lemma StartsOverExactly(env: Env, content: string, offset: int, readable: bool)
    ensures Read(env, content, offset, readable).reset <==> offset < 0 || offset > |content|
    ensures offset > |content| ==>
      Read(env, content, offset, readable) == Read(env, content, 0, readable).(reset := true)
    ensures offset < 0 && |content| <= FIRST_TAIL ==>
      Read(env, content, offset, readable) == Read(env, content, 0, readable).(reset := true)
  {
    hide Entries, Chunk, Begin, End;
  }

  /** One complete line more is one entry more, without a carriage return, exactly if it is an object. */
  lemma ShowsObjectsExactly(env: Env, seen: string, line: string)
    requires WholeLines(seen) && NoNewline(line)
    ensures var bare := if line != "" && line[|line| - 1] == '\r' then line[..|line| - 1] else line;
      Entries(env, seen + (line + "\n")) == Entries(env, seen) + if env.parse(bare).NotObject? then [] else [bare]
  {
    EntryStep(env, seen, line);
  }

  // ------------------------------------------------------------- the code

  lemma {:induction false} ObjectsAppend(env: Env, a: seq<string>, b: seq<string>)
    ensures Objects(env, a + b) == Objects(env, a) + Objects(env, b)
  {
    if a == [] {
      assert a + b == b;
    } else {
      assert (a + b)[1..] == a[1..] + b;
      ObjectsAppend(env, a[1..], b);
      Associative(Object(env, a[0]), Objects(env, a[1..]), Objects(env, b));
    }
  }

  lemma EntriesAppend(env: Env, a: string, b: string)
    requires WholeLines(a)
    ensures Entries(env, a + b) == Entries(env, a) + Entries(env, b)
  {
    LinesAppend(a, b);
    ObjectsAppend(env, Lines(a), Lines(b));
  }

  lemma EntriesOfLine(env: Env, line: string)
    requires NoNewline(line)
    ensures Entries(env, line + "\n") == Object(env, line)
  {
    LinesOfLine(line);
    assert Objects(env, [line]) == Object(env, line) + Objects(env, [line][1..]);
    assert Objects(env, []) == [] && Object(env, line) + [] == Object(env, line);
  }

  lemma EntryStep(env: Env, seen: string, line: string)
    requires WholeLines(seen) && NoNewline(line)
    ensures Entries(env, seen + (line + "\n")) == Entries(env, seen) + Object(env, line)
  {
    EntriesOfLine(env, line);
    EntriesAppend(env, seen, line + "\n");
  }

  method ReadLog(env: Env, file: Option<string>, offset: int, readable: bool) returns (r: Reply)
    ensures r == if file.None? then Reply(0, offset != 0, []) else Read(env, file.value, offset, readable)
  {
    hide Entries, Window;
    if file.None? { return Reply(0, offset != 0, []); }
    var reset, start, buf, begin, end := Locate(file.value, offset, readable);
    var entries := SplitEntries(env, buf, begin, end);
    r := Reply(start + end, reset, entries);
  }

  lemma SliceOfChunk(content: string, start: nat, begin: nat, end: nat)
    requires start <= |content| && begin <= end <= |Chunk(content, start)|
    ensures start + end <= |content| && Chunk(content, start)[begin..end] == content[start + begin..start + end]
  {
  }

  method Locate(content: string, offset: int, readable: bool)
    returns (reset: bool, start: nat, buf: string, begin: nat, end: nat)
    ensures reset == (offset < 0 || offset > |content|)
    ensures Window(content, offset, readable) == (start + begin, start + end)
    ensures begin <= end <= |buf| && (begin < end ==> buf[end - 1] == '\n')
    ensures buf[begin..end] == content[start + begin..start + end]
  {
    hide AfterLast, NewlineFrom, Chunk;
    reset := false;
    if offset < 0 {
      start := if |content| > FIRST_TAIL then |content| - FIRST_TAIL else 0;
      reset := true;
    } else if offset > |content| {
      start := 0;
      reset := true;
    } else {
      start := offset;
    }
    buf := if readable then Chunk(content, start) else "";
    begin := 0;
    if offset < 0 && start > 0 {
      var nl := NewlineFrom(buf, 0);
      begin := if nl == |buf| then |buf| else nl + 1;
    }
    var last := AfterLast(buf);
    end := if last <= begin then begin else last;
    if readable { SliceOfChunk(content, start, begin, end); }
  }

  method SplitEntries(env: Env, buf: string, begin: nat, end: nat) returns (entries: seq<string>)
    requires begin <= end <= |buf| && (begin < end ==> buf[end - 1] == '\n')
    ensures entries == Entries(env, buf[begin..end])
  {
    hide Entries, NewlineFrom;
    entries := [];
    var p := begin;
    NoEntries(env, buf[begin..begin]);
    while p < end
      invariant begin <= p <= end && WholeLines(buf[begin..p])
      invariant entries == Entries(env, buf[begin..p])
    {
      var nl := NewlineFrom(buf, p);
      var line := buf[p..nl];
      EntryStep(env, buf[begin..p], line);
      assert buf[begin..nl + 1] == buf[begin..p] + (line + "\n");
      line := Trim(line);
      if !env.parse(line).NotObject? { entries := entries + [line]; }
      p := nl + 1;
    }
  }

  lemma NoEntries(env: Env, bytes: string)
    requires bytes == ""
    ensures Entries(env, bytes) == []
  {
    assert Lines("") == [];
  }

  // ------------------------------------------------- one read from a boundary

  predicate AtBoundary(content: string, o: nat) {
    o <= |content| && (o == 0 || content[o - 1] == '\n')
  }

  /** There is a complete line at o, and it fits one read. */
  predicate Readable(content: string, o: nat)
    requires o <= |content|
  {
    var nl := NewlineFrom(content, o);
    nl < |content| && nl + 1 - o <= MAX_READ
  }

  /**
   From a line boundary a request answers with the bytes up to a later boundary; it advances exactly
   when the next line is readable.
   */
  lemma WindowFromBoundary(content: string, o: nat, readable: bool)
    requires AtBoundary(content, o)
    ensures var w := Window(content, o, readable);
      w.0 == o && AtBoundary(content, w.1) && (w.1 > o <==> readable && Readable(content, o))
  {
    if readable {
      var buf := Chunk(content, o);
      var end := AfterLast(buf);
      if end > 0 { assert buf[end - 1] == content[o + end - 1]; }
      LastInChunk(content, o);
    }
  }

  lemma LastInChunk(content: string, o: nat)
    requires o <= |content|
    ensures AfterLast(Chunk(content, o)) > 0 <==> Readable(content, o)
  {
    var buf := Chunk(content, o);
    var nl, end := NewlineFrom(content, o), AfterLast(buf);
    if end > 0 { assert content[o + end - 1] == '\n'; }
    if Readable(content, o) { LastIsLate(buf, nl - o); }
  }

  // -------------------------------------------------------------- whole runs

  /** What happens to the log and its reader: bytes are appended, or the client asks again. */
  datatype Op = Append(data: string) | Poll(readable: bool)

  /** The file, and the offset of the last reply. */
  datatype Session = Session(content: string, offset: nat)

  function Apply(s: Session, op: Op): Session {
    match op
    case Append(data) => s.(content := s.content + data)
    case Poll(readable) => s.(offset := Window(s.content, s.offset, readable).1)
  }

  function Exec(s: Session, ops: seq<Op>): Session {
    if ops == [] then s else Apply(Exec(s, ops[..|ops| - 1]), ops[|ops| - 1])
  }

  ghost function Answer(env: Env, s: Session, op: Op): seq<string> {
    match op
    case Append(_) => []
    case Poll(readable) => Read(env, s.content, s.offset, readable).entries
  }

  /** All entries of all replies of a run, in order. */
  ghost function Delivered(env: Env, s: Session, ops: seq<Op>): seq<string> {
    if ops == [] then []
    else Delivered(env, s, ops[..|ops| - 1]) + Answer(env, Exec(s, ops[..|ops| - 1]), ops[|ops| - 1])
  }

  lemma {:induction false} StaysOnBoundary(s: Session, ops: seq<Op>)
    requires AtBoundary(s.content, s.offset)
    ensures var t := Exec(s, ops);
      AtBoundary(t.content, t.offset) && s.offset <= t.offset && |s.content| <= |t.content| &&
      t.content[..|s.content|] == s.content
  {
    hide Window, NewlineFrom;
    if ops == [] {
      assert s.content[..|s.content|] == s.content;
    } else {
      var init := ops[..|ops| - 1];
      StaysOnBoundary(s, init);
      var t := Exec(s, init);
      match ops[|ops| - 1]
      case Append(data) => assert (t.content + data)[..|s.content|] == t.content[..|s.content|];
      case Poll(readable) => WindowFromBoundary(t.content, t.offset, readable);
    }
  }

  lemma AnswerAppends(env: Env, s: Session, from: nat, op: Op)
    requires AtBoundary(s.content, s.offset) && from <= s.offset && AtBoundary(s.content, from)
    ensures var t := Apply(s, op);
      s.offset <= t.offset <= |t.content| &&
      Entries(env, t.content[from..t.offset]) == Entries(env, s.content[from..s.offset]) + Answer(env, s, op)
  {
    hide Entries, Window;
    var t := Apply(s, op);
    var seen := s.content[from..s.offset];
    match op
    case Append(data) => assert t.content[from..t.offset] == seen;
    case Poll(readable) =>
      WindowFromBoundary(s.content, s.offset, readable);
      assert t.content[from..t.offset] == seen + s.content[s.offset..t.offset];
      if seen != "" { assert seen[|seen| - 1] == s.content[s.offset - 1]; }
      EntriesAppend(env, seen, s.content[s.offset..t.offset]);
  }

  /**
   Incremental reading is exact: whatever is appended between requests, and however often a read
   fails, the replies together hold the entries of every complete line from the first offset to the
   last, each once and in order, and every offset is a line boundary.
   */
  lemma {:induction false} IncrementalReadIsExact(env: Env, s: Session, ops: seq<Op>)
    requires AtBoundary(s.content, s.offset)
    ensures var t := Exec(s, ops);
      AtBoundary(t.content, t.offset) && s.offset <= t.offset &&
      Delivered(env, s, ops) == Entries(env, t.content[s.offset..t.offset])
  {
    StaysOnBoundary(s, ops);
    if ops == [] {
      NoEntries(env, s.content[s.offset..s.offset]);
    } else {
      var init := ops[..|ops| - 1];
      IncrementalReadIsExact(env, s, init);
      BoundaryRemains(s, init);
      AnswerAppends(env, Exec(s, init), s.offset, ops[|ops| - 1]);
    }
  }

  lemma BoundaryRemains(s: Session, ops: seq<Op>)
    requires AtBoundary(s.content, s.offset)
    ensures AtBoundary(Exec(s, ops).content, s.offset)
  {
    StaysOnBoundary(s, ops);
    var t := Exec(s, ops);
    if s.offset > 0 { assert t.content[s.offset - 1] == t.content[..|s.content|][s.offset - 1]; }
  }

  // -------------------------------------------------------------- progress

  /** Every complete line from o on fits one read together with its newline. */
  ghost predicate LinesFit(content: string, o: nat) {
    forall i :: o <= i <= |content| && AtBoundary(content, i) && NewlineFrom(content, i) < |content| ==>
      Readable(content, i)
  }

  ghost function Polls(n: nat): seq<Op> {
    if n == 0 then [] else Polls(n - 1) + [Poll(true)]
  }

  lemma OnePollMore(s: Session, n: nat)
    requires n > 0
    ensures Exec(s, Polls(n)) == Apply(Exec(s, Polls(n - 1)), Poll(true))
  {
    assert Polls(n)[..|Polls(n)| - 1] == Polls(n - 1);
  }

  /** t is s after n requests without appends: n bytes further at least, or past the last newline. */
  predicate Advanced(s: Session, t: Session, n: nat) {
    t.content == s.content && AtBoundary(s.content, t.offset) && t.offset >= s.offset &&
    (t.offset >= s.offset + n || NewlineFrom(s.content, t.offset) == |s.content|)
  }

  lemma NotAdvanced(s: Session)
    requires AtBoundary(s.content, s.offset)
    ensures Advanced(s, s, 0)
  {
  }

  lemma PollAdvances(s: Session, t: Session, n: nat)
    requires Advanced(s, t, n) && LinesFit(s.content, s.offset)
    ensures Advanced(s, Apply(t, Poll(true)), n + 1)
  {
    WindowFromBoundary(s.content, t.offset, true);
  }

  lemma {:induction false} PollsAdvance(s: Session, n: nat)
    requires AtBoundary(s.content, s.offset) && LinesFit(s.content, s.offset)
    ensures Advanced(s, Exec(s, Polls(n)), n)
  {
    hide Advanced, LinesFit, Apply, NewlineFrom;
    if n == 0 {
      NotAdvanced(s);
      assert Polls(0) == [];
    } else {
      PollsAdvance(s, n - 1);
      OnePollMore(s, n);
      PollAdvances(s, Exec(s, Polls(n - 1)), n - 1);
    }
  }

  /** The last boundary is just past the last newline. */
  lemma LastBoundary(content: string, o: nat)
    requires AtBoundary(content, o) && NewlineFrom(content, o) == |content|
    ensures o == AfterLast(content)
  {
    if o > 0 { LastIsLate(content, o - 1); }
  }

  /** If lines fit 1 MiB, asking often enough delivers every complete line of the file. */
  lemma CatchesUp(env: Env, s: Session, n: nat)
    requires AtBoundary(s.content, s.offset) && LinesFit(s.content, s.offset) && n >= |s.content| - s.offset
    ensures Exec(s, Polls(n)).offset == AfterLast(s.content) >= s.offset
    ensures Delivered(env, s, Polls(n)) == Entries(env, s.content[s.offset..AfterLast(s.content)])
  {
    PollsAdvance(s, n);
    LastBoundary(s.content, Exec(s, Polls(n)).offset);
    IncrementalReadIsExact(env, s, Polls(n));
  }

  /** Asking again gets past this offset, sooner or later, exactly if its line is complete and fits 1 MiB. */
  lemma {:induction false} AdvancesExactly(s: Session, n: nat)
    requires AtBoundary(s.content, s.offset)
    ensures !Readable(s.content, s.offset) ==> Exec(s, Polls(n)) == s
    ensures Readable(s.content, s.offset) && n > 0 ==> Exec(s, Polls(n)).offset > s.offset
  {
    if n > 0 {
      AdvancesExactly(s, n - 1);
      OnePollMore(s, n);
      StaysOnBoundary(s, Polls(n - 1));
      var t := Exec(s, Polls(n - 1));
      WindowFromBoundary(t.content, t.offset, true);
      if n == 1 { assert Polls(0) == []; }
    }
  }

  // ------------------------------------------------------------ the first load

  function TailOf(content: string): string {
    content[Start(|content|, -1)..]
  }

  /** The first load ends on a line boundary exactly if the file is short or its last 256 KiB hold a newline. */
  lemma FirstLoadExactly(content: string)
    ensures AtBoundary(content, Window(content, -1, true).1) <==>
            |content| <= FIRST_TAIL || AfterLast(TailOf(content)) > 0
  {
    var start := Start(|content|, -1);
    var buf := TailOf(content);
    assert buf == Chunk(content, start);
    var nl, last := NewlineFrom(buf, 0), AfterLast(buf);
    if last > 0 {
      assert buf[last - 1] == content[start + last - 1];
      assert nl < |buf| && buf[nl] == content[start + nl];
    } else if |content| > FIRST_TAIL {
      assert buf[last..][FIRST_TAIL - 1] == content[|content| - 1];
    }
  }

  /**
   A whole session from a first load on: each complete line from the first one shown is delivered
   once and in order.
   */
  lemma SessionIsExact(env: Env, content: string, ops: seq<Op>)
    requires |content| <= FIRST_TAIL || AfterLast(TailOf(content)) > 0
    ensures var w := Window(content, -1, true);
      var s := Session(content, w.1);
      var t := Exec(s, ops);
      w.1 <= t.offset <= |t.content| && AtBoundary(t.content, t.offset) &&
      Read(env, content, -1, true).entries + Delivered(env, s, ops) == Entries(env, t.content[w.0..t.offset])
  {
    var w := Window(content, -1, true);
    var s := Session(content, w.1);
    var t := Exec(s, ops);
    FirstLoadExactly(content);
    IncrementalReadIsExact(env, s, ops);
    StaysOnBoundary(s, ops);
    EntriesJoin(env, content, t.content, w.0, w.1, t.offset);
  }

  /** Entries of a window of the file as it was, and of what follows it in the file as it is. */
  lemma EntriesJoin(env: Env, before: string, now: string, a: nat, b: nat, c: nat)
    requires a <= b <= |before| && b <= c <= |now| && AtBoundary(before, b)
    requires |before| <= |now| && now[..|before|] == before
    ensures Entries(env, before[a..b]) + Entries(env, now[b..c]) == Entries(env, now[a..c])
  {
    hide Entries;
    var shown := before[a..b];
    if shown != "" { assert shown[|shown| - 1] == before[b - 1]; }
    EntriesAppend(env, shown, now[b..c]);
    assert shown == now[..|before|][a..b] == now[a..b];
    assert now[a..c] == now[a..b] + now[b..c];
  }
}
