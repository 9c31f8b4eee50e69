/**
 What is in the log: from the bytes on disk the entries come back (LogChain.cpp, ChainLine;
 JsonLinesLogger.cpp), each without its closing brace, then the link, then the brace.
 */
module LogEntries {
  import opened Bytes
  import opened LogChain
  import opened LogFiles

  /** The line is this entry with a link of 64 characters put in before its last character. */
  predicate Carries(line: string, entry: string) {
    |entry| >= 1 && |line| == |entry| + 79 &&
    line[..|entry| - 1] == entry[..|entry| - 1] &&
    line[|entry| - 1..|entry| + 13] == ",\"prev_hash\":\"" && line[|entry| + 77..] == "\"}"
  }

  /** The 64 characters of the link. */
  function LinkOf(line: string): string {
    if |line| < 66 then "" else line[|line| - 66..|line| - 2]
  }

  ghost predicate IsObject(entry: string) {
    |entry| >= 2 && entry[|entry| - 1] == '}'
  }

  lemma ChainedCarries(entry: string, link: string)
    requires IsObject(entry) && |link| == 64
    ensures Carries(ChainLine(entry, link), entry) && LinkOf(ChainLine(entry, link)) == link
  {
    var key := ",\"prev_hash\":\"";
    assert |key| == 14 && |"\"}"| == 2;
    var front, line := entry[..|entry| - 1], ChainLine(entry, link);
    assert line == front + key + link + "\"}";
    assert line[..|entry| - 1] == front;
    assert line[|entry| - 1..|entry| + 13] == key;
    assert line[|entry| + 13..|entry| + 77] == link;
    assert line[|entry| + 77..] == "\"}";
  }

  /** A line carries one entry only: equal lines mean equal entries and equal links. */
  lemma LineDeterminesEntry(line: string, a: string, b: string)
    requires Carries(line, a) && Carries(line, b) && IsObject(a) && IsObject(b)
    ensures a == b
  {
    assert a == a[..|a| - 1] + "}" && b == b[..|b| - 1] + "}";
  }

  lemma EqualLinesMeanEqualEntries(a: string, b: string, p: string, q: string)
    requires IsObject(a) && IsObject(b) && |p| == 64 && |q| == 64 && ChainLine(a, p) == ChainLine(b, q)
    ensures a == b && p == q
  {
    ChainedCarries(a, p);
    ChainedCarries(b, q);
    LineDeterminesEntry(ChainLine(a, p), a, b);
  }

  // ------------------------------------------------------------ whole runs

  /** What was to be logged, oldest first. */
  ghost function Logged(ops: seq<Op>): seq<string> {
    if ops == [] then []
    else
      var op := ops[|ops| - 1];
      Logged(ops[..|ops| - 1]) + if op.Entry? then [op.line] else []
  }

  /**
   The lines on disk are the last of all there ever were, in order and with none missing: those from
   before chaining as they were, and the entries each with the link to the line before it.
   */
  ghost predicate Holds(env: Env, held: seq<string>, plain: seq<string>, logged: seq<string>) {
    |held| <= |plain| + |logged| &&
    forall i :: 0 <= i < |held| ==> HoldsAt(env, held, plain, logged, i)
  }

  ghost predicate HoldsAt(env: Env, held: seq<string>, plain: seq<string>, logged: seq<string>, i: nat)
    requires i < |held| <= |plain| + |logged|
  {
    var j := |plain| + |logged| - |held| + i;
    if j < |plain| then held[i] == plain[j]
    else Carries(held[i], logged[j - |plain|]) && (i > 0 ==> LinkOf(held[i]) == env.hash(held[i - 1]))
  }

  /** Whole lines cut off the front, and one entry more at the end. */
  lemma HoldsMore(env: Env, cut: seq<string>, kept: seq<string>, plain: seq<string>, logged: seq<string>,
                  entry: string, line: string)
    requires Holds(env, cut + kept, plain, logged) && Carries(line, entry)
    requires LinkOf(line) == HeadOf(env, cut + kept)
    ensures Holds(env, kept + [line], plain, logged + [entry])
  {
    var before, held, more := cut + kept, kept + [line], logged + [entry];
    forall i | 0 <= i < |held| ensures HoldsAt(env, held, plain, more, i) {
      if i < |kept| {
        assert HoldsAt(env, before, plain, logged, |cut| + i);
        assert before[|cut| + i] == held[i] && (i > 0 ==> before[|cut| + i - 1] == held[i - 1]);
      } else if i > 0 {
        assert before[|before| - 1] == kept[|kept| - 1];
      }
    }
  }

  lemma WriteHolds(env: Env, max: nat, k: int, log: Log, plain: seq<string>, logged: seq<string>, entry: string)
    requires Faithful(env) && Inv(env, k, log) && Consistent(log) && Loggable(env, entry)
    requires Holds(env, Lines(History(log.files, Room(k))), plain, logged)
    ensures var held := Lines(History(Write(env, max, k, log, entry).files, Room(k)));
      held != [] && Holds(env, held, plain, logged + [entry])
  {
    hide Inv, Faithful, Loggable, Holds, Carries, Lines, History;
    var cut, kept, line := WriteParts(env, max, k, log, entry);
    HoldsMore(env, cut, kept, plain, logged, entry, line);
  }

  /** A write as it looks in lines: some go from the front, and one that carries the entry is added. */
  lemma WriteParts(env: Env, max: nat, k: int, log: Log, entry: string)
    returns (cut: seq<string>, kept: seq<string>, line: string)
    requires Faithful(env) && Inv(env, k, log) && Consistent(log) && Loggable(env, entry)
    ensures Lines(History(log.files, Room(k))) == cut + kept
    ensures Lines(History(Write(env, max, k, log, entry).files, Room(k))) == kept + [line]
    ensures Carries(line, entry) && LinkOf(line) == HeadOf(env, cut + kept)
  {
    var after := Write(env, max, k, log, entry);
    var before, now := History(log.files, Room(k)), History(after.files, Room(k));
    OpenKeepsInv(env, k, log);
    WriteKeepsHistory(env, max, k, log, entry);
    var head := EnsureOpen(env, log).logger.head;
    line := ChainLine(entry, head);
    var dropped := Dropped(env, max, k, log, entry);
    var rest :| before == dropped + rest && now == rest + (line + "\n");
    HeadIsHash(env, Lines(before));
    ChainedLine(env, entry, head);
    ChainedCarries(entry, head);
    HistoryIsWhole(log.files, k, Room(k));
    SplitLines(dropped, rest, line);
    cut, kept := Lines(dropped), Lines(rest);
  }

  lemma SplitLines(dropped: string, rest: string, line: string)
    requires WholeLines(dropped) && WholeLines(dropped + rest) && NoNewline(line)
    ensures Lines(dropped + rest) == Lines(dropped) + Lines(rest)
    ensures Lines(rest + (line + "\n")) == Lines(rest) + [line]
  {
    KeptIsWhole(dropped, rest);
    LinesAppend(dropped, rest);
    LinesAppend(rest, line + "\n");
    LinesOfLine(line);
  }

  lemma StartHolds(env: Env, k: int, start: map<nat, string>)
    requires GoodStart(env, start)
    ensures var plain := Lines(Content(start, 0)); Holds(env, Lines(History(start, Room(k))), plain, [])
  {
    HistoryOfOne(start, Room(k));
  }

  /**
   From the bytes on disk the entries come back: after every run the lines held are the last of those
   from before chaining and of the entries that were to be logged, in order, with none missing in between
   and none changed but for its link; the last entry is always there.
   */
  lemma {:induction false} EntriesComeBack(env: Env, max: nat, k: int, start: map<nat, string>, ops: seq<Op>)
    requires Faithful(env) && GoodStart(env, start) && AllLoggable(env, ops)
    ensures var held := Lines(History(Exec(env, max, k, start, ops).log.files, Room(k)));
      Holds(env, held, Lines(Content(start, 0)), Logged(ops)) && (Logged(ops) != [] ==> held != [])
  {
    hide Faithful, Loggable, Holds, Lines, History, Write;
    if ops == [] {
      StartHolds(env, k, start);
    } else {
      var init, op := ops[..|ops| - 1], ops[|ops| - 1];
      EntriesComeBack(env, max, k, start, init);
      RunKeepsInv(env, max, k, start, init);
      if op.Entry? {
        WriteHolds(env, max, k, Exec(env, max, k, start, init).log, Lines(Content(start, 0)), Logged(init), op.line);
      } else {
        assert Logged(init) + [] == Logged(init);
      }
    }
  }

  // ---------------------------------------------------------- no early rotation

  function FirstLine(content: string): string {
    content[..NewlineFrom(content, 0)]
  }

  /** No old file could have taken the first line of the next file too. */
  ghost predicate FullFiles(files: map<nat, string>, max: nat) {
    forall i: nat :: i in files && i > 0 ==> |files[i]| + |FirstLine(Content(files, i - 1))| + 1 > max
  }

  lemma FirstLineStays(content: string, data: string)
    requires WholeLines(content) && content != ""
    ensures FirstLine(content + data) == FirstLine(content)
  {
    var l, rest := SplitFirst(content);
    FirstNewline(l, rest);
    FirstNewline(l, rest + data);
    Associative(l + "\n", rest, data);
    assert content[..|l|] == l && (l + "\n" + (rest + data))[..|l|] == l;
  }

  lemma FirstLineOfOne(line: string)
    requires NoNewline(line)
    ensures FirstLine(line + "\n") == line
  {
    FirstNewline(line, "");
    assert line + "\n" + "" == line + "\n" && (line + "\n")[..|line|] == line;
  }

  lemma RotationKeepsFull(files: map<nat, string>, k: int, max: nat, line: string)
    requires FullFiles(files, max) && Shape(files, k) && 0 in files && NoNewline(line)
    requires |files[0]| + |line| + 1 > max
    ensures FullFiles(Rotated(files, k)[0 := line + "\n"], max)
  {
    var r := Rotated(files, k)[0 := line + "\n"];
    forall i: nat | i in r && i > 0 ensures |r[i]| + |FirstLine(Content(r, i - 1))| + 1 > max {
      if k > 0 {
        RotatedAt(files, k, i);
        FirstLineOfOne(line);
        if i > 1 { RotatedAt(files, k, i - 1); }
      }
    }
  }

  lemma AppendKeepsFull(files: map<nat, string>, k: int, max: nat, data: string)
    requires FullFiles(files, max) && Shape(files, k) && 0 in files
    ensures FullFiles(files[0 := files[0] + data], max)
  {
    var r := files[0 := files[0] + data];
    forall i: nat | i in r && i > 0 ensures |r[i]| + |FirstLine(Content(r, i - 1))| + 1 > max {
      assert i in files && i - 1 in files && files[i - 1] != "";
      if i == 1 { FirstLineStays(files[0], data); }
    }
  }

  lemma OpenKeepsFull(env: Env, k: int, log: Log, max: nat)
    requires FullFiles(log.files, max) && Consistent(log) && Shape(log.files, k)
    ensures FullFiles(EnsureOpen(env, log).files, max)
  {
    hide FirstLine, Resumed, LastHash, Shape;
    var r := EnsureOpen(env, log).files;
    forall i: nat | i in r && i > 0 ensures |r[i]| + |FirstLine(Content(r, i - 1))| + 1 > max {
      assert i in log.files && Content(r, i - 1) == Content(log.files, i - 1);
    }
  }

  lemma WriteKeepsFull(env: Env, max: nat, k: int, log: Log, entry: string)
    requires Faithful(env) && Inv(env, k, log) && Consistent(log) && Loggable(env, entry)
    requires FullFiles(log.files, max)
    ensures FullFiles(Write(env, max, k, log, entry).files, max)
  {
    hide FullFiles, Faithful, Loggable, Sound;
    OpenKeepsInv(env, k, log);
    OpenKeepsFull(env, k, log, max);
    var l0 := EnsureOpen(env, log);
    var line := ChainLine(entry, l0.logger.head);
    HeadIsHash(env, Lines(History(log.files, Room(k))));
    ChainedLine(env, entry, l0.logger.head);
    if MustRotate(env, max, log, entry) {
      RotationKeepsFull(l0.files, k, max, line);
      NoCurrentAfterRotation(l0.files, k);
      assert "" + (line + "\n") == line + "\n";
      assert Write(env, max, k, log, entry).files == Rotated(l0.files, k)[0 := line + "\n"];
    } else {
      AppendKeepsFull(l0.files, k, max, line + "\n");
    }
  }

  /** The log rotates only when it must: no old file had room for the line that came after it. */
  lemma {:induction false} RotatesOnlyWhenFull(env: Env, max: nat, k: int, start: map<nat, string>, ops: seq<Op>)
    requires Faithful(env) && GoodStart(env, start) && AllLoggable(env, ops)
    ensures FullFiles(Exec(env, max, k, start, ops).log.files, max)
  {
    hide Faithful, Loggable, Write, Inv;
    if ops != [] {
      var init, op := ops[..|ops| - 1], ops[|ops| - 1];
      RotatesOnlyWhenFull(env, max, k, start, init);
      RunKeepsInv(env, max, k, start, init);
      if op.Entry? { WriteKeepsFull(env, max, k, Exec(env, max, k, start, init).log, op.line); }
    }
  }
}
