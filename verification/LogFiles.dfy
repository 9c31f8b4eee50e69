/**
 The rotating log writer (JsonLinesLogger.cpp) and the verify-log walk over its files (main.cpp).
 File 0 is the current log, file i is <log>.i. Writes, moves and deletes succeed, and the program
 does not stop in the middle of a WriteLine.
 */
module LogFiles {
  import opened Bytes
  import opened LogChain

  /** `head` is the hash the next line links to; empty until the file has been looked at. */
  datatype Logger = Logger(open: bool, size: nat, head: string)
  datatype Log = Log(files: map<nat, string>, logger: Logger)

  const STARTING := Logger(false, 0, "")

  function Content(files: map<nat, string>, i: nat): string {
    if i in files then files[i] else ""
  }

  /** Moves file i up one place, replacing the target; nothing happens if there is no such file. */
  function Moved(files: map<nat, string>, i: nat): map<nat, string> {
    if i in files then (files - {i})[i + 1 := files[i]] else files
  }

  /** Moves files i, i - 1, ..., 1 and 0 up one place each. */
  function ShiftUp(files: map<nat, string>, i: nat): map<nat, string>
    decreases i
  {
    if i == 0 then Moved(files, 0) else ShiftUp(Moved(files, i), i - 1)
  }

  function Rotated(files: map<nat, string>, k: int): map<nat, string> {
    if k <= 0 then files - {0} else ShiftUp(files - {k}, k - 1)
  }

  predicate Consistent(log: Log) {
    log.logger.open ==> 0 in log.files
  }

  /** The chain head that the current file leaves behind. */
  ghost function Resumed(env: Env, content: string): string {
    var found := LastHash(env, content);
    if found == "" then GENESIS else found
  }

  ghost function EnsureOpen(env: Env, log: Log): (r: Log)
    requires Consistent(log)
    ensures r.logger.open && 0 in r.files
  {
    if log.logger.open then log
    else
      var head := if log.logger.head != "" then log.logger.head else Resumed(env, Content(log.files, 0));
      Log(log.files[0 := Content(log.files, 0)], Logger(true, |Content(log.files, 0)|, head))
  }

  ghost predicate MustRotate(env: Env, max: nat, log: Log, line: string)
    requires Consistent(log)
  {
    var l := EnsureOpen(env, log).logger;
    l.size > 0 && l.size + |ChainLine(line, l.head)| + 1 > max
  }

  ghost function Write(env: Env, max: nat, k: int, log: Log, line: string): (r: Log)
    requires Consistent(log)
    ensures Consistent(r)
  {
    var l0 := EnsureOpen(env, log);
    var chained := ChainLine(line, l0.logger.head);
    var l1 := if MustRotate(env, max, log, line)
              then EnsureOpen(env, Log(Rotated(l0.files, k), l0.logger.(open := false, size := 0)))
              else l0;
    Log(l1.files[0 := l1.files[0] + (chained + "\n")],
        Logger(true, l1.logger.size + |chained| + 1, env.hash(chained)))
  }

  function Restart(log: Log): Log { log.(logger := STARTING) }

  /** Shifting files 0 to i with i + 1 free: each moves up one place and the others stay. */
  lemma {:induction false} ShiftUpAt(files: map<nat, string>, i: nat, j: nat)
    requires i + 1 !in files
    ensures var r := ShiftUp(files, i);
      if j == 0 then j !in r
      else if j <= i + 1 then (j in r <==> j - 1 in files) && Content(r, j) == Content(files, j - 1)
      else (j in r <==> j in files) && Content(r, j) == Content(files, j)
    decreases i
  {
    if i > 0 { ShiftUpAt(Moved(files, i), i - 1, j); }
  }

  /** A rotation with room for k old files: .k is gone and every other file up to .k has moved up one place. */
  lemma RotatedAt(files: map<nat, string>, k: int, j: nat)
    requires k > 0
    ensures var r := Rotated(files, k);
      if j == 0 then j !in r
      else if j <= k then (j in r <==> j - 1 in files) && Content(r, j) == Content(files, j - 1)
      else (j in r <==> j in files) && Content(r, j) == Content(files, j)
  {
    ShiftUpAt(files - {k}, k - 1, j);
  }

  // -------------------------------------------------- what the files hold

  function Room(k: int): nat { if k <= 0 then 0 else k }

  /** The bytes of files n, ..., 1 and 0, oldest first. */
  ghost function History(files: map<nat, string>, n: nat): string {
    if n == 0 then Content(files, 0) else Content(files, n) + History(files, n - 1)
  }

  lemma {:induction false} HistoryAppend(files: map<nat, string>, n: nat, data: string)
    ensures History(files[0 := Content(files, 0) + data], n) == History(files, n) + data
  {
    if n > 0 {
      HistoryAppend(files, n - 1, data);
      assert Content(files, n) + (History(files, n - 1) + data) == Content(files, n) + History(files, n - 1) + data;
    }
  }

  lemma {:induction false} HistoryShift(files: map<nat, string>, k: int, n: nat)
    requires 1 <= n <= k
    ensures History(Rotated(files, k), n) == History(files, n - 1)
  {
    RotatedAt(files, k, n);
    RotatedAt(files, k, 0);
    if n == 1 {
      assert Content(files, 0) + "" == Content(files, 0);
    } else {
      HistoryShift(files, k, n - 1);
    }
  }

  /** Opening the current log does not change what the files hold. */
  lemma {:induction false} HistoryOfOpened(files: map<nat, string>, n: nat)
    ensures History(files[0 := Content(files, 0)], n) == History(files, n)
  {
    if n > 0 { HistoryOfOpened(files, n - 1); }
  }

  /** The file that this write pushes out: .k, or the current one if no old files are kept. */
  ghost function Dropped(env: Env, max: nat, k: int, log: Log, line: string): string
    requires Consistent(log)
  {
    if MustRotate(env, max, log, line) then Content(log.files, Room(k)) else ""
  }

  lemma RotationDropsOldest(files: map<nat, string>, k: int)
    ensures History(files, Room(k)) == Content(files, Room(k)) + History(Rotated(files, k), Room(k))
  {
    if k <= 0 {
      assert History(Rotated(files, k), 0) == "";
      assert History(files, 0) + "" == History(files, 0);
    } else {
      HistoryShift(files, k, k);
    }
  }

  /** One write: only the oldest whole file goes, everything else stays in order, and the line is added at the end. */
  lemma WriteKeepsHistory(env: Env, max: nat, k: int, log: Log, line: string)
    requires Consistent(log)
    ensures var chained := ChainLine(line, EnsureOpen(env, log).logger.head);
      exists kept ::
        History(log.files, Room(k)) == Dropped(env, max, k, log, line) + kept &&
        History(Write(env, max, k, log, line).files, Room(k)) == kept + (chained + "\n")
  {
    var n := Room(k);
    var l0 := EnsureOpen(env, log);
    var data := ChainLine(line, l0.logger.head) + "\n";
    HistoryOfOpened(log.files, n);
    assert Content(l0.files, n) == Content(log.files, n);
    if MustRotate(env, max, log, line) {
      RotationDropsOldest(l0.files, k);
      var r := Rotated(l0.files, k);
      HistoryOfOpened(r, n);
      var reopened := r[0 := Content(r, 0)];
      HistoryAppend(reopened, n, data);
      assert Write(env, max, k, log, line).files == reopened[0 := Content(reopened, 0) + data];
      assert History(Write(env, max, k, log, line).files, n) == History(r, n) + data;
    } else {
      HistoryAppend(l0.files, n, data);
      assert Write(env, max, k, log, line).files == l0.files[0 := Content(l0.files, 0) + data];
      assert History(log.files, n) == "" + History(log.files, n);
    }
  }

  // ------------------------------------------------ an unbroken chain, always

  const LINK_OVERHEAD := 79

  /** Lines as the program writes them: one line of text, and short enough to be read back. */
  predicate GoodLine(l: string) {
    l != "" && l[|l| - 1] != '\r' && |l| < TAIL
  }

  ghost predicate GoodLines(lines: seq<string>) {
    forall i :: 0 <= i < |lines| ==> GoodLine(lines[i])
  }

  /** The files are 0 to some n without a gap, at most k old ones, each of whole lines and no old one empty. */
  ghost predicate Shape(files: map<nat, string>, k: int) {
    forall i: nat :: i in files ==>
      i <= Room(k) && WholeLines(files[i]) && (i > 0 ==> i - 1 in files && files[i] != "" && files[i - 1] != "")
  }

  ghost function HeadOf(env: Env, lines: seq<string>): string {
    if lines == [] then GENESIS else env.hash(lines[|lines| - 1])
  }

  ghost predicate GoodChain(env: Env, lines: seq<string>, e: string) {
    GoodLines(lines) && WellChained(env, lines, e)
  }

  ghost predicate Sound(env: Env, lines: seq<string>) {
    GoodChain(env, lines, "")
  }

  ghost predicate Inv(env: Env, k: int, log: Log) {
    var lines := Lines(History(log.files, Room(k)));
    Shape(log.files, k) && Sound(env, lines) &&
    if log.logger.open then
      0 in log.files && log.logger.size == |log.files[0]| && log.logger.head == HeadOf(env, lines)
    else
      log.logger.head == ""
  }

  lemma {:induction false} HistoryIsWhole(files: map<nat, string>, k: int, n: nat)
    requires Shape(files, k)
    ensures WholeLines(History(files, n))
  {
    if n > 0 { HistoryIsWhole(files, k, n - 1); }
  }

  lemma HistoryLines(files: map<nat, string>, k: int, n: nat)
    requires Shape(files, k) && n > 0
    ensures Lines(History(files, n)) == Lines(Content(files, n)) + Lines(History(files, n - 1))
  {
    LinesAppend(Content(files, n), History(files, n - 1));
  }

  /** If the current file is empty, nothing has been logged at all. */
  lemma {:induction false} EmptyCurrent(files: map<nat, string>, k: int, n: nat)
    requires Shape(files, k) && Content(files, 0) == ""
    ensures History(files, n) == ""
  {
    if n > 0 {
      EmptyCurrent(files, k, n - 1);
      NoOldFiles(files, k, n);
    }
  }

  lemma {:induction false} NoOldFiles(files: map<nat, string>, k: int, n: nat)
    requires Shape(files, k) && Content(files, 0) == "" && n > 0
    ensures n !in files
  {
    if n > 1 { NoOldFiles(files, k, n - 1); }
  }

  function Last(lines: seq<string>): string
    requires lines != []
  {
    lines[|lines| - 1]
  }

  lemma LastOfAppend(a: seq<string>, b: seq<string>)
    requires b != []
    ensures a + b != [] && Last(a + b) == Last(b)
  {
  }

  /** What is on disk is whole lines followed by the current file. */
  lemma {:induction false} OlderFiles(files: map<nat, string>, k: int, n: nat) returns (older: string)
    requires Shape(files, k)
    ensures WholeLines(older) && History(files, n) == older + Content(files, 0)
  {
    if n == 0 {
      older := "";
      assert older + Content(files, 0) == Content(files, 0);
    } else {
      var rest := OlderFiles(files, k, n - 1);
      older := Content(files, n) + rest;
      Associative(Content(files, n), rest, Content(files, 0));
    }
  }

  lemma LastOfHistory(files: map<nat, string>, k: int, n: nat)
    requires Shape(files, k) && Lines(Content(files, 0)) != []
    ensures var lines := Lines(History(files, n)); lines != [] && Last(lines) == Last(Lines(Content(files, 0)))
  {
    var older := OlderFiles(files, k, n);
    LinesAppend(older, Content(files, 0));
    LastOfAppend(Lines(older), Lines(Content(files, 0)));
  }

  lemma HasLine(c: string)
    requires WholeLines(c) && c != ""
    ensures Lines(c) != []
  {
    var pre, line := LastLineOf(c);
  }

  /** The last line of a file of good lines is what LastLineHash hashes. */
  lemma ReadBack(env: Env, c: string)
    requires WholeLines(c) && c != "" && Lines(c) != [] && GoodLine(Last(Lines(c)))
    ensures LastHash(env, c) == env.hash(Last(Lines(c)))
  {
    var pre, line := LastLineOf(c);
    assert IsLastLine(c, pre, line);
    TailOfFile(env, c, pre, line);
  }

  /** What LastLineHash finds in the current file is the head of the chain. */
  lemma HeadReadBack(env: Env, files: map<nat, string>, k: int)
    requires Shape(files, k) && Faithful(env) && GoodLines(Lines(History(files, Room(k))))
    ensures Resumed(env, Content(files, 0)) == HeadOf(env, Lines(History(files, Room(k))))
  {
    var c := Content(files, 0);
    if c == "" {
      EmptyCurrent(files, k, Room(k));
      assert StripBreaks("") == "";
      assert Lines("") == [];
    } else {
      HasLine(c);
      LastOfHistory(files, k, Room(k));
      var lines := Lines(History(files, Room(k)));
      assert GoodLine(lines[|lines| - 1]);
      ReadBack(env, c);
      assert |env.hash(Last(lines))| == 64;
    }
  }

  lemma OpenKeepsShape(files: map<nat, string>, k: int)
    requires Shape(files, k)
    ensures Shape(files[0 := Content(files, 0)], k)
  {
    hide WholeLines;
    var opening := files[0 := Content(files, 0)];
    assert WholeLines("") by { NothingIsWhole(); }
    forall i: nat | i in opening
      ensures i <= Room(k) && WholeLines(opening[i])
      ensures i > 0 ==> i - 1 in opening && opening[i] != "" && opening[i - 1] != ""
    {
      if i > 0 { assert i in files && files[i] == opening[i] && i - 1 in files && files[i - 1] == opening[i - 1]; }
    }
  }

  lemma NothingIsWhole()
    ensures WholeLines("")
  {
  }

  lemma OpenKeepsInv(env: Env, k: int, log: Log)
    requires Faithful(env) && Inv(env, k, log) && Consistent(log)
    ensures Inv(env, k, EnsureOpen(env, log))
    ensures History(EnsureOpen(env, log).files, Room(k)) == History(log.files, Room(k))
  {
    hide Lines, History, Shape, WellChained, GoodLines, Resumed, HeadOf;
    if !log.logger.open {
      HistoryOfOpened(log.files, Room(k));
      OpenKeepsShape(log.files, k);
      HeadReadBack(env, log.files, k);
    }
  }

  /** Cutting whole lines off the front keeps a chain sound; adding the next link keeps it sound. */
  lemma SoundAfter(env: Env, cut: seq<string>, kept: seq<string>, line: string)
    requires Sound(env, cut + kept) && GoodLine(line)
    requires env.parse(line) == Linked(HeadOf(env, cut + kept))
    ensures Sound(env, kept + [line])
  {
    var lines := cut + kept;
    forall i | 0 <= i < |kept| ensures GoodLine(kept[i]) && LineOk(env, kept + [line], "", i) {
      assert kept[i] == lines[|cut| + i];
      assert LineOk(env, lines, "", |cut| + i);
      if i > 0 { assert kept[i - 1] == lines[|cut| + i - 1]; }
    }
    if kept != [] { assert lines[|lines| - 1] == kept[|kept| - 1]; }
    assert LineOk(env, kept + [line], "", |kept|);
  }

  predicate Loggable(env: Env, line: string) {
    env.entry(line) && |line| + LINK_OVERHEAD < TAIL
  }

  lemma ChainedLine(env: Env, line: string, head: string)
    requires Faithful(env) && Loggable(env, line) && |head| == 64 && IsHex(head)
    ensures var chained := ChainLine(line, head);
      GoodLine(chained) && NoNewline(chained) && env.parse(chained) == Linked(head)
  {
    var middle := ",\"prev_hash\":\"";
    var chained := ChainLine(line, head);
    assert |middle| == 14;
    assert chained == line[..|line| - 1] + middle + head + "\"}";
    forall i | 0 <= i < |chained| ensures chained[i] != '\n' {
      if i < |line| - 1 {
        assert chained[i] == line[i];
      } else if i < |line| - 1 + 14 {
        assert chained[i] == middle[i - (|line| - 1)];
      } else if i < |line| - 1 + 14 + 64 {
        assert chained[i] == head[i - (|line| - 1 + 14)];
      }
    }
  }

  lemma RotationKeepsShape(files: map<nat, string>, k: int, data: string)
    requires Shape(files, k) && 0 in files && files[0] != "" && WholeLines(data) && data != ""
    ensures var r := Rotated(files, k); 0 !in r && Shape(r[0 := data], k)
  {
    var r := Rotated(files, k);
    if k > 0 {
      RotatedAt(files, k, 0);
      forall i: nat | i in r
        ensures 0 < i <= k && WholeLines(r[i]) && r[i] != "" && (i > 1 ==> i - 1 in r && r[i - 1] != "")
      {
        RotatedAt(files, k, i);
        if i > 1 { RotatedAt(files, k, i - 1); }
      }
    }
  }

  lemma AppendKeepsShape(files: map<nat, string>, k: int, data: string)
    requires Shape(files, k) && 0 in files && WholeLines(data) && data != ""
    ensures Shape(files[0 := files[0] + data], k)
  {
    assert (files[0] + data)[|files[0] + data| - 1] == data[|data| - 1];
  }

  lemma WriteKeepsShape(env: Env, max: nat, k: int, log: Log, line: string)
    requires Shape(log.files, k) && Consistent(log) && (log.logger.open ==> log.logger.size == |log.files[0]|)
    ensures Shape(Write(env, max, k, log, line).files, k)
  {
    OpenKeepsShape(log.files, k);
    var l0 := EnsureOpen(env, log);
    var data := ChainLine(line, l0.logger.head) + "\n";
    if MustRotate(env, max, log, line) {
      RotationKeepsShape(l0.files, k, data);
      assert "" + data == data;
      assert Write(env, max, k, log, line).files == Rotated(l0.files, k)[0 := data];
    } else {
      AppendKeepsShape(l0.files, k, data);
    }
  }

  /** The chain of everything on disk before and after a write. */
  lemma ChainStep(env: Env, dropped: string, kept: string, chained: string)
    requires WholeLines(dropped) && WholeLines(dropped + kept) && Sound(env, Lines(dropped + kept))
    requires GoodLine(chained) && NoNewline(chained)
    requires env.parse(chained) == Linked(HeadOf(env, Lines(dropped + kept)))
    ensures var lines := Lines(kept + (chained + "\n"));
      Sound(env, lines) && HeadOf(env, lines) == env.hash(chained)
  {
    KeptIsWhole(dropped, kept);
    LinesAppend(dropped, kept);
    SoundAfter(env, Lines(dropped), Lines(kept), chained);
    LinesAppend(kept, chained + "\n");
    LinesOfLine(chained);
    LastOfAppend(Lines(kept), [chained]);
  }

  lemma WriteSizes(env: Env, max: nat, k: int, log: Log, line: string)
    requires Consistent(log) && (log.logger.open ==> log.logger.size == |log.files[0]|)
    ensures var after := Write(env, max, k, log, line);
      after.logger.open && 0 in after.files && after.logger.size == |after.files[0]| &&
      after.logger.head == env.hash(ChainLine(line, EnsureOpen(env, log).logger.head))
  {
  }

  lemma WriteKeepsInv(env: Env, max: nat, k: int, log: Log, line: string)
    requires Faithful(env) && Inv(env, k, log) && Consistent(log) && Loggable(env, line)
    ensures Inv(env, k, Write(env, max, k, log, line))
  {
    var after := Write(env, max, k, log, line);
    var before, now := History(log.files, Room(k)), History(after.files, Room(k));
    OpenKeepsInv(env, k, log);
    WriteKeepsShape(env, max, k, log, line);
    WriteSizes(env, max, k, log, line);
    WriteKeepsHistory(env, max, k, log, line);
    var head := EnsureOpen(env, log).logger.head;
    var dropped := Dropped(env, max, k, log, line);
    var kept :| before == dropped + kept && now == kept + (ChainLine(line, head) + "\n");
    HeadIsHash(env, Lines(before));
    ChainedLine(env, line, head);
    HistoryIsWhole(log.files, k, Room(k));
    ChainStep(env, dropped, kept, ChainLine(line, head));
  }

  lemma HeadIsHash(env: Env, lines: seq<string>)
    requires Faithful(env)
    ensures |HeadOf(env, lines)| == 64 && IsHex(HeadOf(env, lines))
  {
  }

  lemma KeptIsWhole(dropped: string, kept: string)
    requires WholeLines(dropped + kept)
    ensures WholeLines(kept)
  {
    if kept != "" { assert kept[|kept| - 1] == (dropped + kept)[|dropped + kept| - 1]; }
  }

  // ------------------------------------------------------------- whole runs

  datatype Op = Entry(line: string) | Reboot

  /** `written` is history: all bytes that were ever in the log. */
  datatype Run = Run(log: Log, written: string)

  ghost function Apply(env: Env, max: nat, k: int, run: Run, op: Op): (r: Run)
    requires Consistent(run.log)
    ensures Consistent(r.log)
  {
    match op
    case Reboot => run.(log := Restart(run.log))
    case Entry(line) =>
      var chained := ChainLine(line, EnsureOpen(env, run.log).logger.head);
      Run(Write(env, max, k, run.log, line), run.written + (chained + "\n"))
  }

  ghost function Exec(env: Env, max: nat, k: int, start: map<nat, string>, ops: seq<Op>): (r: Run)
    ensures Consistent(r.log)
  {
    if ops == [] then Run(Log(start, STARTING), History(start, Room(k)))
    else Apply(env, max, k, Exec(env, max, k, start, ops[..|ops| - 1]), ops[|ops| - 1])
  }

  ghost predicate AllLoggable(env: Env, ops: seq<Op>) {
    forall i :: 0 <= i < |ops| && ops[i].Entry? ==> Loggable(env, ops[i].line)
  }

  /** No log yet, or a log from before chaining. */
  ghost predicate GoodStart(env: Env, files: map<nat, string>) {
    files == map[] ||
    (files.Keys == {0} && WholeLines(files[0]) && GoodLines(Lines(files[0])) &&
     forall i :: 0 <= i < |Lines(files[0])| ==> env.parse(Lines(files[0])[i]) == Plain)
  }

  lemma {:induction false} HistoryOfOne(files: map<nat, string>, n: nat)
    requires files.Keys <= {0}
    ensures History(files, n) == Content(files, 0)
  {
    if n > 0 {
      HistoryOfOne(files, n - 1);
      assert "" + Content(files, 0) == Content(files, 0);
    }
  }

  lemma StartIsSound(env: Env, k: int, files: map<nat, string>)
    requires GoodStart(env, files)
    ensures Inv(env, k, Log(files, STARTING))
  {
    HistoryOfOne(files, Room(k));
    var lines := Lines(Content(files, 0));
    forall i | 0 <= i < |lines| ensures LineOk(env, lines, "", i) {
      if i > 0 { assert env.parse(lines[i - 1]) == Plain; }
    }
  }

  lemma {:induction false} RunKeepsInv(env: Env, max: nat, k: int, start: map<nat, string>, ops: seq<Op>)
    requires Faithful(env) && GoodStart(env, start) && AllLoggable(env, ops)
    ensures Inv(env, k, Exec(env, max, k, start, ops).log)
  {
    if ops == [] {
      StartIsSound(env, k, start);
    } else {
      var init, op := ops[..|ops| - 1], ops[|ops| - 1];
      RunKeepsInv(env, max, k, start, init);
      if op.Entry? { WriteKeepsInv(env, max, k, Exec(env, max, k, start, init).log, op.line); }
    }
  }

  lemma ExecMore(env: Env, max: nat, k: int, start: map<nat, string>, ops: seq<Op>, op: Op)
    ensures Exec(env, max, k, start, ops + [op]) == Apply(env, max, k, Exec(env, max, k, start, ops), op)
  {
    assert (ops + [op])[..|ops|] == ops;
  }

  ghost predicate EndsWith(written: string, held: string) {
    exists cut :: written == cut + held
  }

  lemma StepKeepsTail(env: Env, max: nat, k: int, run: Run, line: string)
    requires Consistent(run.log) && EndsWith(run.written, History(run.log.files, Room(k)))
    ensures var after := Apply(env, max, k, run, Entry(line));
      EndsWith(after.written, History(after.log.files, Room(k)))
  {
    var before := History(run.log.files, Room(k));
    var after := Apply(env, max, k, run, Entry(line));
    var now := History(after.log.files, Room(k));
    var cut :| run.written == cut + before;
    WriteKeepsHistory(env, max, k, run.log, line);
    var data := ChainLine(line, EnsureOpen(env, run.log).logger.head) + "\n";
    var dropped := Dropped(env, max, k, run.log, line);
    var kept :| before == dropped + kept && now == kept + data;
    Associative(cut, dropped, kept);
    Associative(cut + dropped, kept, data);
    assert after.written == (cut + dropped) + now;
  }

  /**
   Rotation keeps history: at every point of every run the files, oldest first, hold an unbroken tail
   of everything ever written, in order; there are at most k old files, numbered without a gap.
   */
  lemma {:induction false} HistoryIsTail(env: Env, max: nat, k: int, start: map<nat, string>, ops: seq<Op>)
    requires Faithful(env) && GoodStart(env, start) && AllLoggable(env, ops)
    ensures var run := Exec(env, max, k, start, ops);
      Shape(run.log.files, k) && EndsWith(run.written, History(run.log.files, Room(k)))
  {
    RunKeepsInv(env, max, k, start, ops);
    if ops == [] {
      assert History(start, Room(k)) == "" + History(start, Room(k));
    } else {
      var init, op := ops[..|ops| - 1], ops[|ops| - 1];
      HistoryIsTail(env, max, k, start, init);
      if op.Entry? { StepKeepsTail(env, max, k, Exec(env, max, k, start, init), op.line); }
    }
  }

  ghost predicate Bounded(max: nat, files: map<nat, string>) {
    0 in files ==> |files[0]| <= max || |Lines(files[0])| == 1
  }

  lemma WriteKeepsBound(env: Env, max: nat, k: int, log: Log, line: string)
    requires Faithful(env) && Inv(env, k, log) && Consistent(log) && Loggable(env, line)
    ensures Bounded(max, Write(env, max, k, log, line).files)
  {
    OpenKeepsInv(env, k, log);
    var l0 := EnsureOpen(env, log);
    HeadIsHash(env, Lines(History(log.files, Room(k))));
    var chained := ChainLine(line, l0.logger.head);
    ChainedLine(env, line, l0.logger.head);
    LinesOfLine(chained);
    var after := Write(env, max, k, log, line);
    assert "" + (chained + "\n") == chained + "\n";
    if MustRotate(env, max, log, line) {
      NoCurrentAfterRotation(l0.files, k);
      assert after.files[0] == chained + "\n";
    } else if l0.logger.size == 0 {
      assert l0.files[0] == "";
      assert after.files[0] == chained + "\n";
    }
  }

  lemma NoCurrentAfterRotation(files: map<nat, string>, k: int)
    ensures 0 !in Rotated(files, k)
  {
    if k > 0 { RotatedAt(files, k, 0); }
  }

  /** From a fresh log, the current file is always within its limit or holds a single line. */
  lemma CurrentFileIsBounded(env: Env, max: nat, k: int, ops: seq<Op>)
    requires Faithful(env) && AllLoggable(env, ops)
    ensures Bounded(max, Exec(env, max, k, map[], ops).log.files)
    decreases |ops|
  {
    if ops != [] {
      var init, op := ops[..|ops| - 1], ops[|ops| - 1];
      RunKeepsInv(env, max, k, map[], init);
      if op.Entry? {
        WriteKeepsBound(env, max, k, Exec(env, max, k, map[], init).log, op.line);
      } else {
        CurrentFileIsBounded(env, max, k, init);
      }
    }
  }

  ghost function WithoutReboots(ops: seq<Op>): seq<Op> {
    if ops == [] then []
    else WithoutReboots(ops[..|ops| - 1]) + if ops[|ops| - 1].Reboot? then [] else [ops[|ops| - 1]]
  }

  lemma ReopenedIsSame(env: Env, k: int, log: Log)
    requires Faithful(env) && Inv(env, k, log) && Consistent(log)
    ensures EnsureOpen(env, Restart(log)) == EnsureOpen(env, log)
  {
    HeadReadBack(env, log.files, k);
    if log.logger.open {
      assert log.files[0 := Content(log.files, 0)] == log.files;
    }
  }

  predicate SameFiles(a: Run, b: Run) {
    a.log.files == b.log.files && a.written == b.written
  }

  lemma SameAfterEntry(env: Env, max: nat, k: int, a: Run, b: Run, line: string)
    requires Consistent(a.log) && Consistent(b.log) && SameFiles(a, b) &&
      EnsureOpen(env, a.log) == EnsureOpen(env, b.log)
    ensures Apply(env, max, k, a, Entry(line)) == Apply(env, max, k, b, Entry(line))
  {
  }

  /** Restarting the service between writes changes not a single byte of what it writes later. */
  lemma {:induction false} RebootsAreInvisible(env: Env, max: nat, k: int, start: map<nat, string>, ops: seq<Op>)
    requires Faithful(env) && GoodStart(env, start) && AllLoggable(env, ops)
    ensures var a, b := Exec(env, max, k, start, ops), Exec(env, max, k, start, WithoutReboots(ops));
      SameFiles(a, b) && EnsureOpen(env, a.log) == EnsureOpen(env, b.log)
  {
    if ops != [] {
      var init, op := ops[..|ops| - 1], ops[|ops| - 1];
      var rest := WithoutReboots(init);
      RebootsAreInvisible(env, max, k, start, init);
      RunKeepsInv(env, max, k, start, init);
      var a, b := Exec(env, max, k, start, init), Exec(env, max, k, start, rest);
      assert Exec(env, max, k, start, ops) == Apply(env, max, k, a, op);
      if op.Entry? {
        ExecMore(env, max, k, start, rest, op);
        SameAfterEntry(env, max, k, a, b, op.line);
      } else {
        assert rest + [] == rest;
        ReopenedIsSame(env, k, a.log);
      }
    }
  }

  // -------------------------------------------------------------- verify-log

  /** The files the walk looks at, oldest first, from number n down to the current one. */
  ghost function PresentFrom(files: map<nat, string>, n: nat): seq<string> {
    (if n in files then [files[n]] else []) + if n == 0 then [] else PresentFrom(files, n - 1)
  }

  /** Every file verifies against the hash of the last line of the one before it. */
  ghost predicate WalkOk(env: Env, contents: seq<string>, expected: string) {
    contents == [] ||
    (WellChained(env, Records(Lines(contents[0])), expected) &&
     WalkOk(env, contents[1..], LastHash(env, contents[0])))
  }

  datatype Verdict = Missing | Intact | Tampered

  /** Oldest rotated file first, then the current one. */
  method FindFiles(files: map<nat, string>) returns (contents: seq<string>)
    ensures contents == PresentFrom(files, 99)
  {
    contents := [];
    var i := 99;
    while i >= 1
      invariant 0 <= i <= 99
      invariant contents + PresentFrom(files, i) == PresentFrom(files, 99)
    {
      Associative(contents, if i in files then [files[i]] else [], PresentFrom(files, i - 1));
      if i in files { contents := contents + [files[i]]; } else { assert contents + [] == contents; }
      i := i - 1;
    }
    assert PresentFrom(files, 0) == if 0 in files then [files[0]] else [];
    if 0 in files { contents := contents + [files[0]]; }
  }

  /** All files are looked at; one broken file makes the verdict. */
  method VerifyLog(env: Env, files: map<nat, string>) returns (r: Verdict)
    requires forall l :: env.hash(l) != ""
    ensures var contents := PresentFrom(files, 99);
      r == if contents == [] then Missing else if WalkOk(env, contents, "") then Intact else Tampered
  {
    var contents := FindFiles(files);
    if contents == [] { return Missing; }
    var ok, expected := true, "";
    assert contents[0..] == contents;
    for j := 0 to |contents|
      invariant WalkOk(env, contents, "") <==> ok && WalkOk(env, contents[j..], expected)
    {
      var lines := ReadLines(contents[j]);
      var report := VerifyChain(env, lines, expected);
      assert contents[j..][0] == contents[j] && contents[j..][1..] == contents[j + 1..];
      if report.broken != 0 { ok := false; }
      expected := LastLineHash(env, contents[j]);
    }
    r := if ok then Intact else Tampered;
  }

  lemma LinesFrom(content: string, p: nat)
    requires p < |content|
    ensures var k := NewlineFrom(content, p);
      Lines(content[p..]) == if k == |content| then [content[p..]] else [content[p..k]] + Lines(content[k + 1..])
  {
    var k := NewlineFrom(content, p);
    var rest := content[p..];
    NewlineInSlice(content, p);
    if k < |content| {
      assert rest[..k - p] == content[p..k] && rest[k - p + 1..] == content[k + 1..];
    }
  }

  /** `lines` are the lines of the content up to p. */
  ghost predicate ReadTo(content: string, lines: seq<string>, p: nat) {
    p <= |content| && lines + Lines(content[p..]) == Lines(content)
  }

  lemma ReadNothing(content: string)
    ensures ReadTo(content, [], 0)
  {
    assert content[0..] == content && [] + Lines(content) == Lines(content);
  }

  lemma ReadLast(content: string, lines: seq<string>)
    requires lines == Lines(content)
    ensures ReadTo(content, lines, |content|)
  {
    assert content[|content|..] == "" && Lines("") == [] && lines + [] == lines;
  }

  lemma ReadAll(content: string, lines: seq<string>)
    requires ReadTo(content, lines, |content|)
    ensures lines == Lines(content)
  {
    assert content[|content|..] == "" && Lines("") == [] && lines + [] == lines;
  }

  /** std::getline until the end of the file. */
  method ReadLines(content: string) returns (lines: seq<string>)
    ensures lines == Lines(content)
  {
    lines := [];
    var p := 0;
    ReadNothing(content);
    while p < |content|
      invariant ReadTo(content, lines, p)
    {
      var line;
      line, p := GetLine(content, lines, p);
      lines := lines + [line];
    }
    ReadAll(content, lines);
  }

  method GetLine(content: string, ghost lines: seq<string>, p: nat) returns (line: string, next: nat)
    requires p < |content| && ReadTo(content, lines, p)
    ensures p < next && ReadTo(content, lines + [line], next)
  {
    var k := NewlineFrom(content, p);
    line, next := content[p..k], if k < |content| then k + 1 else k;
    if k < |content| { ReadLine(content, lines, p); } else { ReadRest(content, lines, p); }
  }

  lemma ReadLine(content: string, lines: seq<string>, p: nat)
    requires p < |content| && ReadTo(content, lines, p) && NewlineFrom(content, p) < |content|
    ensures ReadTo(content, lines + [content[p..NewlineFrom(content, p)]], NewlineFrom(content, p) + 1)
  {
    var k := NewlineFrom(content, p);
    LinesFrom(content, p);
    Associative(lines, [content[p..k]], Lines(content[k + 1..]));
  }

  lemma ReadRest(content: string, lines: seq<string>, p: nat)
    requires p < |content| && ReadTo(content, lines, p) && NewlineFrom(content, p) == |content|
    ensures ReadTo(content, lines + [content[p..|content|]], |content|)
  {
    LinesFrom(content, p);
    assert content[p..] == content[p..|content|];
    ReadLast(content, lines + [content[p..]]);
  }

  lemma NewlineInSlice(s: string, p: nat)
    requires p <= |s|
    ensures NewlineFrom(s[p..], 0) == NewlineFrom(s, p) - p
  {
    var k := NewlineFrom(s, p);
    assert k < |s| ==> s[p..][k - p] == '\n';
    assert forall j :: 0 <= j < k - p ==> s[p..][j] == s[p + j];
  }

  lemma {:induction false} RecordsOfGood(lines: seq<string>)
    requires GoodLines(lines)
    ensures Records(lines) == lines
  {
    if lines != [] {
      assert GoodLine(lines[0]);
      assert forall i :: 0 <= i < |lines[1..]| ==> lines[1..][i] == lines[i + 1];
      RecordsOfGood(lines[1..]);
    }
  }

  /** What the first line after `lines` must link to. */
  ghost function Follows(env: Env, lines: seq<string>, e: string): string {
    if lines == [] then e else env.hash(Last(lines))
  }

  lemma ChainFront(env: Env, a: seq<string>, b: seq<string>, e: string)
    requires GoodChain(env, a + b, e)
    ensures GoodChain(env, a, e)
  {
    var lines := a + b;
    forall i | 0 <= i < |a| ensures GoodLine(a[i]) && LineOk(env, a, e, i) {
      assert lines[i] == a[i] && LineOk(env, lines, e, i);
      if i > 0 { assert lines[i - 1] == a[i - 1]; }
    }
  }

  /** A chain over two files is a chain in each, the second linked to the end of the first. */
  lemma ChainBack(env: Env, a: seq<string>, b: seq<string>, e: string)
    requires GoodChain(env, a + b, e)
    ensures GoodChain(env, b, Follows(env, a, e))
  {
    var lines := a + b;
    forall i | 0 <= i < |b| ensures GoodLine(b[i]) && LineOk(env, b, Follows(env, a, e), i) {
      assert lines[|a| + i] == b[i] && LineOk(env, lines, e, |a| + i);
      if i > 0 {
        assert lines[|a| + i - 1] == b[i - 1];
      } else if a != [] {
        assert lines[|a| - 1] == Last(a);
      }
    }
  }

  /** Whatever its first line links to, the rest of a sound chain is sound. */
  lemma SoundSuffix(env: Env, a: seq<string>, b: seq<string>)
    requires Sound(env, a + b)
    ensures Sound(env, b)
  {
    ChainBack(env, a, b, "");
    forall i | 0 <= i < |b| ensures LineOk(env, b, "", i) {
      assert LineOk(env, b, Follows(env, a, ""), i);
    }
  }

  lemma WalkCons(env: Env, c: string, rest: seq<string>, e: string)
    requires GoodChain(env, Lines(c), e) && WalkOk(env, rest, LastHash(env, c))
    ensures WalkOk(env, [c] + rest, e)
  {
    RecordsOfGood(Lines(c));
    assert ([c] + rest)[1..] == rest;
  }

  /** File by file: each is a good chain that follows on from the one before it. */
  ghost predicate Walkable(env: Env, files: map<nat, string>, n: nat, e: string) {
    (n in files ==> GoodChain(env, Lines(files[n]), e)) &&
    (n > 0 ==> Walkable(env, files, n - 1, if n in files then LastHash(env, files[n]) else e))
  }

  lemma {:induction false} WalkableIsOk(env: Env, files: map<nat, string>, n: nat, e: string)
    requires Walkable(env, files, n, e)
    ensures WalkOk(env, PresentFrom(files, n), e)
  {
    var rest := if n == 0 then [] else PresentFrom(files, n - 1);
    if n > 0 { WalkableIsOk(env, files, n - 1, if n in files then LastHash(env, files[n]) else e); }
    if n in files {
      assert n == 0 ==> WalkOk(env, rest, LastHash(env, files[n]));
      WalkCons(env, files[n], rest, e);
    } else {
      assert [] + rest == rest;
    }
  }

  lemma FollowsIsReadBack(env: Env, c: string, e: string)
    requires WholeLines(c) && c != "" && GoodChain(env, Lines(c), e)
    ensures Follows(env, Lines(c), e) == LastHash(env, c)
  {
    HasLine(c);
    var lines := Lines(c);
    assert GoodLine(lines[|lines| - 1]);
    ReadBack(env, c);
  }

  /** A chain over a file and the lines after it: each is a chain, linked by the hash read back from the file. */
  lemma NextLines(env: Env, c: string, rest: seq<string>, e: string)
    requires WholeLines(c) && GoodChain(env, Lines(c) + rest, e)
    ensures GoodChain(env, Lines(c), e)
    ensures GoodChain(env, rest, if c != "" then LastHash(env, c) else e)
  {
    ChainFront(env, Lines(c), rest, e);
    ChainBack(env, Lines(c), rest, e);
    if c != "" {
      FollowsIsReadBack(env, c, e);
    } else {
      assert Lines("") == [];
    }
  }

  lemma NextFile(env: Env, files: map<nat, string>, k: int, n: nat, e: string)
    requires Shape(files, k) && n > 0 && GoodChain(env, Lines(History(files, n)), e)
    ensures n in files ==> GoodChain(env, Lines(files[n]), e)
    ensures GoodChain(env, Lines(History(files, n - 1)), if n in files then LastHash(env, files[n]) else e)
  {
    hide GoodChain, LastHash, Lines;
    HistoryLines(files, k, n);
    NextLines(env, Content(files, n), Lines(History(files, n - 1)), e);
  }

  lemma OneFileIsWalkable(env: Env, files: map<nat, string>, e: string)
    requires GoodChain(env, Lines(History(files, 0)), e)
    ensures Walkable(env, files, 0, e)
  {
  }

  lemma {:induction false} ChainIsWalkable(env: Env, files: map<nat, string>, k: int, n: nat, e: string)
    requires Shape(files, k) && GoodChain(env, Lines(History(files, n)), e)
    ensures Walkable(env, files, n, e)
  {
    hide Shape, GoodChain, LastHash, Lines, History;
    if n == 0 {
      OneFileIsWalkable(env, files, e);
    } else {
      NextFile(env, files, k, n, e);
      ChainIsWalkable(env, files, k, n - 1, if n in files then LastHash(env, files[n]) else e);
    }
  }

  lemma NothingBeyond(files: map<nat, string>, k: int, n: nat)
    requires Shape(files, k) && n > Room(k)
    ensures History(files, n) == History(files, n - 1)
  {
    assert Content(files, n) == "" && "" + History(files, n - 1) == History(files, n - 1);
  }

  lemma {:induction false} SoundBeyond(env: Env, files: map<nat, string>, k: int, n: nat)
    requires Shape(files, k) && Sound(env, Lines(History(files, Room(k)))) && n >= Room(k)
    ensures Sound(env, Lines(History(files, n)))
  {
    hide Shape, Lines, History, Sound;
    if n > Room(k) {
      SoundBeyond(env, files, k, n - 1);
      NothingBeyond(files, k, n);
    }
  }

  lemma {:induction false} SoundBelow(env: Env, files: map<nat, string>, k: int, n: nat, m: nat)
    requires Shape(files, k) && Sound(env, Lines(History(files, n))) && m <= n
    ensures Sound(env, Lines(History(files, m)))
  {
    hide Shape, Lines, History, Sound;
    if m < n {
      HistoryLines(files, k, n);
      SoundSuffix(env, Lines(Content(files, n)), Lines(History(files, n - 1)));
      SoundBelow(env, files, k, n - 1, m);
    }
  }

  /**
   Writer and verifier agree: after any run of writes, rotations and restarts from no log or a log
   from before chaining, verify-log finds every file intact.
   */
  lemma VerifierAcceptsEveryRun(env: Env, max: nat, k: int, start: map<nat, string>, ops: seq<Op>)
    requires Faithful(env) && GoodStart(env, start) && AllLoggable(env, ops)
    ensures WalkOk(env, PresentFrom(Exec(env, max, k, start, ops).log.files, 99), "")
  {
    RunKeepsInv(env, max, k, start, ops);
    var files := Exec(env, max, k, start, ops).log.files;
    if Room(k) <= 99 { SoundBeyond(env, files, k, 99); } else { SoundBelow(env, files, k, Room(k), 99); }
    ChainIsWalkable(env, files, k, 99, "");
    WalkableIsOk(env, files, 99, "");
  }

  // ---------------------------------------------------------------- the code

  class Disk {
    var files: map<nat, string>

    constructor (files: map<nat, string>)
      ensures this.files == files
    {
      this.files := files;
    }

    method Delete(i: nat)
      modifies this
      ensures files == old(files) - {i}
    {
      files := files - {i};
    }

    method MoveUp(i: nat)
      modifies this
      ensures files == Moved(old(files), i)
    {
      if i in files { files := (files - {i})[i + 1 := files[i]]; }
    }
  }

  class JsonLinesLogger {
    const env: Env
    const disk: Disk
    const maxFileBytes: nat
    const maxRotatedFiles: int
    var open: bool
    var currentSize: nat
    var lastHash: string

    ghost function State(): Log
      reads this, disk
    {
      Log(disk.files, Logger(open, currentSize, lastHash))
    }

    constructor (env: Env, disk: Disk, maxFileBytes: nat, maxRotatedFiles: int)
      ensures this.env == env && this.disk == disk
      ensures this.maxFileBytes == maxFileBytes && this.maxRotatedFiles == maxRotatedFiles
      ensures State() == Log(disk.files, STARTING)
    {
      this.env, this.disk := env, disk;
      this.maxFileBytes, this.maxRotatedFiles := maxFileBytes, maxRotatedFiles;
      open, currentSize, lastHash := false, 0, "";
    }

    method Open()
      requires Consistent(State())
      modifies this, disk
      ensures State() == EnsureOpen(env, old(State()))
    {
      if open { return; }
      if lastHash == "" {
        lastHash := LastLineHash(env, Content(disk.files, 0));
        if lastHash == "" { lastHash := GENESIS; }
      }
      if 0 !in disk.files {
        disk.files := disk.files[0 := ""];
      }
      assert disk.files == old(disk.files)[0 := Content(old(disk.files), 0)];
      open := true;
      currentSize := |disk.files[0]|;
    }

    method Rotate()
      modifies this`open, this`currentSize, disk
      ensures disk.files == Rotated(old(disk.files), maxRotatedFiles)
      ensures !open && currentSize == 0
    {
      open, currentSize := false, 0;
      var k := maxRotatedFiles;
      if k <= 0 {
        disk.Delete(0);
        return;
      }
      disk.Delete(k);
      var i := k - 1;
      while i >= 1
        invariant 0 <= i < k && ShiftUp(disk.files, i) == Rotated(old(disk.files), k)
        invariant !open && currentSize == 0
      {
        disk.MoveUp(i);
        i := i - 1;
      }
      disk.MoveUp(0);
    }

    method WriteLine(line: string)
      requires Consistent(State())
      modifies this, disk
      ensures State() == Write(env, maxFileBytes, maxRotatedFiles, old(State()), line)
    {
      Open();
      var chained := ChainLine(line, lastHash);
      var data := chained + "\n";
      if currentSize > 0 && currentSize + |data| > maxFileBytes {
        Rotate();
        Open();
      }
      disk.files := disk.files[0 := disk.files[0] + data];
      assert disk.files[0] == old(Write(env, maxFileBytes, maxRotatedFiles, State(), line)).files[0];
      currentSize := currentSize + |data|;
      lastHash := env.hash(chained);
    }
  }
}
