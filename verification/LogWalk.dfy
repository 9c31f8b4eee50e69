/**
 What an accepted verify-log walk (main.cpp) says about the lines of all files together. The walk checks
 each file against the hash that LastLineHash reads back from the one before it (LogChain.cpp); if that
 hash is empty, the next file may link to anything.
 */
module LogWalk {
  import opened Bytes
  import opened LogChain
  import opened LogFiles

  /** The lines of a file that are checked. */
  ghost function RecordsOf(content: string): seq<string> {
    Records(Lines(content))
  }

  /** The lines of all files, oldest file first. */
  ghost function AllRecords(contents: seq<string>): seq<string> {
    if contents == [] then [] else RecordsOf(contents[0]) + AllRecords(contents[1..])
  }

  /** What the file after these is checked against. */
  ghost function After(env: Env, contents: seq<string>, e: string): string {
    if contents == [] then e else LastHash(env, contents[|contents| - 1])
  }

  lemma {:induction false} WalkSplits(env: Env, a: seq<string>, b: seq<string>, e: string)
    ensures WalkOk(env, a + b, e) <==> WalkOk(env, a, e) && WalkOk(env, b, After(env, a, e))
  {
    if a == [] {
      assert a + b == b;
    } else {
      assert (a + b)[1..] == a[1..] + b;
      WalkSplits(env, a[1..], b, LastHash(env, a[0]));
    }
  }

  /** A check against nothing is the weakest one. */
  lemma WalkFromNothing(env: Env, contents: seq<string>, e: string)
    requires WalkOk(env, contents, e)
    ensures WalkOk(env, contents, "")
  {
    if contents != [] {
      var records := RecordsOf(contents[0]);
      forall i | 0 <= i < |records| ensures LineOk(env, records, "", i) { assert LineOk(env, records, e, i); }
    }
  }

  // ---------------------------------------------------- where the chain is cut

  /** A file without a line to check, and without one to link to. */
  ghost predicate Blank(env: Env, content: string) {
    RecordsOf(content) == [] && LastHash(env, content) == ""
  }

  /** An empty file is blank, and so is one of line feeds only. */
  lemma LineFeedsAreBlank(env: Env, content: string)
    requires forall i :: 0 <= i < |content| ==> content[i] == '\n'
    ensures Blank(env, content)
  {
    LineFeedsHaveNoRecords(content);
    LineFeedsAreStripped(if |content| > TAIL then content[|content| - TAIL..] else content);
  }

  lemma {:induction false} LineFeedsHaveNoRecords(content: string)
    requires forall i :: 0 <= i < |content| ==> content[i] == '\n'
    ensures RecordsOf(content) == []
  {
    if content != "" {
      LineFeedsHaveNoRecords(content[1..]);
      assert content == "" + "\n" + content[1..];
      LinesStep("", content[1..]);
      assert ([""] + Lines(content[1..]))[1..] == Lines(content[1..]);
    }
  }

  lemma {:induction false} LineFeedsAreStripped(s: string)
    requires forall i :: 0 <= i < |s| ==> s[i] == '\n'
    ensures StripBreaks(s) == ""
  {
    if s != "" { LineFeedsAreStripped(s[..|s| - 1]); }
  }

  /** A blank file cuts the chain: what is before it and what is after it are checked independently of each other. */
  lemma BlankFileCuts(env: Env, front: seq<string>, blank: string, rest: seq<string>, e: string)
    requires Blank(env, blank)
    ensures WalkOk(env, front + [blank] + rest, e) <==> WalkOk(env, front, e) && WalkOk(env, rest, "")
  {
    WalkSplits(env, front + [blank], rest, e);
    WalkSplits(env, front, [blank], e);
  }

  /** So emptying an interior file is not reported, and the files before it may then be replaced by any that verify. */
  lemma EmptiedFileIsAccepted(env: Env, front: seq<string>, file: string, rest: seq<string>, e: string,
                              blank: string, other: seq<string>)
    requires WalkOk(env, front + [file] + rest, e) && Blank(env, blank)
    ensures WalkOk(env, front + [blank] + rest, e)
    ensures WalkOk(env, other + [blank] + rest, e) <==> WalkOk(env, other, e)
  {
    WalkSplits(env, front + [file], rest, e);
    WalkSplits(env, front, [file], e);
    WalkFromNothing(env, rest, LastHash(env, file));
    BlankFileCuts(env, front, blank, rest, e);
    BlankFileCuts(env, other, blank, rest, e);
  }

  // ------------------------------------------------- where the chain holds

  /** The file has a line, and what is read back from it is the hash of the last one. */
  ghost predicate ReadsBack(env: Env, content: string) {
    RecordsOf(content) != [] && LastHash(env, content) == env.hash(Last(RecordsOf(content)))
  }

  ghost predicate AllReadBack(env: Env, contents: seq<string>) {
    forall i :: 0 <= i < |contents| ==> ReadsBack(env, contents[i])
  }

  /** Links that are right in two parts, the second following on from the first, are right in the whole. */
  lemma LinksJoin(env: Env, a: seq<string>, b: seq<string>, e: string)
    requires a != [] && WellChained(env, a, e) && Links(env, b, env.hash(Last(a)))
    requires b != [] ==> env.hash(Last(a)) != ""
    ensures Links(env, a + b, e)
  {
    var lines := a + b;
    forall i | 0 <= i < |lines| && env.parse(lines[i]).Linked? ensures LineOk(env, lines, e, i) {
      if i < |a| {
        assert LineOk(env, a, e, i);
        if i > 0 { assert lines[i - 1] == a[i - 1]; }
      } else {
        assert LineOk(env, b, env.hash(Last(a)), i - |a|);
      }
    }
  }

  /** In an accepted walk over files that read back every link, also across files, is the hash of the line before it. */
  lemma {:induction false} WalkLinks(env: Env, contents: seq<string>, e: string)
    requires Faithful(env) && WalkOk(env, contents, e) && AllReadBack(env, contents)
    ensures Links(env, AllRecords(contents), e)
  {
    if contents != [] {
      assert ReadsBack(env, contents[0]);
      assert forall i :: 0 <= i < |contents[1..]| ==> contents[1..][i] == contents[i + 1];
      WalkLinks(env, contents[1..], LastHash(env, contents[0]));
      assert |env.hash(Last(RecordsOf(contents[0])))| == 64;
      LinksJoin(env, RecordsOf(contents[0]), AllRecords(contents[1..]), e);
    }
  }

  /**
   Two accepted walks over files that read back and that end in the same line agree line for line going
   back, across files, until one of them is exhausted or a line carries no link.
   */
  lemma WalksAgree(env: Env, a: seq<string>, b: seq<string>, e: string, f: string, k: nat)
    requires Faithful(env) && WalkOk(env, a, e) && WalkOk(env, b, f) && AllReadBack(env, a) && AllReadBack(env, b)
    requires NoCollision(env, AllRecords(a), AllRecords(b)) && k < |AllRecords(a)| && k < |AllRecords(b)|
    requires FromEnd(AllRecords(a), 0) == FromEnd(AllRecords(b), 0)
    requires forall j :: 0 <= j < k ==> env.parse(FromEnd(AllRecords(a), j)).Linked?
    ensures FromEnd(AllRecords(a), k) == FromEnd(AllRecords(b), k)
  {
    WalkLinks(env, a, e);
    WalkLinks(env, b, f);
    AgreeBackwards(env, AllRecords(a), AllRecords(b), e, f, k);
  }

  /**
   Tamper evidence across files: given an accepted walk whose lines are linked from u on, and other files
   that end in the same line. If their walk is accepted too and every one of them reads back, they
   keep all lines from u on, in whatever way these are spread over files.
   */
  lemma WalkIsProtected(env: Env, log: seq<string>, other: seq<string>, e: string, f: string, u: nat)
    requires Faithful(env) && WalkOk(env, log, e) && AllReadBack(env, log)
    requires u < |AllRecords(log)| && LinkedFrom(env, AllRecords(log), u)
    requires NoCollision(env, AllRecords(log), AllRecords(other))
    requires AllRecords(other) != [] && Last(AllRecords(log)) == Last(AllRecords(other))
    ensures WalkOk(env, other, f) && AllReadBack(env, other) ==>
      KeepsFrom(env, AllRecords(log), AllRecords(other), u)
  {
    if WalkOk(env, other, f) && AllReadBack(env, other) {
      WalkLinks(env, log, e);
      WalkLinks(env, other, f);
      LinkedEndIsKept(env, AllRecords(log), AllRecords(other), e, f, u);
    }
  }

  // ------------------------------------------------ exactly where it holds

  /** The walk accepts this file after those, and its first line is linked. */
  ghost predicate Continues(env: Env, front: seq<string>, next: string, e: string) {
    WalkOk(env, front + [next], e) && RecordsOf(next) != [] && env.parse(RecordsOf(next)[0]).Linked?
  }

  ghost function FirstLink(env: Env, next: string): string
    requires RecordsOf(next) != [] && env.parse(RecordsOf(next)[0]).Linked?
  {
    env.parse(RecordsOf(next)[0]).prev
  }

  lemma ContinuesExactly(env: Env, front: seq<string>, next: string, e: string)
    requires WalkOk(env, front, e) && RecordsOf(next) != [] && env.parse(RecordsOf(next)[0]).Linked?
    ensures Continues(env, front, next, e) ==>
      After(env, front, e) == "" || FirstLink(env, next) == After(env, front, e)
    ensures |RecordsOf(next)| == 1 && (After(env, front, e) == "" || FirstLink(env, next) == After(env, front, e)) ==>
      Continues(env, front, next, e)
  {
    WalkSplits(env, front, [next], e);
    if Continues(env, front, next, e) { assert LineOk(env, RecordsOf(next), After(env, front, e), 0); }
  }

  /** A file of one entry that links to this hash. */
  function OneLine(line: string, prev: string): string {
    ChainLine(line, prev) + "\n"
  }

  lemma OneLineLinks(env: Env, line: string, prev: string)
    requires Faithful(env) && Loggable(env, line) && |prev| == 64 && IsHex(prev)
    ensures RecordsOf(OneLine(line, prev)) == [ChainLine(line, prev)]
    ensures env.parse(ChainLine(line, prev)) == Linked(prev)
  {
    ChainedLine(env, line, prev);
    LinesOfLine(ChainLine(line, prev));
    RecordsOfGood([ChainLine(line, prev)]);
  }

  /** A hash that is not the one given. */
  lemma AnotherHash(h: string) returns (g: string)
    ensures |g| == 64 && IsHex(g) && g != h
  {
    g := if h == GENESIS then GENESIS[0 := '1'] else GENESIS;
    assert GENESIS[0] == '0';
  }

  /**
   The first link of the next file has to be the hash of the last line so far, whatever that file is, exactly if the
   last file so far reads back.
   */
  lemma NextIsBoundExactly(env: Env, front: seq<string>, line: string, e: string)
    requires Faithful(env) && Loggable(env, line) && WalkOk(env, front, e) && front != []
    requires RecordsOf(Last(front)) != []
    ensures (forall next :: Continues(env, front, next, e) ==>
              FirstLink(env, next) == env.hash(Last(RecordsOf(Last(front))))) <==>
            ReadsBack(env, Last(front))
  {
    var want, found := env.hash(Last(RecordsOf(Last(front)))), LastHash(env, Last(front));
    if ReadsBack(env, Last(front)) {
      forall next | Continues(env, front, next, e) ensures FirstLink(env, next) == want {
        ContinuesExactly(env, front, next, e);
        assert |want| == 64;
      }
    } else {
      var prev := found;
      if found == "" { prev := AnotherHash(want); }
      OneLineLinks(env, line, prev);
      ContinuesExactly(env, front, OneLine(line, prev), e);
    }
  }

  /** With any last file: the link is forced to be something exactly if there is a hash to read back. */
  lemma NextIsForcedExactly(env: Env, front: seq<string>, line: string, e: string)
    requires Faithful(env) && Loggable(env, line) && WalkOk(env, front, e) && front != []
    ensures (forall next :: Continues(env, front, next, e) ==> FirstLink(env, next) == LastHash(env, Last(front))) <==>
            LastHash(env, Last(front)) != ""
  {
    if LastHash(env, Last(front)) == "" {
      OneLineLinks(env, line, GENESIS);
      ContinuesExactly(env, front, OneLine(line, GENESIS), e);
    } else {
      forall next | Continues(env, front, next, e) ensures FirstLink(env, next) == LastHash(env, Last(front)) {
        ContinuesExactly(env, front, next, e);
      }
    }
  }

  // ---------------------------------------------------------- every run

  lemma GoodParts(a: seq<string>, b: seq<string>)
    requires GoodLines(a + b)
    ensures GoodLines(a) && GoodLines(b)
  {
    forall i | 0 <= i < |a| ensures GoodLine(a[i]) { assert (a + b)[i] == a[i]; }
    forall i | 0 <= i < |b| ensures GoodLine(b[i]) { assert (a + b)[|a| + i] == b[i]; }
  }

  /** Every file holds good lines if all of them together do. */
  lemma {:induction false} FilesAreGood(files: map<nat, string>, k: int, n: nat, i: nat)
    requires Shape(files, k) && GoodLines(Lines(History(files, n))) && i <= n
    ensures GoodLines(Lines(Content(files, i)))
  {
    hide Shape, Lines, GoodLines;
    if n > 0 {
      HistoryLines(files, k, n);
      GoodParts(Lines(Content(files, n)), Lines(History(files, n - 1)));
      if i < n { FilesAreGood(files, k, n - 1, i); }
    }
  }

  lemma GoodFileReadsBack(env: Env, c: string)
    requires WholeLines(c) && c != "" && GoodLines(Lines(c))
    ensures ReadsBack(env, c)
  {
    RecordsOfGood(Lines(c));
    ReadBack(env, c);
  }

  lemma OldIsNotEmpty(files: map<nat, string>, k: int, i: nat)
    requires Shape(files, k) && i in files && i > 0
    ensures files[i] != ""
  {
    assert i - 1 in files && files[i - 1] != "";
  }

  lemma OnlyEmpty(files: map<nat, string>, k: int, i: nat)
    requires Shape(files, k) && i in files && files[i] == ""
    ensures files.Keys == {0}
  {
    if i > 0 { OldIsNotEmpty(files, k, i); }
    forall j | j in files ensures j == 0 {
      if j > 0 { NoOldFiles(files, k, j); }
    }
  }

  /** After every run each file reads back, except a current one without a line, and then there is no other file. */
  lemma RunFilesReadBack(env: Env, max: nat, k: int, start: map<nat, string>, ops: seq<Op>, i: nat)
    requires Faithful(env) && GoodStart(env, start) && AllLoggable(env, ops)
    ensures var files := Exec(env, max, k, start, ops).log.files;
      i in files ==> ReadsBack(env, files[i]) || (files.Keys == {0} && files[i] == "")
  {
    RunKeepsInv(env, max, k, start, ops);
    var files := Exec(env, max, k, start, ops).log.files;
    if i in files {
      if files[i] != "" {
        FilesAreGood(files, k, Room(k), i);
        GoodFileReadsBack(env, files[i]);
      } else {
        OnlyEmpty(files, k, i);
      }
    }
  }

  /** The lines the walk sees are those on disk, in order. */
  lemma {:induction false} WalkSeesAll(files: map<nat, string>, k: int, n: nat)
    requires Shape(files, k) && GoodLines(Lines(History(files, n)))
    ensures AllRecords(PresentFrom(files, n)) == Lines(History(files, n))
  {
    hide Shape, GoodLines;
    FilesAreGood(files, k, n, n);
    var c := Content(files, n);
    RecordsOfGood(Lines(c));
    var rest := if n == 0 then [] else PresentFrom(files, n - 1);
    if n > 0 {
      HistoryLines(files, k, n);
      GoodParts(Lines(c), Lines(History(files, n - 1)));
      WalkSeesAll(files, k, n - 1);
    }
    if n in files {
      assert ([files[n]] + rest)[1..] == rest;
    } else {
      assert [] + rest == rest;
      assert Lines("") == [];
    }
  }

  /**
   After every run: whatever is done to the files, if the last line is still there, every file that is
   left reads back and verify-log finds the walk intact, then everything from any linked line on is unchanged.
   */
  lemma RunIsProtected(env: Env, max: nat, k: int, start: map<nat, string>, ops: seq<Op>, other: seq<string>, u: nat)
    requires Faithful(env) && GoodStart(env, start) && AllLoggable(env, ops)
    requires var log := AllRecords(PresentFrom(Exec(env, max, k, start, ops).log.files, 99));
      NoCollision(env, log, AllRecords(other)) && u < |log| && env.parse(log[u]).Linked? &&
      AllRecords(other) != [] && Last(log) == Last(AllRecords(other))
    ensures var log := AllRecords(PresentFrom(Exec(env, max, k, start, ops).log.files, 99));
      WalkOk(env, other, "") && AllReadBack(env, other) ==> KeepsFrom(env, log, AllRecords(other), u)
  {
    hide Exec, WalkOk, AllReadBack, NoCollision, KeepsFrom;
    RunIsSound(env, max, k, start, ops);
    var log := AllRecords(PresentFrom(Exec(env, max, k, start, ops).log.files, 99));
    if WalkOk(env, other, "") && AllReadBack(env, other) { ChainIsProtected(env, log, other, u); }
  }

  lemma ChainIsProtected(env: Env, log: seq<string>, other: seq<string>, u: nat)
    requires Faithful(env) && WellChained(env, log, "") && u < |log| && env.parse(log[u]).Linked?
    requires WalkOk(env, other, "") && AllReadBack(env, other)
    requires NoCollision(env, log, AllRecords(other)) && AllRecords(other) != [] && Last(log) == Last(AllRecords(other))
    ensures KeepsFrom(env, log, AllRecords(other), u)
  {
    forall i | u <= i < |log| ensures env.parse(log[i]).Linked? { StaysLinked(env, log, "", u, i); }
    WalkLinks(env, other, "");
    LinkedEndIsKept(env, log, AllRecords(other), "", "", u);
  }

  lemma RunIsSound(env: Env, max: nat, k: int, start: map<nat, string>, ops: seq<Op>)
    requires Faithful(env) && GoodStart(env, start) && AllLoggable(env, ops)
    ensures WellChained(env, AllRecords(PresentFrom(Exec(env, max, k, start, ops).log.files, 99)), "")
  {
    hide Shape, Lines, WellChained, GoodLines;
    RunKeepsInv(env, max, k, start, ops);
    var files := Exec(env, max, k, start, ops).log.files;
    if Room(k) <= 99 { SoundBeyond(env, files, k, 99); } else { SoundBelow(env, files, k, Room(k), 99); }
    WalkSeesAll(files, k, 99);
  }
}
