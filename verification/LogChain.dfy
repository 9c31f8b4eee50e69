/**
 The hash chain of the log (LogChain.cpp): how a line is linked to the one before it, how the head
 of the chain is read back from a file, and what a verification pass reports.
 */
module LogChain {
  import opened Bytes

  /** What the JSON parser says of a line: not an object, an object without a string prev_hash, or its link. */
  datatype Parsed = NotObject | Plain | Linked(prev: string)

  /** The two library functions: hex SHA-256 of a line, and the JSON parser; `entry` are the serialized objects. */
  datatype Env = Env(hash: string -> string, parse: string -> Parsed, entry: string -> bool)

  function Zeros(n: nat): (z: string)
    ensures |z| == n && forall i :: 0 <= i < n ==> z[i] == '0'
  {
    if n == 0 then "" else Zeros(n - 1) + "0"
  }

  const GENESIS: string := Zeros(64)
  const TAIL: nat := 65536

  ghost predicate NoNewline(s: string) {
    forall i :: 0 <= i < |s| ==> s[i] != '\n'
  }

  function ChainLine(line: string, prev: string): string {
    if |line| < 2 || line[|line| - 1] != '}' then line
    else line[..|line| - 1] + ",\"prev_hash\":\"" + prev + "\"}"
  }

  /** Hexadecimal text, which is the same inside and outside a JSON string. */
  ghost predicate IsHex(s: string) {
    forall i :: 0 <= i < |s| ==> HexValue(s[i]) >= 0
  }

  /** A hash is 64 hexadecimal digits; an entry linked to such a hash parses back to its link. */
  ghost predicate Faithful(env: Env) {
    (forall l :: |env.hash(l)| == 64 && IsHex(env.hash(l))) &&
    (forall l :: env.entry(l) ==> |l| >= 2 && l[|l| - 1] == '}' && NoNewline(l)) &&
    (forall l, prev :: env.entry(l) && |prev| == 64 && IsHex(prev) ==> env.parse(ChainLine(l, prev)) == Linked(prev))
  }

  /** A parser that looks for the link at the end of the line. */
  ghost function LinkAtEnd(line: string): Parsed {
    var n := |line|;
    if n >= 80 && line[n - 2..] == "\"}" && line[n - 80..n - 66] == ",\"prev_hash\":\"" && IsHex(line[n - 66..n - 2])
    then Linked(line[n - 66..n - 2])
    else if n > 0 && line[n - 1] == '}' then Plain
    else NotObject
  }

  /** What is assumed of hash and parser can be met, with every line of text in braces as an entry. */
  lemma FaithfulIsMet(env: Env)
    requires forall l :: env.hash(l) == GENESIS
    requires forall l :: env.parse(l) == LinkAtEnd(l)
    requires forall l :: env.entry(l) <==> |l| >= 2 && l[|l| - 1] == '}' && NoNewline(l)
    ensures Faithful(env)
  {
    forall l, prev | env.entry(l) && |prev| == 64 && IsHex(prev) ensures env.parse(ChainLine(l, prev)) == Linked(prev) {
      var init, key := l[..|l| - 1], ",\"prev_hash\":\"";
      var line := ChainLine(l, prev);
      var n := |line|;
      assert line == init + key + prev + "\"}" && |key| == 14 && n == |init| + 80;
      assert line[n - 80..n - 66] == key && line[n - 66..n - 2] == prev && line[n - 2..] == "\"}";
    }
  }

  // ----------------------------------------------------- a stream of lines

  /** Position of the first newline at or after i, or the length. */
  function NewlineFrom(s: string, i: nat): (k: nat)
    requires i <= |s|
    ensures i <= k <= |s| && (k < |s| ==> s[k] == '\n')
    ensures forall j :: i <= j < k ==> s[j] != '\n'
    decreases |s| - i
  {
    if i == |s| || s[i] == '\n' then i else NewlineFrom(s, i + 1)
  }

  /** The lines std::getline yields: an empty remainder after the last newline is not a line. */
  ghost function Lines(s: string): seq<string>
    decreases |s|
  {
    if s == "" then []
    else
      var k := NewlineFrom(s, 0);
      if k == |s| then [s] else [s[..k]] + Lines(s[k + 1..])
  }

  ghost predicate WholeLines(s: string) {
    s == "" || s[|s| - 1] == '\n'
  }

  lemma FirstNewline(l: string, rest: string)
    requires NoNewline(l)
    ensures NewlineFrom(l + "\n" + rest, 0) == |l|
  {
    var s := l + "\n" + rest;
    assert s[|l|] == '\n';
    assert forall j :: 0 <= j < |l| ==> s[j] == l[j];
  }

  /** One step of getline: a line, and the stream after its newline. */
  lemma LinesStep(l: string, rest: string)
    requires NoNewline(l)
    ensures Lines(l + "\n" + rest) == [l] + Lines(rest)
  {
    var s := l + "\n" + rest;
    FirstNewline(l, rest);
    assert s[..|l|] == l;
    assert s[|l| + 1..] == rest;
  }

  lemma LinesOfLine(l: string)
    requires NoNewline(l)
    ensures Lines(l + "\n") == [l]
  {
    LinesStep(l, "");
    assert l + "\n" + "" == l + "\n";
    assert Lines("") == [];
  }

  /** Whole lines that are not empty start with a line. */
  lemma SplitFirst(s: string) returns (l: string, rest: string)
    requires WholeLines(s) && s != ""
    ensures s == l + "\n" + rest && NoNewline(l) && WholeLines(rest)
  {
    var k := NewlineFrom(s, 0);
    assert s[|s| - 1] == '\n';
    l, rest := s[..k], s[k + 1..];
    assert s == s[..k] + [s[k]] + s[k + 1..];
    if rest != "" { assert rest[|rest| - 1] == s[|s| - 1]; }
  }

  lemma LinesAppendStep(l: string, rest: string, b: string)
    requires NoNewline(l) && Lines(rest + b) == Lines(rest) + Lines(b)
    ensures Lines(l + "\n" + rest + b) == Lines(l + "\n" + rest) + Lines(b)
  {
    Associative(l + "\n", rest, b);
    LinesStep(l, rest);
    LinesStep(l, rest + b);
    Associative([l], Lines(rest), Lines(b));
  }

  lemma {:induction false} LinesAppend(a: string, b: string)
    requires WholeLines(a)
    ensures Lines(a + b) == Lines(a) + Lines(b)
    decreases |a|
  {
    if a == "" {
      assert a + b == b;
      assert [] + Lines(b) == Lines(b);
    } else {
      var l, rest := SplitFirst(a);
      LinesAppend(rest, b);
      LinesAppendStep(l, rest, b);
    }
  }

  lemma LastOfMore(l: string, rest: string)
    requires NoNewline(l) && Lines(rest) != []
    ensures var lines := Lines(l + "\n" + rest);
      lines != [] && lines[|lines| - 1] == Lines(rest)[|Lines(rest)| - 1]
  {
    LinesStep(l, rest);
  }

  lemma {:induction false} LastLineOf(s: string) returns (pre: string, line: string)
    requires WholeLines(s) && s != ""
    ensures Lines(s) != [] && line == Lines(s)[|Lines(s)| - 1]
    ensures s == pre + line + "\n" && WholeLines(pre) && NoNewline(line)
    decreases |s|
  {
    var l, rest := SplitFirst(s);
    if rest == "" {
      pre, line := "", l;
      assert l + "\n" + "" == l + "\n" == "" + l + "\n";
      LinesOfLine(l);
    } else {
      var p;
      p, line := LastLineOf(rest);
      LastOfMore(l, rest);
      pre := l + "\n" + p;
      Associative(l + "\n", p + line, "\n");
      Associative(l + "\n", p, line);
      if p != "" { assert pre[|pre| - 1] == p[|p| - 1]; }
    }
  }

  function Trim(line: string): string {
    if line != "" && line[|line| - 1] == '\r' then line[..|line| - 1] else line
  }

  /** The non-empty lines VerifyChain looks at, without a trailing carriage return. */
  ghost function Records(lines: seq<string>): seq<string> {
    if lines == [] then []
    else (if Trim(lines[0]) == "" then [] else [Trim(lines[0])]) + Records(lines[1..])
  }

  // -------------------------------------------------------- verification

  /** `broken` is the 1-based number of the first bad line, 0 if there is none. */
  datatype Report = Report(lines: nat, chained: nat, unchained: nat, broken: nat)

  /** Line i is an object, does not drop the chain once it has begun, and links to the line before it. */
  ghost predicate LineOk(env: Env, records: seq<string>, expected: string, i: nat)
    requires i < |records|
  {
    match env.parse(records[i])
    case NotObject => false
    case Plain => i == 0 || !env.parse(records[i - 1]).Linked?
    case Linked(prev) =>
      if i == 0 then expected == "" || prev == expected else prev == env.hash(records[i - 1])
  }

  ghost predicate WellChained(env: Env, records: seq<string>, expected: string) {
    forall i :: 0 <= i < |records| ==> LineOk(env, records, expected, i)
  }

  /** The lines from u on carry a link, and those before are objects without one. */
  ghost predicate ChainedFrom(env: Env, records: seq<string>, u: nat) {
    u <= |records| && (forall i :: 0 <= i < u ==> env.parse(records[i]).Plain?) &&
    forall i :: u <= i < |records| ==> env.parse(records[i]).Linked?
  }

  /**
   Which sequences verify: every line is an object, from some line on all carry a link and before it none,
   and each link is the hash of the line before it, or what is expected for the first line, if anything.
   */
  lemma WellChainedExactly(env: Env, records: seq<string>, expected: string)
    ensures WellChained(env, records, expected) <==>
      (exists u: nat :: ChainedFrom(env, records, u)) &&
      (forall i :: 0 < i < |records| && env.parse(records[i]).Linked? ==>
        env.parse(records[i]).prev == env.hash(records[i - 1])) &&
      (expected != "" && records != [] && env.parse(records[0]).Linked? ==> env.parse(records[0]).prev == expected)
  {
    if WellChained(env, records, expected) {
      var u := LinkedStart(env, records, expected);
      forall i | 0 < i < |records| && env.parse(records[i]).Linked?
        ensures env.parse(records[i]).prev == env.hash(records[i - 1])
      {
        assert LineOk(env, records, expected, i);
      }
      if records != [] { assert LineOk(env, records, expected, 0); }
    }
  }

  lemma {:induction false} LinkedStart(env: Env, records: seq<string>, expected: string) returns (u: nat)
    requires WellChained(env, records, expected)
    ensures ChainedFrom(env, records, u)
  {
    if records == [] {
      u := 0;
    } else {
      var n := |records| - 1;
      assert forall i :: 0 <= i < n && LineOk(env, records, expected, i) ==> LineOk(env, records[..n], expected, i);
      u := LinkedStart(env, records[..n], expected);
      assert LineOk(env, records, expected, n);
      if env.parse(records[n]).Plain? { u := n + 1; }
    }
  }

  lemma {:induction false} RecordsOfMore(lines: seq<string>, line: string)
    ensures Records(lines + [line]) == Records(lines) + if Trim(line) == "" then [] else [Trim(line)]
  {
    if lines == [] {
      assert [] + [line] == [line] && [line][1..] == [];
    } else {
      RecordsOfMore(lines[1..], line);
      assert (lines + [line])[1..] == lines[1..] + [line];
      var head := if Trim(lines[0]) == "" then [] else [Trim(lines[0])];
      var last := if Trim(line) == "" then [] else [Trim(line)];
      assert head + (Records(lines[1..]) + last) == (head + Records(lines[1..])) + last;
    }
  }

  /** Reads the stream line by line, dropping carriage returns and skipping empty lines. */
  method ReadRecords(lines: seq<string>) returns (records: seq<string>)
    ensures records == Records(lines)
  {
    records := [];
    for k := 0 to |lines|
      invariant records == Records(lines[..k])
    {
      var line := Trim(lines[k]);
      assert lines[..k + 1] == lines[..k] + [lines[k]];
      RecordsOfMore(lines[..k], lines[k]);
      if line != "" { records := records + [line]; }
    }
    assert lines[..|lines|] == lines;
  }

  /** The three checks of one line, given what the pass remembers. */
  function Accepts(env: Env, line: string, havePrevious: bool, previous: string, seenChained: bool,
                   expected: string): bool
  {
    match env.parse(line)
    case NotObject => false
    case Plain => !seenChained
    case Linked(prev) =>
      var want := if havePrevious then env.hash(previous) else expected;
      want == "" || prev == want
  }

  lemma AcceptsIsLineOk(env: Env, records: seq<string>, expected: string, i: nat)
    requires i < |records| && forall l :: env.hash(l) != ""
    ensures Accepts(env, records[i], i > 0, if i > 0 then records[i - 1] else "",
                    i > 0 && env.parse(records[i - 1]).Linked?, expected) == LineOk(env, records, expected, i)
  {
  }

  function CountLinked(env: Env, records: seq<string>): (n: nat)
    ensures n <= |records|
  {
    if records == [] then 0
    else CountLinked(env, records[..|records| - 1]) + if env.parse(records[|records| - 1]).Linked? then 1 else 0
  }

  lemma LinkedMore(env: Env, records: seq<string>, i: nat)
    requires i < |records|
    ensures CountLinked(env, records[..i + 1]) ==
      CountLinked(env, records[..i]) + if env.parse(records[i]).Linked? then 1 else 0
  {
    assert records[..i + 1][..i] == records[..i];
  }

  /**
   One pass over the file, with the variables of VerifyChain; the report names the first bad line and
   counts the lines looked at, and the chained and unchained ones among the good.
   */
  method VerifyChain(env: Env, lines: seq<string>, expected: string) returns (r: Report)
    requires forall l :: env.hash(l) != ""
    ensures var records := Records(lines);
      if r.broken == 0 then
        WellChained(env, records, expected)
      else
        r.broken <= |records| && !LineOk(env, records, expected, r.broken - 1) &&
        forall i :: 0 <= i < r.broken - 1 ==> LineOk(env, records, expected, i)
    ensures var records := Records(lines);
      var passed := if r.broken == 0 then |records| else r.broken - 1;
      0 <= passed <= |records| && r.lines == (if r.broken == 0 then passed else r.broken) &&
      r.chained == CountLinked(env, records[..passed]) && r.unchained == passed - r.chained
  {
    hide LineOk, Records, CountLinked;
    var records := ReadRecords(lines);
    r := Report(0, 0, 0, 0);
    var previous, havePrevious, seenChained := "", false, false;
    for i := 0 to |records|
      invariant r.broken == 0 && r.lines == i == r.chained + r.unchained
      invariant r.chained == CountLinked(env, records[..i])
      invariant forall j :: 0 <= j < i ==> LineOk(env, records, expected, j)
      invariant havePrevious == (i > 0)
      invariant previous == if i > 0 then records[i - 1] else ""
      invariant seenChained == (i > 0 && env.parse(records[i - 1]).Linked?)
    {
      var line := records[i];
      LinkedMore(env, records, i);
      AcceptsIsLineOk(env, records, expected, i);
      r := r.(lines := r.lines + 1);
      if !Accepts(env, line, havePrevious, previous, seenChained, expected) {
        return r.(broken := r.lines);
      }
      if env.parse(line).Linked? {
        seenChained := true;
        r := r.(chained := r.chained + 1);
      } else {
        r := r.(unchained := r.unchained + 1);
      }
      previous := line;
      havePrevious := true;
    }
    assert records[..|records|] == records;
  }

  // ----------------------------------------------------- tamper evidence

  ghost predicate NoCollision(env: Env, a: seq<string>, b: seq<string>) {
    forall i, j :: 0 <= i < |a| && 0 <= j < |b| && env.hash(a[i]) == env.hash(b[j]) ==> a[i] == b[j]
  }

  /** Line k counted from the end. */
  function FromEnd(s: seq<string>, k: nat): string
    requires k < |s|
  {
    s[|s| - 1 - k]
  }

  /** Every link is the hash of the line before it; lines without a link may be anywhere. */
  ghost predicate Links(env: Env, records: seq<string>, expected: string) {
    forall i :: 0 <= i < |records| && env.parse(records[i]).Linked? ==> LineOk(env, records, expected, i)
  }

  ghost predicate LinkedFrom(env: Env, records: seq<string>, u: nat) {
    forall i :: u <= i < |records| ==> env.parse(records[i]).Linked?
  }

  lemma LinkToPrevious(env: Env, records: seq<string>, e: string, i: nat)
    requires Links(env, records, e) && 0 < i < |records| && env.parse(records[i]).Linked?
    ensures env.parse(records[i]).prev == env.hash(records[i - 1])
  {
    assert LineOk(env, records, e, i);
  }

  /**
   Two line sequences whose links are right and that end in the same line agree line for line going
   back, until one of them is exhausted or a line carries no link.
   */
  lemma {:induction false} AgreeBackwards(env: Env, a: seq<string>, b: seq<string>, e: string, f: string, k: nat)
    requires Links(env, a, e) && Links(env, b, f) && NoCollision(env, a, b)
    requires k < |a| && k < |b| && FromEnd(a, 0) == FromEnd(b, 0)
    requires forall j :: 0 <= j < k ==> env.parse(FromEnd(a, j)).Linked?
    ensures FromEnd(a, k) == FromEnd(b, k)
  {
    if k > 0 {
      hide Links;
      AgreeBackwards(env, a, b, e, f, k - 1);
      LinkToPrevious(env, a, e, |a| - k);
      LinkToPrevious(env, b, f, |b| - k);
    }
  }

  predicate IsSuffix(a: seq<string>, b: seq<string>) {
    |a| <= |b| && b[|b| - |a|..] == a
  }

  /** Lines put in front of a genesis line need a line that hashes to the genesis value. */
  lemma NothingBeforeGenesis(env: Env, log: seq<string>, other: seq<string>, e: string)
    requires WellChained(env, log, GENESIS) && WellChained(env, other, e) && NoCollision(env, log, other)
    requires log != [] && |other| > |log| && log[|log| - 1] == other[|other| - 1]
    requires forall i :: 0 <= i < |log| ==> env.parse(log[i]).Linked?
    ensures exists i :: 0 <= i < |other| && env.hash(other[i]) == GENESIS
  {
    AgreeBackwards(env, log, other, GENESIS, e, |log| - 1);
    assert LineOk(env, log, GENESIS, 0) && LineOk(env, other, e, |other| - |log|);
    assert env.hash(other[|other| - |log| - 1]) == GENESIS;
  }

  /** Once a verifying sequence has a link, every later line has one. */
  lemma {:induction false} StaysLinked(env: Env, records: seq<string>, e: string, u: nat, i: nat)
    requires WellChained(env, records, e) && u <= i < |records| && env.parse(records[u]).Linked?
    ensures env.parse(records[i]).Linked?
  {
    if u < i {
      StaysLinked(env, records, e, u, i - 1);
      assert LineOk(env, records, e, i);
    }
  }

  lemma LastLinesAgree(env: Env, log: seq<string>, other: seq<string>, e: string, f: string, u: nat, k: nat)
    requires Links(env, log, e) && Links(env, other, f) && NoCollision(env, log, other)
    requires u < |log| && LinkedFrom(env, log, u) && other != [] && log[|log| - 1] == other[|other| - 1]
    requires k <= |log| - u && k < |log| && k < |other|
    ensures FromEnd(log, k) == FromEnd(other, k)
  {
    AgreeBackwards(env, log, other, e, f, k);
  }

  /**
   `other` is a mere suffix of the log, or it has all of the log from u on, unchanged and with nothing
   inserted, and directly before it a line with the hash that u links to, which is the log's own line
   if it is still there.
   */
  ghost predicate KeepsFrom(env: Env, log: seq<string>, other: seq<string>, u: nat)
    requires u < |log|
  {
    if |other| <= |log| - u then IsSuffix(other, log)
    else
      var cut := |other| - (|log| - u);
      other[cut..] == log[u..] && env.parse(log[u]) == Linked(env.hash(other[cut - 1])) &&
      (u > 0 ==> other[cut - 1] == log[u - 1])
  }

  /** Two line sequences whose links are right and that end in the same line, and a linked end of the first. */
  ghost predicate SameEnd(env: Env, log: seq<string>, other: seq<string>, e: string, f: string, u: nat) {
    Links(env, log, e) && Links(env, other, f) && NoCollision(env, log, other) &&
    u < |log| && LinkedFrom(env, log, u) && other != [] && log[|log| - 1] == other[|other| - 1]
  }

  lemma ShortIsSuffix(env: Env, log: seq<string>, other: seq<string>, e: string, f: string, u: nat)
    requires SameEnd(env, log, other, e, f, u) && |other| <= |log| - u
    ensures IsSuffix(other, log)
  {
    hide Links, LinkedFrom, NoCollision;
    forall i | 0 <= i < |other| ensures other[i] == log[|log| - |other| + i] {
      LastLinesAgree(env, log, other, e, f, u, |other| - 1 - i);
    }
  }

  lemma LongHasEnd(env: Env, log: seq<string>, other: seq<string>, e: string, f: string, u: nat)
    requires SameEnd(env, log, other, e, f, u) && |other| > |log| - u
    ensures other[|other| - (|log| - u)..] == log[u..]
    ensures u > 0 ==> other[|other| - (|log| - u) - 1] == log[u - 1]
  {
    hide Links, LinkedFrom, NoCollision;
    var cut := |other| - (|log| - u);
    forall i | cut <= i < |other| ensures other[i] == log[i - cut + u] {
      LastLinesAgree(env, log, other, e, f, u, |other| - 1 - i);
    }
    if u > 0 { LastLinesAgree(env, log, other, e, f, u, |log| - u); }
  }

  lemma LinkedEndIsKept(env: Env, log: seq<string>, other: seq<string>, e: string, f: string, u: nat)
    requires SameEnd(env, log, other, e, f, u)
    ensures KeepsFrom(env, log, other, u)
  {
    hide NoCollision;
    if |other| <= |log| - u {
      ShortIsSuffix(env, log, other, e, f, u);
    } else {
      LongHasEnd(env, log, other, e, f, u);
      var cut := |other| - (|log| - u);
      assert other[cut] == other[cut..][0] == log[u..][0] == log[u];
      assert LineOk(env, other, f, cut);
    }
  }

  /**
   Tamper evidence: let `log` be a chained log from its genesis and `other` any lines that end in the
   log's untouched last line. If `other` verifies it is the log with, at most, whole lines cut off
   its front, and not even that if its first line must link to the genesis value: every edit,
   insertion or interior deletion is reported.
   */
  lemma TamperingIsReported(env: Env, log: seq<string>, other: seq<string>, e: string)
    requires WellChained(env, log, GENESIS) && NoCollision(env, log, other) && log != [] && other != []
    requires forall i :: 0 <= i < |log| ==> env.parse(log[i]).Linked? && env.hash(log[i]) != GENESIS
    requires forall i :: 0 <= i < |other| ==> env.hash(other[i]) != GENESIS
    requires log[|log| - 1] == other[|other| - 1]
    ensures WellChained(env, other, e) ==> IsSuffix(other, log) && (e == GENESIS ==> other == log)
  {
    if WellChained(env, other, e) {
      LinkedEndIsKept(env, log, other, GENESIS, e, 0);
      LinksAtEdges(env, log, other, e);
    }
  }

  /** A genesis line has nothing before it, and a later line of the log does not link to the genesis value. */
  lemma LinksAtEdges(env: Env, log: seq<string>, other: seq<string>, e: string)
    requires WellChained(env, log, GENESIS) && WellChained(env, other, e) && log != [] && other != []
    requires forall i :: 0 <= i < |log| ==> env.parse(log[i]).Linked? && env.hash(log[i]) != GENESIS
    requires forall i :: 0 <= i < |other| ==> env.hash(other[i]) != GENESIS
    requires KeepsFrom(env, log, other, 0)
    ensures IsSuffix(other, log) && (e == GENESIS ==> other == log)
  {
    assert LineOk(env, log, GENESIS, 0) && LineOk(env, other, e, 0);
    if |other| < |log| {
      var cut := |log| - |other|;
      assert other[0] == log[cut];
      assert LineOk(env, log, GENESIS, cut);
    }
  }

  /**
   Tamper evidence for one verifying line sequence, also one whose front was cut off or is from before
   chaining: if `other` ends in its untouched last line and verifies too, it keeps everything from any
   linked line u on. A walk over several files checks each of them as a sequence of its own; what that
   protects is in LogWalk.dfy.
   */
  lemma LinkedPartIsProtected(env: Env, log: seq<string>, other: seq<string>, e: string, f: string, u: nat)
    requires WellChained(env, log, e) && NoCollision(env, log, other) && u < |log| && env.parse(log[u]).Linked?
    requires other != [] && log[|log| - 1] == other[|other| - 1]
    ensures WellChained(env, other, f) ==> KeepsFrom(env, log, other, u)
  {
    if WellChained(env, other, f) {
      forall i | u <= i < |log| ensures env.parse(log[i]).Linked? {
        StaysLinked(env, log, e, u, i);
      }
      LinkedEndIsKept(env, log, other, e, f, u);
    }
  }

  // --------------------------------------------------- the head of the chain

  predicate IsBreak(c: char) {
    c == '\n' || c == '\r'
  }

  ghost function StripBreaks(s: string): string {
    if s != "" && IsBreak(s[|s| - 1]) then StripBreaks(s[..|s| - 1]) else s
  }

  ghost function AfterLastNewline(s: string): string {
    if s == "" || s[|s| - 1] == '\n' then "" else AfterLastNewline(s[..|s| - 1]) + [s[|s| - 1]]
  }

  /** The hash of the last line in the last 64 KiB of a file, or nothing if they hold only line breaks. */
  ghost function LastHash(env: Env, content: string): string {
    var tail := StripBreaks(if |content| > TAIL then content[|content| - TAIL..] else content);
    if tail == "" then "" else env.hash(AfterLastNewline(tail))
  }

  lemma {:induction false} AfterLastOf(pre: string, line: string)
    requires NoNewline(line) && (pre == "" || pre[|pre| - 1] == '\n')
    ensures AfterLastNewline(pre + line) == line
    decreases |line|
  {
    if line == "" {
      assert pre + line == pre;
    } else {
      var init, last := line[..|line| - 1], line[|line| - 1];
      AfterLastOf(pre, init);
      assert (pre + line)[..|pre + line| - 1] == pre + init;
      assert init + [last] == line;
    }
  }

  method AfterNewline(s: string) returns (line: string)
    ensures line == AfterLastNewline(s)
  {
    var nl := |s|;
    while nl > 0 && s[nl - 1] != '\n'
      invariant 0 <= nl <= |s| && NoNewline(s[nl..])
    {
      assert s[nl - 1..] == [s[nl - 1]] + s[nl..];
      nl := nl - 1;
    }
    line := s[nl..];
    AfterLastOf(s[..nl], line);
    assert s[..nl] + line == s;
  }

  /** A missing file is an empty one. */
  method LastLineHash(env: Env, content: string) returns (h: string)
    ensures h == LastHash(env, content)
  {
    var tail := if |content| > TAIL then content[|content| - TAIL..] else content;
    ghost var read := tail;
    while tail != "" && IsBreak(tail[|tail| - 1])
      invariant StripBreaks(tail) == StripBreaks(read)
      decreases |tail|
    {
      tail := tail[..|tail| - 1];
    }
    if tail == "" { return ""; }
    var line := AfterNewline(tail);
    h := env.hash(line);
  }

  /** The file is whole lines; `line` is the last of them, not empty and without a carriage return. */
  ghost predicate IsLastLine(content: string, pre: string, line: string) {
    content == pre + line + "\n" && (pre == "" || pre[|pre| - 1] == '\n') &&
    line != "" && NoNewline(line) && line[|line| - 1] != '\r'
  }

  lemma LastOfTail(env: Env, p: string, kept: string)
    requires kept != "" && NoNewline(kept) && kept[|kept| - 1] != '\r'
    requires p == "" || p[|p| - 1] == '\n'
    ensures StripBreaks(p + kept + "\n") == p + kept && AfterLastNewline(p + kept) == kept
  {
    var tail := p + kept + "\n";
    assert tail[..|tail| - 1] == p + kept;
    assert (p + kept)[|p + kept| - 1] == kept[|kept| - 1];
    AfterLastOf(p, kept);
  }

  lemma ReadTail(env: Env, content: string, p: string, kept: string)
    requires kept != "" && NoNewline(kept) && kept[|kept| - 1] != '\r' && WholeLines(p)
    requires p + kept + "\n" == if |content| > TAIL then content[|content| - TAIL..] else content
    ensures LastHash(env, content) == env.hash(kept)
  {
    LastOfTail(env, p, kept);
    assert p + kept != "";
  }

  lemma TailOfLongLine(env: Env, pre: string, line: string)
    requires IsLastLine(pre + line + "\n", pre, line) && |line| >= TAIL
    ensures LastHash(env, pre + line + "\n") == env.hash(line[|line| - (TAIL - 1)..])
  {
    var kept := line[|line| - (TAIL - 1)..];
    assert kept[|kept| - 1] == line[|line| - 1];
    ReadTail(env, pre + line + "\n", "", kept);
  }

  lemma TailOfShortLine(env: Env, pre: string, line: string)
    requires IsLastLine(pre + line + "\n", pre, line) && |line| < TAIL
    ensures LastHash(env, pre + line + "\n") == env.hash(line)
  {
    var content := pre + line + "\n";
    if |content| <= TAIL {
      ReadTail(env, content, pre, line);
    } else {
      var d := |content| - TAIL;
      ReadTail(env, content, pre[d..], line);
    }
  }

  lemma TailOfFile(env: Env, content: string, pre: string, line: string)
    requires IsLastLine(content, pre, line)
    ensures LastHash(env, content) == env.hash(if |line| < TAIL then line else line[|line| - (TAIL - 1)..])
  {
    if |line| < TAIL { TailOfShortLine(env, pre, line); } else { TailOfLongLine(env, pre, line); }
  }

  /** The head read back from a file is the hash of its last line exactly when that line is under 64 KiB. */
  lemma HeadIsLastLineExactly(env: Env, content: string, pre: string, line: string)
    requires IsLastLine(content, pre, line)
    requires NoCollision(env, [line], [line[if |line| < TAIL then 0 else |line| - (TAIL - 1)..]])
    ensures LastHash(env, content) == env.hash(line) <==> |line| < TAIL
  {
    TailOfFile(env, content, pre, line);
    var kept := line[if |line| < TAIL then 0 else |line| - (TAIL - 1)..];
    if |line| >= TAIL {
      assert [line][0] == line && [kept][0] == kept;
    }
  }
}
