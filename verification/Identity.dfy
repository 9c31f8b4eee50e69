/**
 The identity filter (ProcessIdentity.cpp): processes whose name is pinned get no role unless their
 image path and signer match, and the check is cached by pid and start time. Names, paths and
 publishers are compared without regard to case, so they are kept folded here.
 */
module Identity {
  import opened OsControl

  datatype Expected = Expected(path: string, publisher: string)
  datatype Observed = Observed(path: string, publisher: string)
  datatype Reason = Match | PathUnreadable | WrongPath | NotSigned | WrongPublisher
  datatype Process = Process(pid: Pid, name: string)
  datatype Rejection = Rejection(entry: Process, observed: Observed, reason: Reason)
  datatype Cached = Cached(startTime: nat, ok: bool)

  /** What the OS says at one moment: start times (0 if unreadable), image paths, and signers of files. */
  datatype Facts = Facts(start: Pid -> nat, path: Pid -> string, publisher: string -> string)

  type Pins = map<string, Expected>
  type Cache = map<Pid, Cached>

  function IdentityMismatch(want: Expected, got: Observed): Reason {
    if want.path != "" && got.path == "" then PathUnreadable
    else if want.path != "" && want.path != got.path then WrongPath
    else if want.publisher != "" && got.publisher == "" then NotSigned
    else if want.publisher != "" && want.publisher != got.publisher then WrongPublisher
    else Match
  }

  /** Nothing pinned is violated, and what is not pinned is not looked at. */
  lemma MatchMeans(want: Expected, got: Observed)
    ensures IdentityMismatch(want, got).Match? <==>
            (want.path == "" || want.path == got.path) && (want.publisher == "" || want.publisher == got.publisher)
  {
  }

  /** Why a process does not match: the path is looked at first, and what cannot be read is told from what differs. */
  lemma ReasonExactly(want: Expected, got: Observed)
    ensures var reason := IdentityMismatch(want, got);
      var pathOk := want.path == "" || got.path == want.path;
      (reason.PathUnreadable? <==> !pathOk && got.path == "") &&
      (reason.WrongPath? <==> !pathOk && got.path != "") &&
      (reason.NotSigned? <==>
       pathOk && got.publisher != want.publisher && want.publisher != "" && got.publisher == "") &&
      (reason.WrongPublisher? <==>
       pathOk && got.publisher != want.publisher && want.publisher != "" && got.publisher != "")
  {
  }

  /** The signer is only looked up if it is pinned. */
  function Look(want: Expected, f: Facts, pid: Pid): Observed {
    Observed(f.path(pid), if want.publisher != "" then f.publisher(f.path(pid)) else "")
  }

  // ------------------------------------------------------------ one snapshot

  /** The variables of the loop over the snapshot. */
  datatype Scan = Scan(out: seq<Process>, rejected: seq<Rejection>, cache: Cache, seen: Cache)

  predicate Fresh(cache: Cache, f: Facts, pid: Pid) {
    pid !in cache || cache[pid].startTime != f.start(pid)
  }

  function Checked(want: Expected, f: Facts, pid: Pid): Cached {
    Cached(f.start(pid), IdentityMismatch(want, Look(want, f, pid)).Match?)
  }

  function Visit(pins: Pins, s: Scan, f: Facts, e: Process): Scan {
    if e.name !in pins then s.(out := s.out + [e])
    else
      var want := pins[e.name];
      var c := if Fresh(s.cache, f, e.pid) then Checked(want, f, e.pid) else s.cache[e.pid];
      var got := Look(want, f, e.pid);
      Scan(if c.ok then s.out + [e] else s.out,
           if Fresh(s.cache, f, e.pid) && !c.ok then s.rejected + [Rejection(e, got, IdentityMismatch(want, got))]
             else s.rejected,
           s.cache[e.pid := c], s.seen[e.pid := c])
  }

  function Scanned(pins: Pins, cache: Cache, snapshot: seq<Process>, f: Facts): Scan {
    if snapshot == [] then Scan([], [], cache, map[])
    else Visit(pins, Scanned(pins, cache, snapshot[..|snapshot| - 1], f), f, snapshot[|snapshot| - 1])
  }

  /** What is reported is a process of the snapshot, with what was observed of it, and truly differs from its pins. */
  lemma {:induction false} RejectionsAreRight(pins: Pins, cache: Cache, snapshot: seq<Process>, f: Facts, r: Rejection)
    requires r in Scanned(pins, cache, snapshot, f).rejected
    ensures r.entry in snapshot && r.entry.name in pins && !r.reason.Match? &&
      var want := pins[r.entry.name];
      r.observed.path == f.path(r.entry.pid) &&
      r.observed.publisher == (if want.publisher == "" then "" else f.publisher(f.path(r.entry.pid))) &&
      r.reason == IdentityMismatch(want, r.observed)
  {
    if snapshot != [] {
      var init, e := snapshot[..|snapshot| - 1], snapshot[|snapshot| - 1];
      assert snapshot == init + [e];
      if r in Scanned(pins, cache, init, f).rejected { RejectionsAreRight(pins, cache, init, f, r); }
    }
  }

  // ------------------------------------------------------------- the code

  class IdentityFilter {
    var expected: Pins
    var cache: Cache

    constructor ()
      ensures expected == map[] && cache == map[]
    {
      expected, cache := map[], map[];
    }

    method SetExpected(pins: Pins)
      modifies this
      ensures expected == pins && cache == map[]
    {
      expected, cache := pins, map[];
    }

    /** The filtered snapshot, and the newly rejected processes; what the snapshot no longer holds is forgotten. */
    method Filter(snapshot: seq<Process>, f: Facts) returns (out: seq<Process>, rejected: seq<Rejection>)
      modifies this`cache
      ensures var s := Scanned(expected, old(cache), snapshot, f);
        if expected == map[] then out == snapshot && rejected == [] && cache == old(cache)
        else out == s.out && rejected == s.rejected && cache == s.seen
    {
      rejected := [];
      if expected == map[] { return snapshot, []; }
      out := [];
      var seen: Cache := map[];
      assert snapshot[..0] == [];
      for i := 0 to |snapshot|
        invariant Scan(out, rejected, cache, seen) == Scanned(expected, old(cache), snapshot[..i], f)
      {
        var e := snapshot[i];
        assert snapshot[..i + 1][..i] == snapshot[..i];
        if e.name !in expected {
          out := out + [e];
          continue;
        }
        var want, start := expected[e.name], f.start(e.pid);
        if e.pid !in cache || cache[e.pid].startTime != start {
          var got := Observed(f.path(e.pid), "");
          if want.publisher != "" { got := got.(publisher := f.publisher(got.path)); }
          var reason := IdentityMismatch(want, got);
          if !reason.Match? { rejected := rejected + [Rejection(e, got, reason)]; }
          cache := cache[e.pid := Cached(start, reason.Match?)];
        } else {
          assert cache[e.pid := cache[e.pid]] == cache;
        }
        seen := seen[e.pid := cache[e.pid]];
        if cache[e.pid].ok { out := out + [e]; }
      }
      assert snapshot[..|snapshot|] == snapshot;
      cache := seen;
    }
  }

  // --------------------------------------------------- the check, uncached

  /** Every time anew: not pinned, or it matches. */
  predicate Genuine(pins: Pins, f: Facts, e: Process) {
    e.name in pins ==> IdentityMismatch(pins[e.name], Look(pins[e.name], f, e.pid)).Match?
  }

  function Kept(pins: Pins, snapshot: seq<Process>, f: Facts): seq<Process> {
    if snapshot == [] then []
    else
      var init, e := snapshot[..|snapshot| - 1], snapshot[|snapshot| - 1];
      Kept(pins, init, f) + if Genuine(pins, f, e) then [e] else []
  }

  /** What is behind a pid and a start time: the name, the image path, and its signer. */
  datatype Who = Who(name: string, path: string, publisher: string)

  function WhoIs(e: Process, f: Facts): Who {
    Who(e.name, f.path(e.pid), f.publisher(f.path(e.pid)))
  }

  /** (pid, start time) determines the process. */
  ghost predicate Determined(who: (Pid, nat) -> Who, snapshot: seq<Process>, f: Facts) {
    forall e :: e in snapshot ==> who(e.pid, f.start(e.pid)) == WhoIs(e, f)
  }

  predicate Approved(pins: Pins, w: Who) {
    w.name in pins &&
    IdentityMismatch(pins[w.name], Observed(w.path, if pins[w.name].publisher != "" then w.publisher else "")).Match?
  }

  /** What is cached for a process is what the check would say. */
  ghost predicate Faithful(pins: Pins, cache: Cache, who: (Pid, nat) -> Who) {
    forall pid :: pid in cache ==>
      (var w := who(pid, cache[pid].startTime); w.name in pins && (cache[pid].ok <==> Approved(pins, w)))
  }

  lemma {:induction false} ScanIsFaithful(pins: Pins, cache: Cache, snapshot: seq<Process>, f: Facts,
                                          who: (Pid, nat) -> Who)
    requires Faithful(pins, cache, who) && Determined(who, snapshot, f)
    ensures var s := Scanned(pins, cache, snapshot, f);
      Faithful(pins, s.cache, who) && Faithful(pins, s.seen, who) && s.out == Kept(pins, snapshot, f)
  {
    if snapshot != [] {
      var init, e := snapshot[..|snapshot| - 1], snapshot[|snapshot| - 1];
      assert snapshot == init + [e];
      assert e in snapshot;
      ScanIsFaithful(pins, cache, init, f, who);
    }
  }

  // ------------------------------------------------------------- whole runs

  datatype Event = Pin(pins: Pins) | Poll(snapshot: seq<Process>, facts: Facts)

  datatype State = State(pins: Pins, cache: Cache)

  function Apply(s: State, e: Event): State {
    match e
    case Pin(pins) => State(pins, map[])
    case Poll(snapshot, f) => if s.pins == map[] then s else s.(cache := Scanned(s.pins, s.cache, snapshot, f).seen)
  }

  function Exec(events: seq<Event>): State {
    if events == [] then State(map[], map[]) else Apply(Exec(events[..|events| - 1]), events[|events| - 1])
  }

  function Output(s: State, snapshot: seq<Process>, f: Facts): seq<Process> {
    if s.pins == map[] then snapshot else Scanned(s.pins, s.cache, snapshot, f).out
  }

  ghost predicate AllDetermined(who: (Pid, nat) -> Who, events: seq<Event>) {
    forall i :: 0 <= i < |events| && events[i].Poll? ==> Determined(who, events[i].snapshot, events[i].facts)
  }

  lemma {:induction false} CacheIsFaithful(who: (Pid, nat) -> Who, events: seq<Event>)
    requires AllDetermined(who, events)
    ensures Faithful(Exec(events).pins, Exec(events).cache, who)
  {
    if events != [] {
      var init, e := events[..|events| - 1], events[|events| - 1];
      CacheIsFaithful(who, init);
      if e.Poll? { ScanIsFaithful(Exec(init).pins, Exec(init).cache, e.snapshot, e.facts, who); }
    }
  }

  lemma {:induction false} NothingPinned(snapshot: seq<Process>, f: Facts)
    ensures Kept(map[], snapshot, f) == snapshot
  {
    if snapshot != [] { NothingPinned(snapshot[..|snapshot| - 1], f); }
  }

  /**
   The cache changes nothing: if pid and start time determine a process, then after any sequence of
   snapshots and new pins the filter returns exactly what the uncached check would keep, in order.
   */
  lemma CacheRefinesCheck(who: (Pid, nat) -> Who, events: seq<Event>, snapshot: seq<Process>, f: Facts)
    requires AllDetermined(who, events) && Determined(who, snapshot, f)
    ensures Output(Exec(events), snapshot, f) == Kept(Exec(events).pins, snapshot, f)
  {
    CacheIsFaithful(who, events);
    var s := Exec(events);
    if s.pins == map[] { NothingPinned(snapshot, f); } else { ScanIsFaithful(s.pins, s.cache, snapshot, f, who); }
  }

  /** The filter's answer for a process that is looked at after another one with the same pid and start time. */
  function Second(pins: Pins, e: Process, f: Facts, e': Process, g: Facts): seq<Process> {
    Output(Exec([Pin(pins), Poll([e], f)]), [e'], g)
  }

  /** Is the second process answered as the uncached check would answer? */
  ghost predicate Agrees(pins: Pins, e: Process, f: Facts, e': Process, g: Facts) {
    Second(pins, e, f, e', g) == Kept(pins, [e'], g)
  }

  lemma ScanOne(pins: Pins, cache: Cache, e: Process, f: Facts)
    ensures Scanned(pins, cache, [e], f) == Visit(pins, Scan([], [], cache, map[]), f, e)
    ensures Kept(pins, [e], f) == if Genuine(pins, f, e) then [e] else []
  {
    assert [e][..0] == [];
    assert Kept(pins, [e], f) == Kept(pins, [e][..0], f) + if Genuine(pins, f, e) then [e] else [];
  }

  /** If both names are pinned the second process gets the answer of the first. */
  lemma SecondGetsFirstAnswer(pins: Pins, e: Process, f: Facts, e': Process, g: Facts)
    requires e.pid == e'.pid && f.start(e.pid) == g.start(e.pid) && e.name in pins && e'.name in pins
    ensures Second(pins, e, f, e', g) == if Genuine(pins, f, e) then [e'] else []
    ensures Agrees(pins, e, f, e', g) <==> (Genuine(pins, f, e) <==> Genuine(pins, g, e'))
  {
    hide IdentityMismatch;
    var events := [Pin(pins), Poll([e], f)];
    assert events[..1] == [Pin(pins)] && [Pin(pins)][..0] == [];
    assert Exec([Pin(pins)]) == State(pins, map[]);
    ScanOne(pins, map[], e, f);
    var cache := map[e.pid := Checked(pins[e.name], f, e.pid)];
    assert Exec(events) == State(pins, cache);
    ScanOne(pins, cache, e', g);
  }

  /** Pins that the first process meets and the second does not, or the other way round. */
  function TellApart(e: Process, f: Facts, e': Process, g: Facts): Pins {
    var p, q := WhoIs(e, f), WhoIs(e', g);
    if p.name != q.name then map[p.name := Expected("", ""), q.name := Expected(q.path + "x", "")]
    else if p.path != q.path then map[p.name := Expected(if p.path != "" then p.path else q.path, "")]
    else map[p.name := Expected("", if p.publisher != "" then p.publisher else q.publisher)]
  }

  lemma DifferentAreToldApart(e: Process, f: Facts, e': Process, g: Facts)
    requires e.pid == e'.pid && f.start(e.pid) == g.start(e.pid) && WhoIs(e, f) != WhoIs(e', g)
    ensures !Agrees(TellApart(e, f, e', g), e, f, e', g)
  {
    var pins := TellApart(e, f, e', g);
    var q := WhoIs(e', g);
    assert |q.path + "x"| == |q.path| + 1;
    SecondGetsFirstAnswer(pins, e, f, e', g);
  }

  lemma SameIsAnsweredRight(pins: Pins, e: Process, f: Facts, e': Process, g: Facts)
    requires e.pid == e'.pid && f.start(e.pid) == g.start(e.pid) && WhoIs(e, f) == WhoIs(e', g)
    ensures Agrees(pins, e, f, e', g)
  {
    hide Scanned, Kept, Output, IdentityMismatch;
    var events := [Pin(pins), Poll([e], f)];
    var who := (pid: Pid, start: nat) => WhoIs(e, f);
    CacheRefinesCheck(who, events, [e'], g);
    assert events[..1] == [Pin(pins)] && Exec(events).pins == pins;
  }

  /**
   The exact condition: for a pid that is seen again with the same start time, the cached answer is the
   right one under all pins if and only if it is the same process, in name, image path and signer.
   */
  lemma CacheIsRightExactly(e: Process, f: Facts, e': Process, g: Facts)
    requires e.pid == e'.pid && f.start(e.pid) == g.start(e.pid)
    ensures (forall pins :: Agrees(pins, e, f, e', g)) <==> WhoIs(e, f) == WhoIs(e', g)
  {
    if WhoIs(e, f) == WhoIs(e', g) {
      forall pins ensures Agrees(pins, e, f, e', g) {
        SameIsAnsweredRight(pins, e, f, e', g);
      }
    } else {
      DifferentAreToldApart(e, f, e', g);
    }
  }

  /**
   An unreadable start time is always 0: whenever such a pid is used again by another process, some
   pins are answered wrongly.
   */
  lemma UnreadableStartIsNotEnough(e: Process, f: Facts, e': Process, g: Facts)
    requires e.pid == e'.pid && f.start(e.pid) == 0 == g.start(e.pid) && WhoIs(e, f) != WhoIs(e', g)
    ensures exists pins :: !Agrees(pins, e, f, e', g)
  {
    DifferentAreToldApart(e, f, e', g);
  }

  // ------------------------------------------------- impostors are told once

  ghost predicate DistinctPids(snapshot: seq<Process>) {
    forall i, j :: 0 <= i < j < |snapshot| ==> snapshot[i].pid != snapshot[j].pid
  }

  /** Reports of one pid among the rejections. */
  function Reports(rejected: seq<Rejection>, pid: Pid): nat {
    if rejected == [] then 0
    else Reports(rejected[..|rejected| - 1], pid) + if rejected[|rejected| - 1].entry.pid == pid then 1 else 0
  }

  lemma {:induction false} AbsentIsNotReported(pins: Pins, cache: Cache, snapshot: seq<Process>, f: Facts, pid: Pid)
    requires forall e :: e in snapshot && e.pid == pid ==> e.name !in pins
    ensures var s := Scanned(pins, cache, snapshot, f);
      Reports(s.rejected, pid) == 0 && pid !in s.seen && (pid in s.cache <==> pid in cache) &&
      (pid in cache ==> s.cache[pid] == cache[pid])
  {
    if snapshot != [] {
      var init, e := snapshot[..|snapshot| - 1], snapshot[|snapshot| - 1];
      assert snapshot == init + [e];
      AbsentIsNotReported(pins, cache, init, f, pid);
    }
  }

  /** In one snapshot a pinned process is reported exactly if it fails its check now, and it is remembered. */
  lemma {:induction false} ReportedExactly(pins: Pins, cache: Cache, snapshot: seq<Process>, f: Facts, e: Process)
    requires DistinctPids(snapshot) && e in snapshot && e.name in pins
    ensures var s := Scanned(pins, cache, snapshot, f);
      Reports(s.rejected, e.pid) == (if Fresh(cache, f, e.pid) && !Genuine(pins, f, e) then 1 else 0) &&
      e.pid in s.seen && !Fresh(s.seen, f, e.pid)
  {
    var init, last := snapshot[..|snapshot| - 1], snapshot[|snapshot| - 1];
    assert snapshot == init + [last];
    var s := Scanned(pins, cache, init, f);
    var r := if last.name in pins
             then Rejection(last, Look(pins[last.name], f, last.pid),
               IdentityMismatch(pins[last.name], Look(pins[last.name], f, last.pid)))
             else Rejection(last, Observed("", ""), Match);
    if e == last {
      AbsentIsNotReported(pins, cache, init, f, e.pid);
    } else {
      assert e in init;
      ReportedExactly(pins, cache, init, f, e);
      assert last.pid != e.pid by { SamePlace(snapshot, e); }
    }
  }

  lemma SamePlace(snapshot: seq<Process>, e: Process)
    requires DistinctPids(snapshot) && e in snapshot && e != snapshot[|snapshot| - 1]
    ensures snapshot[|snapshot| - 1].pid != e.pid
  {
    var i :| 0 <= i < |snapshot| && snapshot[i] == e;
  }

  datatype Round = Round(snapshot: seq<Process>, facts: Facts)

  /** The process is in the snapshot, and is the same process. */
  ghost predicate Holds(r: Round, e: Process, start: nat) {
    DistinctPids(r.snapshot) && e in r.snapshot && r.facts.start(e.pid) == start
  }

  function CacheAfter(pins: Pins, cache: Cache, rounds: seq<Round>): Cache {
    if rounds == [] then cache
    else
      var last := rounds[|rounds| - 1];
      Scanned(pins, CacheAfter(pins, cache, rounds[..|rounds| - 1]), last.snapshot, last.facts).seen
  }

  function TimesReported(pins: Pins, cache: Cache, rounds: seq<Round>, pid: Pid): nat {
    if rounds == [] then 0
    else
      var init, last := rounds[..|rounds| - 1], rounds[|rounds| - 1];
      TimesReported(pins, cache, init, pid) +
      Reports(Scanned(pins, CacheAfter(pins, cache, init), last.snapshot, last.facts).rejected, pid)
  }

  /**
   While it stays in consecutive snapshots a pinned process is reported once if it was an impostor at
   first, and never otherwise.
   */
  lemma {:induction false} ReportedOnce(pins: Pins, cache: Cache, rounds: seq<Round>, e: Process, start: nat)
    requires rounds != [] && e.name in pins && Fresh(cache, rounds[0].facts, e.pid)
    requires forall i :: 0 <= i < |rounds| ==> Holds(rounds[i], e, start)
    ensures TimesReported(pins, cache, rounds, e.pid) == if Genuine(pins, rounds[0].facts, e) then 0 else 1
    ensures var after := CacheAfter(pins, cache, rounds); e.pid in after && after[e.pid].startTime == start
  {
    var init, last := rounds[..|rounds| - 1], rounds[|rounds| - 1];
    assert Holds(last, e, start);
    ReportedExactly(pins, CacheAfter(pins, cache, init), last.snapshot, last.facts, e);
    if init == [] {
      assert CacheAfter(pins, cache, init) == cache && TimesReported(pins, cache, init, e.pid) == 0;
    } else {
      assert forall i :: 0 <= i < |init| ==> init[i] == rounds[i];
      ReportedOnce(pins, cache, init, e, start);
    }
  }

  /** A pinned process with this pid and start time is in the snapshot. */
  ghost predicate Present(pins: Pins, r: Round, pid: Pid, start: nat) {
    r.facts.start(pid) == start && exists e :: e in r.snapshot && e.pid == pid && e.name in pins
  }

  ghost predicate HoldsImpostor(pins: Pins, r: Round, pid: Pid) {
    exists e :: e in r.snapshot && e.pid == pid && !Genuine(pins, r.facts, e)
  }

  /** The process was there, with this start time, when the filter last looked. */
  ghost predicate Remembered(pins: Pins, cache: Cache, rounds: seq<Round>, pid: Pid, start: nat) {
    if rounds == [] then pid in cache && cache[pid].startTime == start
    else Present(pins, rounds[|rounds| - 1], pid, start)
  }

  /** How often an impostor with this pid shows up that was not there in the round before. */
  ghost function Arrivals(pins: Pins, cache: Cache, rounds: seq<Round>, pid: Pid): nat {
    if rounds == [] then 0
    else
      var init, last := rounds[..|rounds| - 1], rounds[|rounds| - 1];
      Arrivals(pins, cache, init, pid) +
      if HoldsImpostor(pins, last, pid) && !Remembered(pins, cache, init, pid, last.facts.start(pid)) then 1 else 0
  }

  lemma RoundReports(pins: Pins, cache: Cache, r: Round, pid: Pid)
    requires DistinctPids(r.snapshot)
    ensures var s := Scanned(pins, cache, r.snapshot, r.facts);
      Reports(s.rejected, pid) == (if HoldsImpostor(pins, r, pid) && Fresh(cache, r.facts, pid) then 1 else 0) &&
      forall start :: pid in s.seen && s.seen[pid].startTime == start <==> Present(pins, r, pid, start)
  {
    if e :| e in r.snapshot && e.pid == pid && e.name in pins {
      ReportedExactly(pins, cache, r.snapshot, r.facts, e);
      forall d | d in r.snapshot && d.pid == pid ensures d == e {
        OnePerPid(r.snapshot, d, e);
      }
    } else {
      AbsentIsNotReported(pins, cache, r.snapshot, r.facts, pid);
    }
  }

  lemma OnePerPid(snapshot: seq<Process>, d: Process, e: Process)
    requires DistinctPids(snapshot) && d in snapshot && e in snapshot && d.pid == e.pid
    ensures d == e
  {
    var i :| 0 <= i < |snapshot| && snapshot[i] == d;
    var j :| 0 <= j < |snapshot| && snapshot[j] == e;
    assert i == j;
  }

  /** Over any snapshots a pid is reported exactly as often as an impostor shows up under it anew. */
  lemma {:induction false} ReportsAreArrivals(pins: Pins, cache: Cache, rounds: seq<Round>, pid: Pid)
    requires forall i :: 0 <= i < |rounds| ==> DistinctPids(rounds[i].snapshot)
    ensures TimesReported(pins, cache, rounds, pid) == Arrivals(pins, cache, rounds, pid)
    ensures forall start :: Remembered(pins, cache, rounds, pid, start) <==>
      pid in CacheAfter(pins, cache, rounds) && CacheAfter(pins, cache, rounds)[pid].startTime == start
  {
    if rounds != [] {
      var init, last := rounds[..|rounds| - 1], rounds[|rounds| - 1];
      ReportsAreArrivals(pins, cache, init, pid);
      RoundReports(pins, CacheAfter(pins, cache, init), last, pid);
    }
  }

  /** So it is reported again when it leaves the snapshots and comes back. */
  lemma ReportedTwice(pins: Pins, e: Process, f: Facts)
    requires !Genuine(pins, f, e)
    ensures TimesReported(pins, map[], [Round([e], f), Round([], f), Round([e], f)], e.pid) == 2
  {
    var present, absent := Round([e], f), Round([], f);
    ReportsAreArrivals(pins, map[], [present, absent, present], e.pid);
    assert e in present.snapshot;
    assert [present, absent, present][..2] == [present, absent];
    assert [present, absent][..1] == [present] && [present][..0] == [];
    assert HoldsImpostor(pins, present, e.pid) && !HoldsImpostor(pins, absent, e.pid);
    assert Arrivals(pins, map[], [present], e.pid) == 1;
    assert Arrivals(pins, map[], [present, absent], e.pid) == 1;
  }
}
