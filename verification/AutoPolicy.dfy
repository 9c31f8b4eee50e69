/**
 The decisions of auto-protect (AutoProtectPolicy.h): the level of protection for the whole machine,
 and which processes are chosen.
 */
module AutoPolicy {
  import opened OsControl
  import opened Samples

  datatype Settings = Settings(enabled: bool, throttlePercent: real, throttleSamples: int, useIdle: bool,
                               idlePercent: real, idleSamples: int, recoverPercent: real, recoverSamples: int,
                               maxProcesses: int, minProcessCpuPercent: real)

  datatype Level = NormalLevel | ThrottleLevel | IdleLevel

  datatype LevelState = LevelState(level: Level, high: nat, extreme: nat, low: nat)

  const CALM := LevelState(NormalLevel, 0, 0, 0)

  function Updated(l: LevelState, cpu: real, s: Settings): LevelState {
    var high := if cpu >= s.throttlePercent then l.high + 1 else 0;
    var extreme := if cpu >= s.idlePercent then l.extreme + 1 else 0;
    var low := if cpu < s.recoverPercent then l.low + 1 else 0;
    var level :=
      if l.level.NormalLevel? && high >= s.throttleSamples then ThrottleLevel
      else if l.level.ThrottleLevel? && s.useIdle && extreme >= s.idleSamples then IdleLevel
      else if !l.level.NormalLevel? && low >= s.recoverSamples then NormalLevel
      else l.level;
    LevelState(level, high, extreme, low)
  }

  class AutoProtectState {
    var level: Level
    var high: nat
    var extreme: nat
    var low: nat

    function Abs(): LevelState
      reads this
    {
      LevelState(level, high, extreme, low)
    }

    constructor ()
      ensures Abs() == CALM
    {
      level, high, extreme, low := NormalLevel, 0, 0, 0;
    }

    method Update(cpu: real, s: Settings) returns (r: Level)
      modifies this
      ensures Abs() == Updated(old(Abs()), cpu, s) && r == level
    {
      high := if cpu >= s.throttlePercent then high + 1 else 0;
      extreme := if cpu >= s.idlePercent then extreme + 1 else 0;
      low := if cpu < s.recoverPercent then low + 1 else 0;
      if level.NormalLevel? && high >= s.throttleSamples {
        level := ThrottleLevel;
      } else if level.ThrottleLevel? && s.useIdle && extreme >= s.idleSamples {
        level := IdleLevel;
      } else if !level.NormalLevel? && low >= s.recoverSamples {
        level := NormalLevel;
      }
      r := level;
    }

    method Reset()
      modifies this
      ensures Abs() == CALM
    {
      level, high, extreme, low := NormalLevel, 0, 0, 0;
    }
  }

  function LevelAfter(s: Settings, samples: seq<real>): LevelState {
    if samples == [] then CALM else Updated(LevelAfter(s, samples[..|samples| - 1]), samples[|samples| - 1], s)
  }

  /** The counters are the lengths of the streaks of system load up to now, whatever the level did. */
  lemma {:induction false} CountersAreStreaks(s: Settings, samples: seq<real>)
    ensures var l := LevelAfter(s, samples);
      l.high == TrailingAtLeast(samples, s.throttlePercent) && l.extreme == TrailingAtLeast(samples, s.idlePercent) &&
      l.low == TrailingBelow(samples, s.recoverPercent)
  {
    if samples != [] { CountersAreStreaks(s, samples[..|samples| - 1]); }
  }

  /**
   Protection starts exactly when the load has been high for its number of samples, sinks to idle
   priority only after an extreme streak, and ends exactly when the load has been low for long enough.
   */
  lemma LevelMovesOnStreaks(s: Settings, samples: seq<real>, cpu: real)
    requires s.recoverPercent <= s.throttlePercent <= s.idlePercent
    requires s.throttleSamples >= 1 && s.idleSamples >= 1 && s.recoverSamples >= 1
    ensures var from, to, all := LevelAfter(s, samples).level, LevelAfter(s, samples + [cpu]).level, samples + [cpu];
      (from.NormalLevel? ==>
        (to.ThrottleLevel? <==> TrailingAtLeast(all, s.throttlePercent) >= s.throttleSamples) && !to.IdleLevel?) &&
      (from.ThrottleLevel? ==>
        (to.IdleLevel? <==> s.useIdle && TrailingAtLeast(all, s.idlePercent) >= s.idleSamples)) &&
      (!from.NormalLevel? ==> (to.NormalLevel? <==> TrailingBelow(all, s.recoverPercent) >= s.recoverSamples)) &&
      (from.IdleLevel? ==> !to.ThrottleLevel?)
  {
    var all := samples + [cpu];
    assert all[..|all| - 1] == samples;
    CountersAreStreaks(s, samples);
    CountersAreStreaks(s, all);
  }

  /** The same for all settings, by the readings themselves. */
  lemma LevelMovesExactly(s: Settings, samples: seq<real>, cpu: real)
    ensures var from, to, all := LevelAfter(s, samples).level, LevelAfter(s, samples + [cpu]).level, samples + [cpu];
      to ==
      if from.NormalLevel? && LastAtLeast(all, s.throttleSamples, s.throttlePercent) then ThrottleLevel
      else if from.ThrottleLevel? && s.useIdle && LastAtLeast(all, s.idleSamples, s.idlePercent) then IdleLevel
      else if !from.NormalLevel? && LastBelow(all, s.recoverSamples, s.recoverPercent) then NormalLevel
      else from
  {
    hide LastAtLeast, LastBelow;
    var all := samples + [cpu];
    assert all[..|all| - 1] == samples;
    CountersAreStreaks(s, all);
    AtLeastExactly(all, s.throttleSamples, s.throttlePercent);
    AtLeastExactly(all, s.idleSamples, s.idlePercent);
    BelowExactly(all, s.recoverSamples, s.recoverPercent);
  }

  // -------------------------------------------------------------- selection

  datatype Candidate = Candidate(pid: Pid, name: string, cpu: real)

  /** More CPU first, and the smaller pid among equals. */
  predicate Before(a: Candidate, b: Candidate) {
    a.cpu > b.cpu || (a.cpu == b.cpu && a.pid < b.pid)
  }

  ghost predicate Ranked(s: seq<Candidate>) {
    forall i, j :: 0 <= i < j < |s| ==> Before(s[i], s[j])
  }

  ghost predicate DistinctPids(s: seq<Candidate>) {
    forall i, j :: 0 <= i < j < |s| ==> s[i].pid != s[j].pid
  }

  /**
   The chosen ones are eligible and heavy enough, in order, within the slots; and a heavy process is
   left out only if all slots are taken by processes that come before it.
   */
  ghost predicate IsTop(chosen: seq<Candidate>, eligible: seq<Candidate>, minCpu: real, slots: nat) {
    Ranked(chosen) && |chosen| <= slots &&
    (forall c :: c in chosen ==> c in eligible && c.cpu >= minCpu) &&
    (forall c :: c in eligible && c.cpu >= minCpu && c !in chosen ==>
      |chosen| == slots && forall d :: d in chosen ==> Before(d, c))
  }

  /** Places one candidate in a ranked list, as the sort does. */
  method Insert(s: seq<Candidate>, c: Candidate) returns (r: seq<Candidate>)
    requires Ranked(s) && forall d :: d in s ==> d.pid != c.pid
    ensures Ranked(r) && |r| == |s| + 1 && forall d :: d in r <==> d in s || d == c
  {
    var i := |s|;
    while i > 0 && Before(c, s[i - 1])
      invariant 0 <= i <= |s|
      invariant forall j :: i <= j < |s| ==> Before(c, s[j])
    {
      i := i - 1;
    }
    assert forall j :: 0 <= j < i ==> Before(s[j], c) by {
      if i > 0 { assert s[i - 1] in s; }
    }
    r := s[..i] + [c] + s[i..];
    assert forall d :: d in s <==> d in s[..i] || d in s[i..];
  }

  /** Erases the light ones, sorts, and cuts the list to the slots. */
  method SelectAutoTargets(eligible: seq<Candidate>, minCpu: real, slots: nat) returns (chosen: seq<Candidate>)
    requires DistinctPids(eligible)
    ensures IsTop(chosen, eligible, minCpu, slots)
  {
    var sorted: seq<Candidate> := [];
    for k := 0 to |eligible|
      invariant Ranked(sorted)
      invariant forall c :: c in sorted <==> c in eligible[..k] && c.cpu >= minCpu
    {
      if eligible[k].cpu >= minCpu { sorted := Insert(sorted, eligible[k]); }
    }
    chosen := if |sorted| > slots then sorted[..slots] else sorted;
    assert eligible[..|eligible|] == eligible;
  }

  // ------------------------------------- the choice does not depend on order

  function Elements(s: seq<Candidate>): (e: set<Candidate>)
    ensures forall c :: c in e <==> c in s
  {
    set c | c in s
  }

  lemma WithoutLast(s: seq<Candidate>)
    requires Ranked(s) && s != []
    ensures Elements(s[..|s| - 1]) == Elements(s) - {s[|s| - 1]}
  {
    var init, last := s[..|s| - 1], s[|s| - 1];
    assert s == init + [last];
    assert forall i :: 0 <= i < |init| ==> Before(init[i], last);
  }

  lemma {:induction false} RankedIsDistinct(s: seq<Candidate>)
    requires Ranked(s)
    ensures |Elements(s)| == |s|
  {
    if s != [] {
      var init, last := s[..|s| - 1], s[|s| - 1];
      RankedIsDistinct(init);
      WithoutLast(s);
      assert Elements(s) == Elements(init) + {last};
    }
  }

  lemma {:induction false} RankedIsUnique(a: seq<Candidate>, b: seq<Candidate>)
    requires Ranked(a) && Ranked(b) && Elements(a) == Elements(b)
    ensures a == b
  {
    RankedIsDistinct(a);
    RankedIsDistinct(b);
    if a != [] {
      LastIsWorst(a, b);
      var i, j := a[..|a| - 1], b[..|b| - 1];
      WithoutLast(a);
      WithoutLast(b);
      RankedIsUnique(i, j);
      assert a == i + [a[|a| - 1]] && b == j + [b[|b| - 1]];
    }
  }

  lemma LastIsWorst(a: seq<Candidate>, b: seq<Candidate>)
    requires Ranked(a) && Ranked(b) && Elements(a) == Elements(b) && a != [] && b != []
    ensures a[|a| - 1] == b[|b| - 1]
  {
    var x, y := a[|a| - 1], b[|b| - 1];
    assert x in Elements(b) && y in Elements(a);
    var i :| 0 <= i < |a| && a[i] == y;
    var j :| 0 <= j < |b| && b[j] == x;
    assert i < |a| - 1 ==> Before(y, x);
    assert j < |b| - 1 ==> Before(x, y);
  }

  lemma {:induction false} Smaller<T>(a: set<T>, b: set<T>)
    requires a <= b
    ensures |a| <= |b| && (|a| == |b| ==> a == b)
    decreases a
  {
    if a != {} {
      var c :| c in a;
      Smaller(a - {c}, b - {c});
    }
  }

  /** A choice that holds another is no larger: the other would have had room. */
  lemma HolderIsEqual(a: seq<Candidate>, b: seq<Candidate>, eligible: seq<Candidate>, other: seq<Candidate>,
                      minCpu: real, slots: nat)
    requires IsTop(a, eligible, minCpu, slots) && IsTop(b, other, minCpu, slots) &&
      Elements(eligible) == Elements(other)
    requires Elements(a) <= Elements(b)
    ensures Elements(a) == Elements(b)
  {
    RankedIsDistinct(a);
    RankedIsDistinct(b);
    Smaller(Elements(a), Elements(b));
    if |a| < slots {
      forall c | c in b ensures c in a {
        assert c in Elements(eligible);
      }
    }
  }

  /** There is one top choice, whatever the order in which the eligible processes come. */
  lemma TopIsUnique(a: seq<Candidate>, b: seq<Candidate>, eligible: seq<Candidate>, other: seq<Candidate>,
                    minCpu: real, slots: nat)
    requires IsTop(a, eligible, minCpu, slots) && IsTop(b, other, minCpu, slots) &&
      Elements(eligible) == Elements(other)
    ensures a == b
  {
    if Elements(a) <= Elements(b) {
      HolderIsEqual(a, b, eligible, other, minCpu, slots);
    } else {
      HolderIsEqual(b, a, other, eligible, minCpu, slots);
    }
    RankedIsUnique(a, b);
  }

}
