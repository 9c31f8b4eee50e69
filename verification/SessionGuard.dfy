/**
 The dashboard session (SessionGuard.h): one access key at a time with an idle timeout and an
 absolute lifetime, and a lockout after repeated wrong keys. Times are whole clock ticks.
 */
module SessionGuard {

  type Key = seq<bv8>

  datatype Limits = Limits(idle: int, absolute: int, maxFailures: int, failureWindow: int, lockout: int)
  datatype Result = Accepted | Invalid | Expired | Locked
  datatype State = State(key: Key, issued: int, lastUse: int, lockedUntil: int, failures: seq<int>)

  const INITIAL := State([], 0, 0, 0, [])

  predicate IsExpired(l: Limits, s: State, t: int) {
    t - s.lastUse > l.idle || t - s.issued > l.absolute
  }

  predicate NeedsKey(l: Limits, s: State, t: int) {
    s.key == [] || IsExpired(l, s, t)
  }

  function Issue(l: Limits, s: State, t: int, newKey: Key): State {
    if NeedsKey(l, s, t) then s.(key := newKey, issued := t, lastUse := t) else s
  }

  /** The failures without the leading ones that are older than the window. */
  function Recent(l: Limits, failures: seq<int>, t: int): (r: seq<int>) {
    if failures != [] && t - failures[0] > l.failureWindow then Recent(l, failures[1..], t) else failures
  }

  /** A wrong key is only looked at when the guard is not locked. */
  predicate Examined(s: State, t: int, presented: Key) {
    t >= s.lockedUntil && (s.key == [] || presented != s.key)
  }

  function Outcome(l: Limits, s: State, t: int, presented: Key): Result {
    if t < s.lockedUntil then Locked
    else if Examined(s, t, presented) then
      if |Recent(l, s.failures + [t], t)| >= l.maxFailures then Locked else Invalid
    else if IsExpired(l, s, t) then Expired
    else Accepted
  }

  function Checked(l: Limits, s: State, t: int, presented: Key): State {
    if t < s.lockedUntil then s
    else if Examined(s, t, presented) then
      var recent := Recent(l, s.failures + [t], t);
      if |recent| >= l.maxFailures then s.(lockedUntil := t + l.lockout, failures := [])
      else s.(failures := recent)
    else if IsExpired(l, s, t) then s.(key := [])
    else s.(lastUse := t)
  }

  // ------------------------------------------------------------- the code

  lemma DiffIsZero(diff: bv8, x: bv8, y: bv8)
    ensures diff | (x ^ y) == 0 <==> diff == 0 && x == y
  {
  }

  /** Compares without stopping at the first difference. */
  method Equal(a: Key, b: Key) returns (same: bool)
    ensures same <==> a == b
  {
    if |a| != |b| { return false; }
    var diff: bv8 := 0;
    for i := 0 to |a|
      invariant diff == 0 <==> a[..i] == b[..i]
    {
      DiffIsZero(diff, a[i], b[i]);
      assert a[..i + 1] == a[..i] + [a[i]] && b[..i + 1] == b[..i] + [b[i]];
      diff := diff | (a[i] ^ b[i]);
    }
    assert a[..|a|] == a && b[..|b|] == b;
    same := diff == 0;
  }

  class Guard {
    const limits: Limits
    var key: Key
    var issued: int
    var lastUse: int
    var lockedUntil: int
    var failures: seq<int>

    function Abs(): State
      reads this
    {
      State(key, issued, lastUse, lockedUntil, failures)
    }

    constructor (limits: Limits)
      ensures this.limits == limits && Abs() == INITIAL
    {
      this.limits := limits;
      key, issued, lastUse, lockedUntil, failures := [], 0, 0, 0, [];
    }

    /** `newKey` is what the key generator would return now. */
    method CurrentOrNewKey(t: int, newKey: Key) returns (current: Key)
      modifies this
      ensures Abs() == Issue(limits, old(Abs()), t, newKey) && current == key
    {
      if key == [] || t - lastUse > limits.idle || t - issued > limits.absolute {
        key := newKey;
        issued, lastUse := t, t;
      }
      current := key;
    }

    method Check(t: int, presented: Key) returns (r: Result)
      modifies this
      ensures r == Outcome(limits, old(Abs()), t, presented)
      ensures Abs() == Checked(limits, old(Abs()), t, presented)
    {
      if t < lockedUntil { return Locked; }
      var same := Equal(presented, key);
      if key == [] || !same {
        failures := failures + [t];
        while failures != [] && t - failures[0] > limits.failureWindow
          invariant Recent(limits, failures, t) == Recent(limits, old(failures) + [t], t)
          invariant Abs() == old(Abs()).(failures := failures)
          decreases |failures|
        {
          failures := failures[1..];
        }
        if |failures| >= limits.maxFailures {
          lockedUntil := t + limits.lockout;
          failures := [];
          return Locked;
        }
        return Invalid;
      }
      if t - lastUse > limits.idle || t - issued > limits.absolute {
        key := [];
        return Expired;
      }
      lastUse := t;
      r := Accepted;
    }

    method Revoke()
      modifies this
      ensures Abs() == old(Abs()).(key := [])
    {
      key := [];
    }
  }

  // ------------------------------------------------------------ whole runs

  datatype Event =
    | Request(t: int, newKey: Key)
    | Check(t: int, presented: Key)
    | SignOut(t: int)

  function Apply(l: Limits, s: State, e: Event): State {
    match e
    case Request(t, newKey) => Issue(l, s, t, newKey)
    case Check(t, presented) => Checked(l, s, t, presented)
    case SignOut(_) => s.(key := [])
  }

  function Exec(l: Limits, events: seq<Event>): State {
    if events == [] then INITIAL else Apply(l, Exec(l, events[..|events| - 1]), events[|events| - 1])
  }

  /** The times at which wrong keys were examined. */
  function Failures(l: Limits, events: seq<Event>): seq<int> {
    if events == [] then []
    else
      var init, e := events[..|events| - 1], events[|events| - 1];
      Failures(l, init) + if e.Check? && Examined(Exec(l, init), e.t, e.presented) then [e.t] else []
  }

  /** The clock never goes back. */
  ghost predicate Monotone(events: seq<Event>) {
    forall i, j :: 0 <= i < j < |events| ==> events[i].t <= events[j].t
  }

  ghost predicate Sorted(s: seq<int>) {
    forall i, j :: 0 <= i < j < |s| ==> s[i] <= s[j]
  }

  /** How many of the times lie in [from, from + length). */
  function CountWithin(s: seq<int>, from: int, length: int): (n: nat)
    ensures n <= |s|
  {
    if s == [] then 0
    else CountWithin(s[..|s| - 1], from, length) + if from <= s[|s| - 1] < from + length then 1 else 0
  }

  // ----------------------------------------------------------- rate limit

  function Allowed(l: Limits): nat {
    if l.maxFailures < 1 then 1 else l.maxFailures
  }

  /** Of any n + 1 consecutive times the last is at least `length` after the first. */
  ghost predicate Spaced(s: seq<int>, n: nat, length: int) {
    forall i, j :: 0 <= i < |s| && j == i + n && j < |s| ==> s[i] + length <= s[j]
  }

  lemma {:induction false} SpacedIsLimited(s: seq<int>, n: nat, from: int, length: int)
    requires Sorted(s) && Spaced(s, n, length) && n > 0
    ensures CountWithin(s, from, length) <= n
  {
    if s != [] {
      var init, last := s[..|s| - 1], s[|s| - 1];
      SpacedIsLimited(init, n, from, length);
      if |s| > n && last < from + length {
        assert s[|s| - 1 - n] + length <= last;
        OldDoNotCount(init, |s| - 1 - n, from, length);
      }
    }
  }

  lemma {:induction false} OldDoNotCount(s: seq<int>, i: nat, from: int, length: int)
    requires Sorted(s) && i < |s| && s[i] < from
    ensures CountWithin(s, from, length) < |s| - i
  {
    var init := s[..|s| - 1];
    if i < |s| - 1 {
      OldDoNotCount(init, i, from, length);
    } else {
      NoneCount(s, from, length);
    }
  }

  lemma {:induction false} NoneCount(s: seq<int>, from: int, length: int)
    requires Sorted(s) && (s != [] ==> s[|s| - 1] < from)
    ensures CountWithin(s, from, length) == 0
  {
    if |s| > 1 { assert s[|s| - 2] <= s[|s| - 1]; }
    if s != [] { NoneCount(s[..|s| - 1], from, length); }
  }

  /** p can no longer share a window with a wrong key that is still to be examined. */
  predicate Settled(l: Limits, s: State, now: int, p: int) {
    p + l.failureWindow <= s.lockedUntil || p + l.failureWindow < now
  }

  /** All failures so far are the settled ones followed by those the guard remembers. */
  ghost predicate RateInv(l: Limits, s: State, all: seq<int>, now: int) {
    Sorted(all) && (forall i :: 0 <= i < |all| ==> all[i] <= now) &&
    Spaced(all, Allowed(l), l.failureWindow) &&
    |s.failures| < Allowed(l) && |s.failures| <= |all| && all[|all| - |s.failures|..] == s.failures &&
    forall i :: 0 <= i < |all| - |s.failures| ==> Settled(l, s, now, all[i])
  }

  lemma {:induction false} RecentIsSuffix(l: Limits, failures: seq<int>, t: int)
    ensures var r := Recent(l, failures, t);
      |r| <= |failures| && r == failures[|failures| - |r|..] &&
      forall i :: 0 <= i < |failures| - |r| ==> t - failures[i] > l.failureWindow
  {
    if failures != [] && t - failures[0] > l.failureWindow {
      RecentIsSuffix(l, failures[1..], t);
      var r := Recent(l, failures, t);
      forall i | 0 <= i < |failures| - |r| ensures t - failures[i] > l.failureWindow {
        if i > 0 { assert failures[i] == failures[1..][i - 1]; }
      }
    }
  }

  lemma LaterKeepsRate(l: Limits, s: State, all: seq<int>, now: int, later: int)
    requires RateInv(l, s, all, now) && now <= later
    ensures RateInv(l, s, all, later)
  {
  }

  /** The new failure is far enough from the one Allowed(l) places before it, which has been settled. */
  lemma FailureIsSpaced(l: Limits, s: State, all: seq<int>, t: int)
    requires RateInv(l, s, all, t) && t >= s.lockedUntil
    ensures Sorted(all + [t]) && Spaced(all + [t], Allowed(l), l.failureWindow)
  {
    var n := Allowed(l);
    if |all| >= n { assert Settled(l, s, t, all[|all| - n]); }
  }

  lemma FailureKeepsRate(l: Limits, s: State, all: seq<int>, t: int, presented: Key)
    requires l.lockout >= l.failureWindow > 0
    requires RateInv(l, s, all, t) && Examined(s, t, presented)
    ensures RateInv(l, Checked(l, s, t, presented), all + [t], t)
  {
    FailureIsSpaced(l, s, all, t);
    var failures := s.failures + [t];
    RecentIsSuffix(l, failures, t);
    hide Recent, Spaced;
    var more, after := all + [t], Checked(l, s, t, presented);
    assert more[|more| - |failures|..] == failures;
    forall i | 0 <= i < |more| - |after.failures| ensures Settled(l, after, t, more[i]) {
      if i < |more| - |failures| {
        assert Settled(l, s, t, all[i]);
      } else {
        assert more[i] == failures[i - (|more| - |failures|)];
      }
    }
  }

  lemma {:induction false} RunKeepsRate(l: Limits, events: seq<Event>)
    requires l.lockout >= l.failureWindow > 0 && Monotone(events) && events != []
    ensures RateInv(l, Exec(l, events), Failures(l, events), events[|events| - 1].t)
  {
    var init, e := events[..|events| - 1], events[|events| - 1];
    var s, all := Exec(l, init), Failures(l, init);
    if init == [] {
      assert RateInv(l, s, all, e.t);
    } else {
      RunKeepsRate(l, init);
      LaterKeepsRate(l, s, all, init[|init| - 1].t, e.t);
    }
    if e.Check? && Examined(s, e.t, e.presented) {
      FailureKeepsRate(l, s, all, e.t, e.presented);
    } else {
      assert all + [] == all;
    }
  }

  /** In every interval of the window's length at most the allowed number of wrong keys is examined. */
  ghost predicate RateLimited(l: Limits, events: seq<Event>) {
    forall from :: CountWithin(Failures(l, events), from, l.failureWindow) <= Allowed(l)
  }

  lemma LockoutLimitsRate(l: Limits, events: seq<Event>)
    requires Monotone(events) && (l.lockout >= l.failureWindow || l.failureWindow <= 0)
    ensures RateLimited(l, events)
  {
    forall from ensures CountWithin(Failures(l, events), from, l.failureWindow) <= Allowed(l) {
      if l.failureWindow <= 0 {
        EmptyWindow(Failures(l, events), from, l.failureWindow);
      } else if events != [] {
        RunKeepsRate(l, events);
        SpacedIsLimited(Failures(l, events), Allowed(l), from, l.failureWindow);
      }
    }
  }

  lemma {:induction false} EmptyWindow(s: seq<int>, from: int, length: int)
    requires length <= 0
    ensures CountWithin(s, from, length) == 0
  {
    if s != [] { EmptyWindow(s[..|s| - 1], from, length); }
  }

  const GUESS := Check(0, [])

  /** n wrong keys at time 0. */
  function Guesses(n: nat): (g: seq<Event>)
    ensures |g| == n && forall i :: 0 <= i < n ==> g[i] == GUESS
  {
    if n == 0 then [] else Guesses(n - 1) + [GUESS]
  }

  function Zeros(n: nat): (z: seq<int>)
    ensures |z| == n && forall i :: 0 <= i < n ==> z[i] == 0
  {
    if n == 0 then [] else Zeros(n - 1) + [0]
  }

  lemma ExecMore(l: Limits, events: seq<Event>, e: Event)
    ensures Exec(l, events + [e]) == Apply(l, Exec(l, events), e)
    ensures Failures(l, events + [e]) ==
            Failures(l, events) + if e.Check? && Examined(Exec(l, events), e.t, e.presented) then [e.t] else []
  {
    assert (events + [e])[..|events|] == events;
  }

  lemma CountMore(s: seq<int>, t: int, from: int, length: int)
    ensures CountWithin(s + [t], from, length) ==
            CountWithin(s, from, length) + if from <= t < from + length then 1 else 0
  {
    assert (s + [t])[..|s|] == s;
  }

  lemma {:induction false} CountZeros(n: nat, length: int)
    requires length > 0
    ensures CountWithin(Zeros(n), 0, length) == n
  {
    if n == 0 {
      assert Zeros(0) == [];
    } else {
      hide CountWithin;
      CountZeros(n - 1, length);
      CountMore(Zeros(n - 1), 0, 0, length);
    }
  }

  lemma GuessAgain(l: Limits, n: nat)
    requires l.failureWindow > 0
    ensures var s := INITIAL.(failures := Zeros(n));
      Apply(l, s, GUESS) == if n + 1 >= l.maxFailures then INITIAL.(lockedUntil := l.lockout)
                            else INITIAL.(failures := Zeros(n + 1))
  {
    var failures := Zeros(n) + [0];
    assert failures == Zeros(n + 1) && Recent(l, failures, 0) == failures;
  }

  lemma {:induction false} GuessesLock(l: Limits, n: nat)
    requires n < Allowed(l) && l.failureWindow > 0
    ensures Exec(l, Guesses(n)) == INITIAL.(failures := Zeros(n)) && Failures(l, Guesses(n)) == Zeros(n)
  {
    if n > 0 {
      hide Apply;
      GuessesLock(l, n - 1);
      GuessAgain(l, n - 1);
      ExecMore(l, Guesses(n - 1), GUESS);
    }
  }

  function Attack(l: Limits): seq<Event> {
    Guesses(Allowed(l) - 1) + [GUESS] + [Check(if l.lockout > 0 then l.lockout else 0, [])]
  }

  /** With a shorter lockout, guessing again as soon as the lockout ends beats the limit. */
  lemma ShortLockoutFails(l: Limits)
    requires l.failureWindow > 0 && l.lockout < l.failureWindow
    ensures Monotone(Attack(l)) && CountWithin(Failures(l, Attack(l)), 0, l.failureWindow) == Allowed(l) + 1
  {
    hide Apply, Exec, Failures, CountWithin;
    var n := Allowed(l);
    var events := Guesses(n - 1);
    var again := if l.lockout > 0 then l.lockout else 0;
    GuessesLock(l, n - 1);
    ExecMore(l, events, GUESS);
    GuessAgain(l, n - 1);
    assert Failures(l, events + [GUESS]) == Zeros(n);
    ExecMore(l, events + [GUESS], Check(again, []));
    CountZeros(n, l.failureWindow);
    CountMore(Zeros(n), again, 0, l.failureWindow);
  }

  /**
   The rate limit holds over all runs exactly if the lockout is at least as long as the window
   (a window of no length counts nothing).
   */
  lemma RateLimitExactly(l: Limits)
    ensures (forall events :: Monotone(events) ==> RateLimited(l, events)) <==>
            l.lockout >= l.failureWindow || l.failureWindow <= 0
  {
    if l.lockout >= l.failureWindow || l.failureWindow <= 0 {
      forall events | Monotone(events) ensures RateLimited(l, events) {
        LockoutLimitsRate(l, events);
      }
    } else {
      ShortLockoutFails(l);
      assert !RateLimited(l, Attack(l));
    }
  }

  // ------------------------------------------------------ life of a key

  /** Event i put a new key in place. */
  predicate Issues(l: Limits, events: seq<Event>, i: nat)
    requires i < |events|
  {
    events[i].Request? && NeedsKey(l, Exec(l, events[..i]), events[i].t)
  }

  predicate Accepts(l: Limits, events: seq<Event>, i: nat)
    requires i < |events|
  {
    events[i].Check? && Outcome(l, Exec(l, events[..i]), events[i].t, events[i].presented) == Accepted
  }

  /** The live key was put in place by event i, last used (or issued) by event j, and not signed out since. */
  ghost predicate Provenance(l: Limits, events: seq<Event>, i: nat, j: nat) {
    i <= j < |events| && Issues(l, events, i) && (j == i || Accepts(l, events, j)) &&
    (forall k :: i <= k < |events| ==> !events[k].SignOut?) &&
    (forall k :: i < k < |events| ==> !Issues(l, events, k)) &&
    var s := Exec(l, events);
    s.key == events[i].newKey && s.issued == events[i].t && s.lastUse == events[j].t
  }

  lemma {:induction false} KeyHasProvenance(l: Limits, events: seq<Event>) returns (i: nat, j: nat)
    requires Exec(l, events).key != []
    ensures Provenance(l, events, i, j)
  {
    var n := |events| - 1;
    var init, e := events[..n], events[n];
    assert events[..|events|] == events;
    if e.Request? && NeedsKey(l, Exec(l, init), e.t) {
      i, j := n, n;
    } else {
      i, j := KeyHasProvenance(l, init);
      EarlierEvents(l, events, n);
      if e.Check? && Outcome(l, Exec(l, init), e.t, e.presented) == Accepted { j := n; }
    }
  }

  /** What an event did depends only on the events before it. */
  lemma EarlierEvents(l: Limits, events: seq<Event>, n: nat)
    requires n <= |events|
    ensures forall k :: 0 <= k < n ==> (Issues(l, events, k) <==> Issues(l, events[..n], k))
    ensures forall k :: 0 <= k < n ==> (Accepts(l, events, k) <==> Accepts(l, events[..n], k))
  {
    forall k | 0 <= k < n
      ensures Issues(l, events, k) <==> Issues(l, events[..n], k)
      ensures Accepts(l, events, k) <==> Accepts(l, events[..n], k)
    {
      assert events[..n][..k] == events[..k];
    }
  }

  /**
   A key accepted at time t was put in place by some earlier event, at most `absolute` before t and
   with no sign-out or new key since, and its last use or issue is at most `idle` before t.
   */
  lemma AcceptedKeyIsLive(l: Limits, events: seq<Event>, t: int, presented: Key) returns (i: nat, j: nat)
    requires Outcome(l, Exec(l, events), t, presented) == Accepted
    ensures Provenance(l, events, i, j) && presented == events[i].newKey
    ensures t - events[i].t <= l.absolute && t - events[j].t <= l.idle
  {
    i, j := KeyHasProvenance(l, events);
  }

  /** Keys are not empty and never generated twice. */
  ghost predicate FreshKeys(events: seq<Event>) {
    forall i, j :: 0 <= i < j < |events| && events[i].Request? && events[j].Request? ==>
      events[i].newKey != [] && events[j].newKey != [] && events[i].newKey != events[j].newKey
  }

  predicate Dead(l: Limits, s: State, key: Key, t: int) {
    s.key != key || IsExpired(l, s, t)
  }

  lemma {:induction false} DeadStaysDead(l: Limits, events: seq<Event>, n: nat, m: nat, i: nat)
    requires Monotone(events) && FreshKeys(events) && i < n <= m < |events|
    requires events[i].Request? && events[i].newKey != []
    requires Dead(l, Exec(l, events[..n]), events[i].newKey, events[n].t)
    ensures Dead(l, Exec(l, events[..m]), events[i].newKey, events[m].t)
    decreases m
  {
    if n < m {
      DeadStaysDead(l, events, n, m - 1, i);
      var e, s := events[m - 1], Exec(l, events[..m - 1]);
      assert events[..m][..|events[..m]| - 1] == events[..m - 1];
      assert Exec(l, events[..m]) == Apply(l, s, e);
      assert e.t <= events[m].t;
      if e.Request? { assert e.newKey != events[i].newKey; }
    }
  }

  /** Once a key has expired, been replaced or been signed out, it is never accepted again. */
  lemma NeverAgain(l: Limits, events: seq<Event>, n: nat, m: nat, i: nat)
    requires Monotone(events) && FreshKeys(events) && i < n <= m < |events|
    requires events[i].Request? && events[i].newKey != []
    requires Dead(l, Exec(l, events[..n]), events[i].newKey, events[n].t)
    requires events[m].Check? && events[m].presented == events[i].newKey
    ensures !Accepts(l, events, m)
  {
    DeadStaysDead(l, events, n, m, i);
  }
}
