/**
 What the dashboard session (SessionGuard.h) answers, from the calls and answers so far alone: the
 times of earlier calls, what they were told, and the limits. Nothing here looks at the guard's fields.
 */
module SessionReplies {
  import opened SessionGuard

  datatype Reply = Given(key: Key) | Answered(result: Result) | SignedOut

  datatype Entry = Entry(event: Event, reply: Reply)

  /** What the call returns in this state of the guard. */
  function ReplyTo(l: Limits, s: State, e: Event): Reply {
    match e
    case Request(t, newKey) => Given(Issue(l, s, t, newKey).key)
    case Check(t, presented) => Answered(Outcome(l, s, t, presented))
    case SignOut(_) => SignedOut
  }

  /** The calls of a run with what they returned. */
  function Log(l: Limits, events: seq<Event>): (log: seq<Entry>)
    ensures |log| == |events| && forall i :: 0 <= i < |log| ==> log[i].event == events[i]
  {
    if events == [] then []
    else
      var init, e := events[..|events| - 1], events[|events| - 1];
      Log(l, init) + [Entry(e, ReplyTo(l, Exec(l, init), e))]
  }

  // ------------------------------------------------- what the answers mean

  /** The key given out last, unless it was signed out or reported expired since. */
  function KeyInPlace(log: seq<Entry>): Key {
    if log == [] then []
    else
      match log[|log| - 1]
      case Entry(SignOut(_), _) => []
      case Entry(_, Given(key)) => key
      case Entry(_, Answered(Expired)) => []
      case _ => KeyInPlace(log[..|log| - 1])
  }

  /** A request that was given the key just generated. */
  predicate IsIssue(e: Entry) {
    e.event.Request? && e.reply == Given(e.event.newKey)
  }

  function LastIssue(log: seq<Entry>): int {
    if log == [] then 0
    else if IsIssue(log[|log| - 1]) then log[|log| - 1].event.t
    else LastIssue(log[..|log| - 1])
  }

  /** When a key was last issued or accepted. */
  function LastUse(log: seq<Entry>): int {
    if log == [] then 0
    else if IsIssue(log[|log| - 1]) || log[|log| - 1].reply == Answered(Accepted) then log[|log| - 1].event.t
    else LastUse(log[..|log| - 1])
  }

  /** When the last lockout ends: `lockout` after the check that was not locked out and still told so. */
  function LockEnd(l: Limits, log: seq<Entry>): int {
    if log == [] then 0
    else
      var e, end := log[|log| - 1], LockEnd(l, log[..|log| - 1]);
      if e.reply == Answered(Locked) && e.event.t >= end then e.event.t + l.lockout else end
  }

  /** When wrong keys were examined since the last lockout began, oldest first. */
  function WrongTimes(l: Limits, log: seq<Entry>): seq<int> {
    if log == [] then []
    else
      var init, e := log[..|log| - 1], log[|log| - 1];
      if e.reply == Answered(Invalid) then WrongTimes(l, init) + [e.event.t]
      else if e.reply == Answered(Locked) && e.event.t >= LockEnd(l, init) then []
      else WrongTimes(l, init)
  }

  /** How many of these times are at most `window` before t. */
  function CountRecent(times: seq<int>, t: int, window: int): nat {
    if times == [] then 0
    else CountRecent(times[..|times| - 1], t, window) + if t - times[|times| - 1] <= window then 1 else 0
  }

  /** The key in place is within both limits. */
  predicate IsLive(l: Limits, log: seq<Entry>, t: int) {
    KeyInPlace(log) != [] && t - LastIssue(log) <= l.absolute && t - LastUse(log) <= l.idle
  }

  // --------------------------------------------------------------- the proof

  /** The guard's fields are what the log says; of the failures it keeps those that may still matter. */
  ghost predicate Tracks(l: Limits, s: State, log: seq<Entry>, now: int) {
    s.key == KeyInPlace(log) && (s.key != [] ==> s.issued == LastIssue(log) && s.lastUse == LastUse(log)) &&
    s.lockedUntil == LockEnd(l, log) && Keeps(l, s.failures, WrongTimes(l, log), now)
  }

  /** The failures kept are all the wrong times but the first ones, which are too old by now. */
  ghost predicate Keeps(l: Limits, kept: seq<int>, all: seq<int>, now: int) {
    Sorted(all) && (forall i :: 0 <= i < |all| ==> all[i] <= now) &&
    |kept| <= |all| && kept == all[|all| - |kept|..] &&
    forall i :: 0 <= i < |all| - |kept| ==> now - all[i] > l.failureWindow
  }

  lemma {:induction false} CountOld(times: seq<int>, n: nat, t: int, window: int)
    requires n <= |times| && forall i :: 0 <= i < n ==> t - times[i] > window
    ensures CountRecent(times, t, window) == CountRecent(times[n..], t, window)
  {
    if n < |times| {
      var init := times[..|times| - 1];
      CountOld(init, n, t, window);
      assert times[n..][..|times| - n - 1] == init[n..];
    } else {
      CountNone(times, t, window);
      assert times[n..] == [];
    }
  }

  lemma {:induction false} CountNone(times: seq<int>, t: int, window: int)
    requires forall i :: 0 <= i < |times| ==> t - times[i] > window
    ensures CountRecent(times, t, window) == 0
  {
    if times != [] { CountNone(times[..|times| - 1], t, window); }
  }

  lemma {:induction false} CountAll(times: seq<int>, t: int, window: int)
    requires forall i :: 0 <= i < |times| ==> t - times[i] <= window
    ensures CountRecent(times, t, window) == |times|
  {
    if times != [] { CountAll(times[..|times| - 1], t, window); }
  }

  /** For sorted times, dropping old ones from the front leaves exactly the recent ones. */
  lemma {:induction false} RecentIsCount(l: Limits, times: seq<int>, t: int)
    requires Sorted(times)
    ensures |Recent(l, times, t)| == CountRecent(times, t, l.failureWindow)
  {
    if times != [] && t - times[0] > l.failureWindow {
      RecentIsCount(l, times[1..], t);
      CountOld(times, 1, t, l.failureWindow);
    } else {
      CountAll(times, t, l.failureWindow);
    }
  }

  lemma MoreIsKept(l: Limits, kept: seq<int>, all: seq<int>, now: int, t: int)
    requires Keeps(l, kept, all, now) && now <= t
    ensures Keeps(l, kept + [t], all + [t], t)
  {
    assert (all + [t])[|all| - |kept|..] == kept + [t];
  }

  lemma RecentIsKept(l: Limits, kept: seq<int>, all: seq<int>, t: int)
    requires Keeps(l, kept, all, t)
    ensures Keeps(l, Recent(l, kept, t), all, t)
  {
    hide Recent;
    RecentIsSuffix(l, kept, t);
    var recent, d := Recent(l, kept, t), |all| - |kept|;
    assert recent == all[|all| - |recent|..];
    forall i | 0 <= i < |all| - |recent| ensures t - all[i] > l.failureWindow {
      if i >= d { assert all[i] == kept[i - d]; }
    }
  }

  /** One more wrong key: how many count, and what is kept. */
  lemma OneMoreWrong(l: Limits, kept: seq<int>, all: seq<int>, now: int, t: int)
    requires Keeps(l, kept, all, now) && now <= t
    ensures var recent := Recent(l, kept + [t], t);
      |recent| == CountRecent(all + [t], t, l.failureWindow) && Keeps(l, recent, all + [t], t)
  {
    hide Recent, CountRecent;
    MoreIsKept(l, kept, all, now, t);
    var more := all + [t];
    CountOld(more, |all| - |kept|, t, l.failureWindow);
    RecentIsCount(l, kept + [t], t);
    RecentIsKept(l, kept + [t], more, t);
  }

  lemma NothingYet(l: Limits, now: int)
    ensures Tracks(l, INITIAL, [], now)
  {
  }

  /** The keys issued so far are among those generated; an issue is told from a repetition by the key. */
  ghost predicate FromRequests(events: seq<Event>, key: Key) {
    key == [] || exists i :: 0 <= i < |events| && events[i].Request? && events[i].newKey == key
  }

  lemma RequestTracks(l: Limits, s: State, log: seq<Entry>, e: Event)
    requires e.Request? && Tracks(l, s, log, e.t) && (s.key != [] ==> e.newKey != s.key)
    ensures Tracks(l, Apply(l, s, e), log + [Entry(e, ReplyTo(l, s, e))], e.t)
  {
    hide Keeps;
    assert (log + [Entry(e, ReplyTo(l, s, e))])[..|log|] == log;
  }

  lemma WrongTracks(l: Limits, s: State, log: seq<Entry>, e: Event)
    requires e.Check? && Tracks(l, s, log, e.t) && Examined(s, e.t, e.presented)
    ensures Tracks(l, Apply(l, s, e), log + [Entry(e, ReplyTo(l, s, e))], e.t)
  {
    hide Recent, CountRecent, Keeps;
    assert (log + [Entry(e, ReplyTo(l, s, e))])[..|log|] == log;
    OneMoreWrong(l, s.failures, WrongTimes(l, log), e.t, e.t);
    NothingKept(l, e.t);
  }

  lemma NothingKept(l: Limits, now: int)
    ensures Keeps(l, [], [], now)
  {
  }

  lemma StepTracks(l: Limits, s: State, log: seq<Entry>, e: Event)
    requires Tracks(l, s, log, e.t) && (e.Request? && s.key != [] ==> e.newKey != s.key)
    ensures Tracks(l, Apply(l, s, e), log + [Entry(e, ReplyTo(l, s, e))], e.t)
  {
    hide Keeps, Recent;
    if e.Request? {
      RequestTracks(l, s, log, e);
    } else if e.Check? && Examined(s, e.t, e.presented) {
      WrongTracks(l, s, log, e);
    } else {
      assert (log + [Entry(e, ReplyTo(l, s, e))])[..|log|] == log;
    }
  }

  lemma {:induction false} KeyIsFromRequests(l: Limits, events: seq<Event>)
    ensures FromRequests(events, Exec(l, events).key)
  {
    if events != [] {
      var init, e := events[..|events| - 1], events[|events| - 1];
      KeyIsFromRequests(l, init);
      assert forall i :: 0 <= i < |init| ==> init[i] == events[i];
      assert events[|events| - 1] == e;
    }
  }

  lemma {:induction false} RunTracks(l: Limits, events: seq<Event>, now: int)
    requires Monotone(events) && FreshKeys(events) && (events != [] ==> events[|events| - 1].t <= now)
    ensures Tracks(l, Exec(l, events), Log(l, events), now)
  {
    hide Apply, ReplyTo, Tracks;
    if events == [] {
      NothingYet(l, now);
    } else {
      var init, e := events[..|events| - 1], events[|events| - 1];
      RunTracks(l, init, e.t);
      KeyIsFromRequests(l, init);
      StepTracks(l, Exec(l, init), Log(l, init), e);
      StillTracks(l, Exec(l, events), Log(l, events), e.t, now);
    }
  }

  lemma StillTracks(l: Limits, s: State, log: seq<Entry>, now: int, later: int)
    requires Tracks(l, s, log, now) && now <= later
    ensures Tracks(l, s, log, later)
  {
  }

  // ----------------------------------------------------------- the answers

  /**
   What every call of every run returns, decided by the log before it: a request the key in place if
   that is live and a new one otherwise; a check is locked out until the last lockout ends; else it is
   wrong if another key is in place or none, and starts a lockout exactly if with it maxFailures wrong
   keys were examined within the window since the last lockout began; else it is accepted exactly if
   the key is live.
   */
  lemma ReplyExactly(l: Limits, events: seq<Event>, e: Event)
    requires Monotone(events + [e]) && FreshKeys(events)
    ensures var log, reply := Log(l, events), ReplyTo(l, Exec(l, events), e);
      match e
      case Request(t, newKey) => reply == Given(if IsLive(l, log, t) then KeyInPlace(log) else newKey)
      case SignOut(_) => reply == SignedOut
      case Check(t, presented) =>
        reply == Answered(
          if t < LockEnd(l, log) then Locked
          else if KeyInPlace(log) == [] || presented != KeyInPlace(log) then
            if CountRecent(WrongTimes(l, log) + [t], t, l.failureWindow) >= l.maxFailures then Locked else Invalid
          else if IsLive(l, log, t) then Accepted else Expired)
  {
    hide CountRecent, Recent;
    var s, log := Exec(l, events), Log(l, events);
    assert (events + [e])[..|events|] == events;
    LastIsEarlier(events, e);
    RunTracks(l, events, e.t);
    OneMoreWrong(l, s.failures, WrongTimes(l, log), e.t, e.t);
  }

  lemma LastIsEarlier(events: seq<Event>, e: Event)
    requires Monotone(events + [e])
    ensures Monotone(events) && (events != [] ==> events[|events| - 1].t <= e.t)
  {
    var more := events + [e];
    assert forall i :: 0 <= i < |events| ==> more[i] == events[i];
    if events != [] { assert more[|events| - 1].t <= more[|events|].t; }
  }

  lemma {:induction false} LogPrefix(l: Limits, events: seq<Event>, m: nat)
    requires m < |events|
    ensures Log(l, events[..m]) == Log(l, events)[..m]
    ensures Log(l, events)[m] == Entry(events[m], ReplyTo(l, Exec(l, events[..m]), events[m]))
  {
    var n := |events| - 1;
    if m < n {
      LogPrefix(l, events[..n], m);
      assert events[..n][..m] == events[..m];
    }
  }

  lemma PrefixKeeps(events: seq<Event>, m: nat)
    requires Monotone(events) && FreshKeys(events) && m < |events|
    ensures Monotone(events[..m] + [events[m]]) && FreshKeys(events[..m])
  {
  }

  /** Event m of a run, answered as its log before m says. */
  lemma ReplyAt(l: Limits, events: seq<Event>, m: nat)
    requires Monotone(events) && FreshKeys(events) && m < |events|
    ensures var log := Log(l, events)[..m]; var e, reply := events[m], Log(l, events)[m].reply;
      match e
      case Request(t, newKey) => reply == Given(if IsLive(l, log, t) then KeyInPlace(log) else newKey)
      case SignOut(_) => reply == SignedOut
      case Check(t, presented) =>
        (reply == Answered(Accepted) ==> KeyInPlace(log) != []) &&
        (reply == Answered(Expired) ==> !IsLive(l, log, t)) && reply.Answered?
  {
    hide Log, Exec, ReplyTo, Monotone, FreshKeys, IsLive, KeyInPlace, LockEnd, WrongTimes, CountRecent;
    PrefixKeeps(events, m);
    LogPrefix(l, events, m);
    ReplyExactly(l, events[..m], events[m]);
  }

  /** Between i and j nobody signs out, and every request is given the key of i. */
  ghost predicate Undisturbed(log: seq<Entry>, i: nat) {
    i < |log| && IsIssue(log[i]) && log[i].event.newKey != [] &&
    forall m :: i < m < |log| ==> !log[m].event.SignOut? && (log[m].event.Request? ==> log[m].reply == log[i].reply)
  }

  /** A key that is gone does not come back without a new one being issued. */
  lemma {:induction false} GoneStays(l: Limits, events: seq<Event>, i: nat, m: nat, j: nat)
    requires Monotone(events) && FreshKeys(events) && Undisturbed(Log(l, events), i)
    requires i < m <= j <= |events| && KeyInPlace(Log(l, events)[..m]) == []
    ensures KeyInPlace(Log(l, events)[..j]) == []
  {
    if m < j {
      var log := Log(l, events);
      GoneStays(l, events, i, m, j - 1);
      ReplyAt(l, events, j - 1);
      assert log[..j][..j - 1] == log[..j - 1];
    }
  }

  lemma {:induction false} KeyStays(l: Limits, events: seq<Event>, i: nat, j: nat, m: nat, t: int)
    requires Monotone(events) && FreshKeys(events) && Undisturbed(Log(l, events), i)
    requires i <= j < |events| && i < m <= |events| && forall k :: 0 <= k < |events| ==> events[k].t <= t
    requires j == i || Log(l, events)[j].reply == Answered(Accepted)
    requires t - events[i].t <= l.absolute && t - events[j].t <= l.idle
    ensures var log := Log(l, events)[..m];
      KeyInPlace(log) == events[i].newKey && LastIssue(log) == events[i].t && (m > j ==> LastUse(log) >= events[j].t)
  {
    hide Recent, Exec, ReplyTo;
    var log := Log(l, events);
    assert log[..m][..m - 1] == log[..m - 1];
    if m > i + 1 {
      KeyStays(l, events, i, j, m - 1, t);
      ReplyAt(l, events, m - 1);
      var e := events[m - 1];
      assert e.Request? ==> e.newKey != events[i].newKey;
      if log[m - 1].reply == Answered(Expired) {
        assert m - 1 < j;
        GoneStays(l, events, i, m, j);
        ReplyAt(l, events, j);
        assert false;
      }
    }
  }

  /**
   A key that was issued at event i and last issued or accepted at event j, with no sign-out and no
   other key given out since, is given out again and accepted at any time within `absolute` of i and
   `idle` of j at which the guard is not locked.
   */
  lemma {:induction false} LiveKeyIsAccepted(l: Limits, events: seq<Event>, e: Event, i: nat, j: nat)
    requires Monotone(events + [e]) && FreshKeys(events) && i <= j < |events| && Undisturbed(Log(l, events), i)
    requires j == i || Log(l, events)[j].reply == Answered(Accepted)
    requires e.t - events[i].t <= l.absolute && e.t - events[j].t <= l.idle
    ensures var reply := ReplyTo(l, Exec(l, events), e);
      (e.Request? ==> reply == Given(events[i].newKey)) &&
      (e.Check? && e.presented == events[i].newKey && e.t >= LockEnd(l, Log(l, events)) ==>
       reply == Answered(Accepted))
  {
    hide Undisturbed, CountRecent, Exec, ReplyTo, Log, LockEnd, WrongTimes, KeyInPlace, LastIssue, LastUse;
    LastIsEarlier(events, e);
    assert forall k :: 0 <= k < |events| ==> (events + [e])[k] == events[k];
    KeyStays(l, events, i, j, |events|, e.t);
    assert Log(l, events)[..|events|] == Log(l, events);
    ReplyExactly(l, events, e);
    IssuedIsNotEmpty(Log(l, events), i);
  }

  lemma IssuedIsNotEmpty(log: seq<Entry>, i: nat)
    requires Undisturbed(log, i)
    ensures log[i].event.newKey != []
  {
  }
}
