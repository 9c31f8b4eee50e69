/**
 Suspending and resuming every thread of a process (ThreadControl.cpp) and setting its priority
 (PriorityControl.cpp), over an abstract process table. What the OS keeps is a thread's suspend count
 and a process's priority. `others` (suspensions by other programs), `caught` (this program suspended
 the thread and has not resumed it), `late` (the thread appeared after this program last suspended the
 process) and `original` (the priority the process came with) are bookkeeping.
 */
module OsControl {

  type Pid = nat
  type Tid = nat
  datatype Thread = Thread(count: nat, others: nat, caught: bool, late: bool)
  type Threads = map<Tid, Thread>

  datatype Priority = IdlePriority | BelowNormal | NormalPriority | AboveNormal | HighPriority | Realtime

  function Rank(p: Priority): nat {
    match p
    case IdlePriority => 0
    case BelowNormal => 1
    case NormalPriority => 2
    case AboveNormal => 3
    case HighPriority => 4
    case Realtime => 5
  }

  /** A priority that auto-protect lowered: the one to give back, and the one it has set. */
  datatype Entry = Entry(original: Priority, current: Priority)

  datatype Proc = Proc(exited: bool, priority: Priority, original: Priority, threads: Threads)

  type Procs = map<Pid, Proc>

  const NO_PROCESS := Proc(true, NormalPriority, NormalPriority, map[])

  function Look(procs: Procs, pid: Pid): Proc {
    if pid in procs then procs[pid] else NO_PROCESS
  }

  function Put(procs: Procs, pid: Pid, p: Proc): Procs {
    if pid in procs then procs[pid := p] else procs
  }

  lemma PutLook(procs: Procs, pid: Pid)
    ensures Put(procs, pid, Look(procs, pid)) == procs
  {
  }

  /** Gone: the thread ended after the snapshot. Denied: it cannot be opened. Failed: the call itself fails. */
  datatype Outcome = Gone | Denied | Failed | Done

  datatype ThreadOpResult = ThreadOpResult(attempted: nat, succeeded: nat, failed: nat) {
    predicate AllSucceeded() { attempted > 0 && failed == 0 }
  }

  datatype Op = Suspend | Resume

  function Effect(op: Op, t: Thread): Thread {
    match op
    case Suspend => t.(count := t.count + 1, caught := true, late := false)
    case Resume => t.(count := if t.count > 0 then t.count - 1 else 0, caught := false)
  }

  /** The table after the call on one thread of the snapshot. */
  function Call(op: Op, threads: Threads, tid: Tid, outcome: Outcome): Threads {
    if outcome.Done? && tid in threads then threads[tid := Effect(op, threads[tid])] else threads
  }

  function Each(op: Op, threads: Threads, tids: seq<Tid>, outcome: Tid -> Outcome): Threads {
    if tids == [] then threads
    else Call(op, Each(op, threads, tids[..|tids| - 1], outcome), tids[|tids| - 1], outcome(tids[|tids| - 1]))
  }

  function Counted(r: ThreadOpResult, o: Outcome): ThreadOpResult {
    match o
    case Gone => r
    case Denied => r.(attempted := r.attempted + 1, failed := r.failed + 1)
    case Failed => r.(attempted := r.attempted + 1, failed := r.failed + 1)
    case Done => r.(attempted := r.attempted + 1, succeeded := r.succeeded + 1)
  }

  function Tally(tids: seq<Tid>, outcome: Tid -> Outcome): ThreadOpResult {
    if tids == [] then ThreadOpResult(0, 0, 0)
    else Counted(Tally(tids[..|tids| - 1], outcome), outcome(tids[|tids| - 1]))
  }

  ghost predicate Distinct(tids: seq<Tid>) {
    forall i, j :: 0 <= i < j < |tids| ==> tids[i] != tids[j]
  }

  /** Over a whole snapshot each thread is called once: exactly those that could be are changed, by one step. */
  lemma {:induction false} EachAt(op: Op, threads: Threads, tids: seq<Tid>, outcome: Tid -> Outcome, t: Tid)
    requires Distinct(tids) && t in threads
    ensures var r := Each(op, threads, tids, outcome);
      r.Keys == threads.Keys && r[t] == if t in tids && outcome(t).Done? then Effect(op, threads[t]) else threads[t]
  {
    if tids == [] {
    } else {
      var init, last := tids[..|tids| - 1], tids[|tids| - 1];
      EachAt(op, threads, init, outcome, t);
      assert tids == init + [last];
      assert t == last ==> t !in init;
    }
  }

  /** What success means: some thread was there, and every thread that was still there did as told. */
  lemma {:induction false} AllSucceededExactly(tids: seq<Tid>, outcome: Tid -> Outcome)
    ensures var r := Tally(tids, outcome);
      r.attempted == r.succeeded + r.failed &&
      (r.attempted > 0 <==> exists t :: t in tids && !outcome(t).Gone?) &&
      (r.failed == 0 <==> forall t :: t in tids ==> outcome(t).Gone? || outcome(t).Done?)
  {
    if tids == [] {
    } else {
      var init, last := tids[..|tids| - 1], tids[|tids| - 1];
      AllSucceededExactly(init, outcome);
      assert tids == init + [last];
      assert last in tids;
    }
  }

  /** Every thread carries exactly one suspension of ours if it is caught and none otherwise. */
  predicate Balanced(threads: Threads) {
    forall t :: t in threads ==> threads[t].count == threads[t].others + if threads[t].caught then 1 else 0
  }

  predicate Free(threads: Threads) {
    forall t :: t in threads ==> !threads[t].caught
  }

  /** Every thread was there when the process was suspended, and is. */
  predicate AllCaught(threads: Threads) {
    forall t :: t in threads ==> threads[t].caught && !threads[t].late
  }

  /** Exactly the threads that were there when the process was suspended are suspended by us. */
  predicate SnapshotCaught(threads: Threads) {
    forall t :: t in threads ==> (threads[t].caught <==> !threads[t].late)
  }

  /** No thread that is not ours to resume is suspended by somebody else. */
  predicate Quiet(threads: Threads) {
    forall t :: t in threads && !threads[t].caught ==> threads[t].others == 0
  }

  predicate SameOthers(a: Threads, b: Threads) {
    a.Keys == b.Keys && forall t :: t in a ==> a[t].others == b[t].others
  }

  /** The calls meet no obstacle: the snapshot is complete, and every thread in it that still exists obeys. */
  ghost predicate Works(threads: Threads, tids: seq<Tid>, outcome: Tid -> Outcome) {
    Distinct(tids) && threads != map[] &&
    (forall t :: t in threads ==> t in tids) &&
    forall t :: t in tids ==> outcome(t) == if t in threads then Done else Gone
  }

  lemma WorkingCallsSucceed(threads: Threads, tids: seq<Tid>, outcome: Tid -> Outcome)
    requires Works(threads, tids, outcome)
    ensures Tally(tids, outcome).AllSucceeded()
  {
    AllSucceededExactly(tids, outcome);
    var t :| t in threads;
    assert t in tids && !outcome(t).Gone?;
  }

  lemma WorkingCallsReachAll(op: Op, threads: Threads, tids: seq<Tid>, outcome: Tid -> Outcome)
    requires Works(threads, tids, outcome)
    ensures var r := Each(op, threads, tids, outcome);
      r.Keys == threads.Keys && forall t :: t in threads ==> r[t] == Effect(op, threads[t])
  {
    var t0 :| t0 in threads;
    EachAt(op, threads, tids, outcome, t0);
    forall t | t in threads ensures Each(op, threads, tids, outcome)[t] == Effect(op, threads[t]) {
      EachAt(op, threads, tids, outcome, t);
    }
  }

  /** Suspending a process adds one suspension to each of its threads. */
  lemma SuspendCatches(threads: Threads, tids: seq<Tid>, outcome: Tid -> Outcome)
    requires Works(threads, tids, outcome) && Balanced(threads) && Free(threads)
    ensures var r := Each(Suspend, threads, tids, outcome);
      Balanced(r) && AllCaught(r) && SameOthers(r, threads)
  {
    WorkingCallsReachAll(Suspend, threads, tids, outcome);
  }

  /**
   Resuming gives back exactly what suspending took if and only if no thread that appeared in between
   is suspended by somebody else: from such a thread it takes a suspension that was not ours.
   */
  lemma ResumeExactly(threads: Threads, tids: seq<Tid>, outcome: Tid -> Outcome)
    requires Works(threads, tids, outcome) && Balanced(threads)
    ensures var r := Each(Resume, threads, tids, outcome);
      Free(r) && SameOthers(r, threads) && (Balanced(r) <==> Quiet(threads))
  {
    WorkingCallsReachAll(Resume, threads, tids, outcome);
    var r := Each(Resume, threads, tids, outcome);
    if !Quiet(threads) {
      var t :| t in threads && !threads[t].caught && threads[t].others > 0;
      assert r[t].count != r[t].others;
    }
  }

  // ------------------------------------------------------------- the code

  datatype PriorityChangeResult = Success | AccessDenied | ProcessNotFound | OtherError

  class Os {
    var procs: Procs

    constructor (procs: Procs)
      ensures this.procs == procs
    {
      this.procs := procs;
    }

    /** SuspendThread on an opened thread; false stands for the error result. */
    method SuspendThread(pid: Pid, tid: Tid, outcome: Outcome) returns (ok: bool)
      requires !outcome.Gone? && !outcome.Denied?
      modifies this
      ensures ok == outcome.Done?
      ensures var p := Look(old(procs), pid);
        procs == Put(old(procs), pid, p.(threads := Call(Suspend, p.threads, tid, outcome)))
    {
      ok := outcome.Done?;
      var p := Look(procs, pid);
      if ok && tid in p.threads {
        var thread := p.threads[tid];
        thread := thread.(count := thread.count + 1, caught := true, late := false);
        procs := Put(procs, pid, p.(threads := p.threads[tid := thread]));
      }
    }

    method ResumeThread(pid: Pid, tid: Tid, outcome: Outcome) returns (ok: bool)
      requires !outcome.Gone? && !outcome.Denied?
      modifies this
      ensures ok == outcome.Done?
      ensures var p := Look(old(procs), pid);
        procs == Put(old(procs), pid, p.(threads := Call(Resume, p.threads, tid, outcome)))
    {
      ok := outcome.Done?;
      var p := Look(procs, pid);
      if ok && tid in p.threads {
        var thread := p.threads[tid];
        var count := if thread.count > 0 then thread.count - 1 else 0;
        thread := thread.(count := count, caught := false);
        procs := Put(procs, pid, p.(threads := p.threads[tid := thread]));
      }
    }

    method SuspendAllThreads(pid: Pid, tids: seq<Tid>, outcome: Tid -> Outcome) returns (r: ThreadOpResult)
      modifies this
      ensures r == Tally(tids, outcome)
      ensures var p := Look(old(procs), pid);
        procs == Put(old(procs), pid, p.(threads := Each(Suspend, p.threads, tids, outcome)))
    {
      r := ThreadOpResult(0, 0, 0);
      ghost var p := Look(procs, pid);
      assert tids[..0] == [];
      for i := 0 to |tids|
        invariant r == Tally(tids[..i], outcome)
        invariant procs == Put(old(procs), pid, p.(threads := Each(Suspend, p.threads, tids[..i], outcome)))
      {
        assert tids[..i + 1][..i] == tids[..i];
        var o := outcome(tids[i]);
        if o.Gone? { continue; }
        r := r.(attempted := r.attempted + 1);
        if o.Denied? {
          r := r.(failed := r.failed + 1);
          continue;
        }
        var ok := SuspendThread(pid, tids[i], o);
        r := if ok then r.(succeeded := r.succeeded + 1) else r.(failed := r.failed + 1);
      }
      assert tids[..|tids|] == tids;
    }

    method ResumeAllThreads(pid: Pid, tids: seq<Tid>, outcome: Tid -> Outcome) returns (r: ThreadOpResult)
      modifies this
      ensures r == Tally(tids, outcome)
      ensures var p := Look(old(procs), pid);
        procs == Put(old(procs), pid, p.(threads := Each(Resume, p.threads, tids, outcome)))
    {
      r := ThreadOpResult(0, 0, 0);
      ghost var p := Look(procs, pid);
      assert tids[..0] == [];
      for i := 0 to |tids|
        invariant r == Tally(tids[..i], outcome)
        invariant procs == Put(old(procs), pid, p.(threads := Each(Resume, p.threads, tids[..i], outcome)))
      {
        assert tids[..i + 1][..i] == tids[..i];
        var o := outcome(tids[i]);
        if o.Gone? { continue; }
        r := r.(attempted := r.attempted + 1);
        if o.Denied? {
          r := r.(failed := r.failed + 1);
          continue;
        }
        var ok := ResumeThread(pid, tids[i], o);
        r := if ok then r.(succeeded := r.succeeded + 1) else r.(failed := r.failed + 1);
      }
      assert tids[..|tids|] == tids;
    }

    /** `answer` is what the OS says to the request. */
    method SetProcessPriority(pid: Pid, level: Priority, answer: PriorityChangeResult) returns (r: PriorityChangeResult)
      modifies this
      ensures r == answer
      ensures procs == if answer.Success? then Put(old(procs), pid, Look(old(procs), pid).(priority := level))
        else old(procs)
    {
      if answer.Success? { procs := Put(procs, pid, Look(procs, pid).(priority := level)); }
      r := answer;
    }
  }
}
