/**
 Channel::Send called from any number of threads (SecureChannel.cpp, Send and SendFrame): each call
 takes the send lock, seals under the next counter and writes its frame piece by piece. The steps
 below are the points between which other threads may run. A socket that has reported an error
 accepts nothing more.
 */
module SendLock {
  import opened Bytes
  import opened Framing

  /** What a thread is doing: nothing, blocked on the lock, or writing a frame while it holds it. */
  datatype Thread = Idle | Waiting(plain: string) | Writing(frame: string, sent: nat)

  /**
   `messages`, `whole` and `torn` are history: what was sealed, which frames went out complete, and
   how much of the next one had gone out when the socket failed.
   */
  datatype State = State(
    broken: bool, holder: Option<nat>, threads: seq<Thread>, wire: string,
    messages: seq<string>, whole: seq<string>, torn: string)

  datatype Step =
    | Call(caller: nat, plain: string)
    | Acquire(next: nat)
    | Write(writer: nat, count: nat)
    | Error(failing: nat)
    | Finish(done: nat)

  /** AES-GCM under one key, as a function of nonce and plaintext, with its inverse. */
  datatype Cipher = Cipher(seal: (string, string) -> string, open: (string, string) -> Option<string>, client: bool)

  const TAG_SIZE: nat := 16

  /** Opening accepts exactly what was sealed under the same 12-byte nonce; sealing adds the tag. */
  ghost predicate Ideal(c: Cipher) {
    (forall n, p :: |n| == 12 ==> c.open(n, c.seal(n, p)) == Some(p) && |c.seal(n, p)| == |p| + TAG_SIZE) &&
    (forall n, f :: |n| == 12 && c.open(n, f).Some? ==> f == c.seal(n, c.open(n, f).value)) &&
    (forall n, p, n', p' :: |n| == 12 && |n'| == 12 && c.seal(n, p) == c.seal(n', p') ==> n == n')
  }

  /** What is assumed of the cipher can be met: here the tag is the nonce and four more bytes. */
  lemma IdealIsMet(c: Cipher)
    requires forall n, p :: c.seal(n, p) == n + "GCM." + p
    requires forall n, f :: c.open(n, f) == if n + "GCM." <= f then Some(f[|n| + 4..]) else None
    ensures Ideal(c)
  {
    forall n: string, p | |n| == 12 ensures c.open(n, c.seal(n, p)) == Some(p) {
      assert |"GCM."| == 4 && (n + "GCM." + p)[|n| + 4..] == p && n + "GCM." <= n + "GCM." + p;
    }
    forall n, p, n', p' | |n| == 12 && |n'| == 12 && c.seal(n, p) == c.seal(n', p') ensures n == n' {
      assert (n + "GCM." + p)[..12] == n && (n' + "GCM." + p')[..12] == n';
    }
  }

  ghost function SealAt(c: Cipher, k: nat, plain: string): string {
    c.seal(Nonce(k % U64, c.client), plain)
  }

  /** The frame of a sealed message, unless it is too long to be sent. */
  ghost function Framed(f: string): (frames: seq<string>)
    ensures ValidFrames(frames)
  {
    if |f| <= MAX_FRAME then [f] else []
  }

  /** The frames for messages sealed from counter `from` on; one that is too long only uses up its counter. */
  ghost function FramesFrom(c: Cipher, messages: seq<string>, from: nat): (frames: seq<string>)
    ensures ValidFrames(frames)
  {
    if messages == [] then []
    else Framed(SealAt(c, from, messages[0])) + FramesFrom(c, messages[1..], from + 1)
  }

  ghost function Frames(c: Cipher, messages: seq<string>): (frames: seq<string>)
    ensures ValidFrames(frames)
  {
    FramesFrom(c, messages, 0)
  }

  /** A thread inside SendFrame holds the lock, and its frame is within the limit. */
  ghost predicate WellFormed(s: State) {
    (s.holder.Some? ==> s.holder.value < |s.threads| && s.threads[s.holder.value].Writing?) &&
    (forall t :: 0 <= t < |s.threads| && s.threads[t].Writing? ==>
      s.holder == Some(t) && |s.threads[t].frame| <= MAX_FRAME && s.threads[t].sent <= |s.threads[t].frame| + 4)
  }

  ghost predicate Allowed(s: State, step: Step) {
    match step
    case Call(t, _) => t < |s.threads| && s.threads[t].Idle?
    case Acquire(t) => t < |s.threads| && s.threads[t].Waiting? && s.holder.None?
    case Write(t, n) =>
      t < |s.threads| && s.threads[t].Writing? && !s.broken && n <= |s.threads[t].frame| + 4 - s.threads[t].sent
    case Error(t) => t < |s.threads| && s.threads[t].Writing? && s.threads[t].sent < |s.threads[t].frame| + 4
    case Finish(t) => t < |s.threads| && s.threads[t].Writing? && s.threads[t].sent == |s.threads[t].frame| + 4
  }

  /** What the thread that holds the lock has written of its frame. */
  ghost function Partial(s: State): string
    requires WellFormed(s)
  {
    if s.holder.None? then ""
    else var w := s.threads[s.holder.value]; Encode(w.frame)[..w.sent]
  }

  ghost function Next(c: Cipher, s: State, step: Step): State
    requires WellFormed(s) && Allowed(s, step)
  {
    match step
    case Call(t, plain) => s.(threads := s.threads[t := Waiting(plain)])
    case Acquire(t) =>
      var plain := s.threads[t].plain;
      var f := SealAt(c, |s.messages|, plain);
      var s' := s.(messages := s.messages + [plain]);
      if |f| > MAX_FRAME then s'.(threads := s.threads[t := Idle])
      else s'.(holder := Some(t), threads := s.threads[t := Writing(f, 0)])
    case Write(t, n) =>
      var w := s.threads[t];
      s.(wire := s.wire + Encode(w.frame)[w.sent..w.sent + n], threads := s.threads[t := w.(sent := w.sent + n)])
    case Error(t) =>
      s.(broken := true, torn := if s.broken then s.torn else Partial(s), holder := None,
         threads := s.threads[t := Idle])
    case Finish(t) =>
      s.(holder := None, threads := s.threads[t := Idle], whole := s.whole + [s.threads[t].frame])
  }

  ghost predicate Initial(s: State) {
    !s.broken && s.holder.None? && s.wire == "" && s.messages == [] && s.whole == [] && s.torn == "" &&
    forall t :: 0 <= t < |s.threads| ==> s.threads[t].Idle?
  }

  /** `part` is how much of the frame after `whole` is out: nothing, or a proper prefix of it. */
  ghost predicate PartOfNext(whole: seq<string>, frames: seq<string>, part: string)
    requires ValidFrames(frames)
  {
    part == "" || (|whole| < |frames| && part < Encode(frames[|whole|]))
  }

  ghost predicate Inv(c: Cipher, s: State) {
    var frames := Frames(c, s.messages);
    WellFormed(s) && s.whole <= frames &&
    (if s.broken then
       (s.holder.Some? ==> s.threads[s.holder.value].sent == 0) &&
       s.wire == Wire(s.whole) + s.torn && PartOfNext(s.whole, frames, s.torn)
     else
       s.wire == Wire(s.whole) + Partial(s) &&
       frames == s.whole + if s.holder.Some? then [s.threads[s.holder.value].frame] else [])
  }

  lemma {:induction false} FramesOfMore(c: Cipher, messages: seq<string>, plain: string, from: nat)
    ensures FramesFrom(c, messages + [plain], from)
         == FramesFrom(c, messages, from) + Framed(SealAt(c, from + |messages|, plain))
    decreases |messages|
  {
    if messages == [] {
      assert messages + [plain] == [plain] && [plain][1..] == [];
      var f := Framed(SealAt(c, from, plain));
      assert f + [] == f && [] + f == f;
    } else {
      assert (messages + [plain])[1..] == messages[1..] + [plain];
      FramesOfMore(c, messages[1..], plain, from + 1);
      var head, mid, last := Framed(SealAt(c, from, messages[0])), FramesFrom(c, messages[1..], from + 1),
        Framed(SealAt(c, from + |messages|, plain));
      assert head + (mid + last) == (head + mid) + last;
    }
  }

  lemma {:induction false} WireOfMore(frames: seq<string>, f: string)
    requires ValidFrames(frames) && |f| <= MAX_FRAME
    ensures Wire(frames + [f]) == Wire(frames) + Encode(f)
  {
    if frames == [] {
      assert [] + [f] == [f] && [f][1..] == [];
      assert Encode(f) + "" == Encode(f) && "" + Encode(f) == Encode(f);
    } else {
      assert (frames + [f])[1..] == frames[1..] + [f];
      WireOfMore(frames[1..], f);
      Associative(Encode(frames[0]), Wire(frames[1..]), Encode(f));
    }
  }

  lemma AcquireKeepsForm(c: Cipher, s: State, step: Step)
    requires WellFormed(s) && step.Acquire? && Allowed(s, step)
    ensures var s' := Next(c, s, step);
      WellFormed(s') && (s'.holder.Some? ==> Partial(s') == "")
  {
    var s' := Next(c, s, step);
    assert forall t :: 0 <= t < |s.threads| && t != step.next ==>
      s'.threads[t] == s.threads[t] && !s.threads[t].Writing?;
  }

  lemma AcquireKeeps(c: Cipher, s: State, step: Step)
    requires Inv(c, s) && step.Acquire? && Allowed(s, step)
    ensures Inv(c, Next(c, s, step))
  {
    AcquireKeepsForm(c, s, step);
    FramesOfMore(c, s.messages, s.threads[step.next].plain, 0);
    var s' := Next(c, s, step);
    var frames, frames' := Frames(c, s.messages), Frames(c, s'.messages);
    assert frames <= frames';
    if s.broken {
      assert |s.whole| < |frames| ==> frames[|s.whole|] == frames'[|s.whole|];
    } else {
      assert s.whole + [] == s.whole;
    }
  }

  lemma WriteKeepsForm(c: Cipher, s: State, step: Step)
    requires WellFormed(s) && step.Write? && Allowed(s, step)
    ensures var w := s.threads[step.writer]; var s' := Next(c, s, step);
      WellFormed(s') && Partial(s') == Partial(s) + Encode(w.frame)[w.sent..w.sent + step.count] &&
      s'.threads[step.writer] == w.(sent := w.sent + step.count)
  {
    var w := s.threads[step.writer];
    NextPart(Encode(w.frame), w.sent, w.sent + step.count);
  }

  lemma WriteKeeps(c: Cipher, s: State, step: Step)
    requires Inv(c, s) && step.Write? && Allowed(s, step)
    ensures Inv(c, Next(c, s, step))
  {
    WriteKeepsForm(c, s, step);
    var w := s.threads[step.writer];
    Associative(Wire(s.whole), Partial(s), Encode(w.frame)[w.sent..w.sent + step.count]);
  }

  lemma ErrorKeeps(c: Cipher, s: State, step: Step)
    requires Inv(c, s) && step.Error? && Allowed(s, step)
    ensures Inv(c, Next(c, s, step))
  {
  }

  lemma FinishKeeps(c: Cipher, s: State, step: Step)
    requires Inv(c, s) && step.Finish? && Allowed(s, step)
    ensures Inv(c, Next(c, s, step))
  {
    var w := s.threads[step.done];
    assert Encode(w.frame)[..w.sent] == Encode(w.frame);
    WireOfMore(s.whole, w.frame);
  }

  ghost function Exec(c: Cipher, start: State, steps: seq<Step>): Option<State> {
    if steps == [] then Some(start)
    else
      match Exec(c, start, steps[..|steps| - 1])
      case None => None
      case Some(s) =>
        var last := steps[|steps| - 1];
        if WellFormed(s) && Allowed(s, last) then Some(Next(c, s, last)) else None
  }

  lemma {:induction false} ExecKeepsInv(c: Cipher, start: State, steps: seq<Step>)
    requires Initial(start) && Exec(c, start, steps).Some?
    ensures Inv(c, Exec(c, start, steps).value)
  {
    if steps == [] {
      assert Wire([]) + "" == "";
    } else {
      var init, last := steps[..|steps| - 1], steps[|steps| - 1];
      ExecKeepsInv(c, start, init);
      var s := Exec(c, start, init).value;
      match last {
        case Call(t, plain) => assert WellFormed(Next(c, s, last));
        case Acquire(_) => AcquireKeeps(c, s, last);
        case Write(_, _) => WriteKeeps(c, s, last);
        case Error(_) => ErrorKeeps(c, s, last);
        case Finish(_) => FinishKeeps(c, s, last);
      }
    }
  }

  /**
   However the threads interleave, the bytes on the wire are whole frames, in the order in which
   their messages were sealed and with none missing, and then at most one frame that is not whole.
   */
  lemma WireIsWholeFrames(c: Cipher, start: State, steps: seq<Step>)
    requires Initial(start) && Exec(c, start, steps).Some?
    ensures var s := Exec(c, start, steps).value; var frames := Frames(c, s.messages);
      s.whole <= frames &&
      exists part :: s.wire == Wire(s.whole) + part && (PartOfNext(s.whole, frames, part) ||
        (|s.whole| < |frames| && part == Encode(frames[|s.whole|]) && s.holder.Some?))
  {
    ExecKeepsInv(c, start, steps);
    var s := Exec(c, start, steps).value;
    var frames := Frames(c, s.messages);
    var part := if s.broken then s.torn else Partial(s);
    assert s.wire == Wire(s.whole) + part;
    if !s.broken && s.holder.Some? {
      var w := s.threads[s.holder.value];
      assert frames[|s.whole|] == w.frame;
      assert Encode(w.frame)[..|Encode(w.frame)|] == Encode(w.frame);
    }
  }

  // ------------------------------------------------------ end to end

  /** The receiving end opens frame after frame with its own counter and stops at the first failure. */
  ghost function OpenAll(c: Cipher, frames: seq<string>, from: nat): seq<string> {
    if frames == [] then []
    else
      match c.open(Nonce(from % U64, c.client), frames[0])
      case None => []
      case Some(plain) => [plain] + OpenAll(c, frames[1..], from + 1)
  }

  /** With its tag the message is within the limit of a frame. */
  predicate Fits(plain: string) {
    |plain| <= MAX_FRAME - TAG_SIZE
  }

  /** The messages before the first one that is too long. */
  ghost function Sendable(messages: seq<string>): seq<string> {
    if messages == [] || !Fits(messages[0]) then [] else [messages[0]] + Sendable(messages[1..])
  }

  /** A frame sealed under a later counter does not open under an earlier one. */
  lemma OpensOnlyOwnCounter(c: Cipher, from: nat, at: nat, plain: string)
    requires Ideal(c) && at < from < at + U64
    ensures c.open(Nonce(at % U64, c.client), SealAt(c, from, plain)) == None
  {
    var n, m := Nonce(at % U64, c.client), Nonce(from % U64, c.client);
    if n == m { NonceInjective(at % U64, from % U64, c.client, c.client); }
    assert forall p :: c.seal(m, plain) != c.seal(n, p);
  }

  ghost predicate RejectsLater(c: Cipher, at: nat) {
    forall k: nat, plain :: at < k < at + U64 ==> c.open(Nonce(at % U64, c.client), SealAt(c, k, plain)) == None
  }

  lemma OpensOnlyInTurn(c: Cipher, at: nat)
    requires Ideal(c)
    ensures RejectsLater(c, at)
  {
    forall k: nat, plain | at < k < at + U64
      ensures c.open(Nonce(at % U64, c.client), SealAt(c, k, plain)) == None
    {
      OpensOnlyOwnCounter(c, k, at, plain);
    }
  }

  lemma StopsAt(c: Cipher, f: string, rest: seq<string>, at: nat)
    requires c.open(Nonce(at % U64, c.client), f) == None
    ensures OpenAll(c, [f] + rest, at) == []
  {
  }

  lemma UnfoldFrames(c: Cipher, messages: seq<string>, from: nat)
    requires messages != []
    ensures var f := SealAt(c, from, messages[0]); var rest := FramesFrom(c, messages[1..], from + 1);
      FramesFrom(c, messages, from) == if |f| <= MAX_FRAME then [f] + rest else rest
  {
    var rest := FramesFrom(c, messages[1..], from + 1);
    assert [] + rest == rest;
  }

  lemma NothingToOpen(c: Cipher, from: nat, at: nat)
    ensures FramesFrom(c, [], from) == [] && OpenAll(c, [], at) == []
  {
  }

  lemma {:induction false} GapStopsReceiver(c: Cipher, messages: seq<string>, from: nat, at: nat)
    requires RejectsLater(c, at) && at < from && from + |messages| <= at + U64
    ensures OpenAll(c, FramesFrom(c, messages, from), at) == []
    decreases |messages|
  {
    hide OpenAll, SealAt, FramesFrom;
    if messages == [] {
      NothingToOpen(c, from, at);
    } else {
      var f := SealAt(c, from, messages[0]);
      UnfoldFrames(c, messages, from);
      if |f| <= MAX_FRAME {
        StopsAt(c, f, FramesFrom(c, messages[1..], from + 1), at);
      } else {
        GapStopsReceiver(c, messages[1..], from + 1, at);
      }
    }
  }

  lemma {:induction false} OpensSendable(c: Cipher, messages: seq<string>, from: nat)
    requires Ideal(c) && |messages| <= U64
    ensures OpenAll(c, FramesFrom(c, messages, from), from) == Sendable(messages)
    decreases |messages|
  {
    if messages != [] {
      var f := SealAt(c, from, messages[0]);
      UnfoldFrames(c, messages, from);
      if |f| <= MAX_FRAME {
        OpensSendable(c, messages[1..], from + 1);
        assert c.open(Nonce(from % U64, c.client), f) == Some(messages[0]);
        assert ([f] + FramesFrom(c, messages[1..], from + 1))[1..] == FramesFrom(c, messages[1..], from + 1);
      } else {
        OpensOnlyInTurn(c, from);
        GapStopsReceiver(c, messages[1..], from + 1, from);
      }
    }
  }

  /**
   End to end on an undisturbed connection: when no thread is sending and every frame leaves room
   for a full read, then however the threads interleaved and however the bytes were cut up and
   delayed, the peer obtains every message before the first over-long one, in sealing order, and
   nothing after it. An over-long message has used up a counter, so it cuts off all later ones.
   */
  lemma DeliversUpToFirstTooLong(c: Cipher, start: State, steps: seq<Step>, events: seq<Event>)
    requires Ideal(c) && Initial(start) && Exec(c, start, steps).Some?
    requires var s := Exec(c, start, steps).value;
      !s.broken && s.holder.None? && |s.messages| <= U64 &&
      Room(Frames(c, s.messages), RECV_CHUNK) && Delivers(events, s.wire)
    ensures var s := Exec(c, start, steps).value;
      Drain("", events).ok && OpenAll(c, Drain("", events).frames, 0) == Sendable(s.messages)
  {
    ExecKeepsInv(c, start, steps);
    var s := Exec(c, start, steps).value;
    var frames := Frames(c, s.messages);
    assert s.whole + [] == s.whole && s.whole == frames;
    assert s.wire == Wire(frames) by { assert Wire(frames) + "" == Wire(frames); }
    RoundTripExactly(frames);
    assert Drain("", events) == Drained(frames, "", true);
    OpensSendable(c, s.messages, 0);
  }

  ghost predicate AllFit(messages: seq<string>) {
    forall i :: 0 <= i < |messages| ==> Fits(messages[i])
  }

  lemma {:induction false} SendableIsAll(messages: seq<string>)
    ensures Sendable(messages) == messages <==> AllFit(messages)
  {
    if messages != [] {
      SendableIsAll(messages[1..]);
      assert messages == [messages[0]] + messages[1..];
      assert forall i :: 0 < i < |messages| ==> messages[i] == messages[1..][i - 1];
      if Fits(messages[0]) { assert Sendable(messages)[1..] == Sendable(messages[1..]); }
    }
  }

  /** Everything that was sealed arrives if and only if no message is longer than a frame without the tag. */
  lemma DeliversEverythingExactly(c: Cipher, start: State, steps: seq<Step>, events: seq<Event>)
    requires Ideal(c) && Initial(start) && Exec(c, start, steps).Some?
    requires var s := Exec(c, start, steps).value;
      !s.broken && s.holder.None? && |s.messages| <= U64 &&
      Room(Frames(c, s.messages), RECV_CHUNK) && Delivers(events, s.wire)
    ensures var s := Exec(c, start, steps).value;
      OpenAll(c, Drain("", events).frames, 0) == s.messages <==> AllFit(s.messages)
  {
    DeliversUpToFirstTooLong(c, start, steps, events);
    SendableIsAll(Exec(c, start, steps).value.messages);
  }

  // ------------------------------------------------------------- the code

  /** The steps in which thread t writes these pieces. */
  ghost function Writes(t: nat, pieces: seq<nat>): seq<Step> {
    if pieces == [] then [] else Writes(t, pieces[..|pieces| - 1]) + [Write(t, pieces[|pieces| - 1])]
  }

  lemma ExecMore(c: Cipher, s: State, steps: seq<Step>, step: Step)
    requires Exec(c, s, steps).Some? && WellFormed(Exec(c, s, steps).value) && Allowed(Exec(c, s, steps).value, step)
    ensures Exec(c, s, steps + [step]) == Some(Next(c, Exec(c, s, steps).value, step))
  {
    assert (steps + [step])[..|steps|] == steps;
  }

  /** The state in which thread t has written the first n bytes of its frame on from s. */
  ghost function Written(s: State, t: nat, frame: string, n: nat): State
    requires t < |s.threads| && |frame| <= MAX_FRAME && n <= |frame| + 4
  {
    s.(wire := s.wire + Encode(frame)[..n], threads := s.threads[t := Writing(frame, n)])
  }

  lemma WriteGoesOn(c: Cipher, s: State, t: nat, frame: string, k: nat, n: nat)
    requires t < |s.threads| && |frame| <= MAX_FRAME && k + n <= |frame| + 4 && !s.broken
    requires WellFormed(Written(s, t, frame, k))
    ensures var u := Written(s, t, frame, k);
      Allowed(u, Write(t, n)) && Next(c, u, Write(t, n)) == Written(s, t, frame, k + n) &&
      WellFormed(Written(s, t, frame, k + n))
  {
    var data := Encode(frame);
    NextPart(data, k, k + n);
    Associative(s.wire, data[..k], data[k..k + n]);
    assert Next(c, Written(s, t, frame, k), Write(t, n)).threads == Written(s, t, frame, k + n).threads;
  }

  lemma {:induction false} WritesRun(c: Cipher, s: State, t: nat, frame: string, pieces: seq<nat>)
    requires WellFormed(s) && !s.broken && t < |s.threads| && s.threads[t] == Writing(frame, 0)
    requires Sum(pieces) <= |frame| + 4
    ensures |frame| <= MAX_FRAME && WellFormed(Written(s, t, frame, Sum(pieces)))
    ensures Exec(c, s, Writes(t, pieces)) == Some(Written(s, t, frame, Sum(pieces)))
  {
    if pieces == [] {
      assert s.threads[t := Writing(frame, 0)] == s.threads;
      assert s.wire + Encode(frame)[..0] == s.wire;
    } else {
      hide Exec, WellFormed, Allowed, Next, Written;
      var init, n := pieces[..|pieces| - 1], pieces[|pieces| - 1];
      WritesRun(c, s, t, frame, init);
      WriteGoesOn(c, s, t, frame, Sum(init), n);
      ExecMore(c, s, Writes(t, init), Write(t, n));
    }
  }

  /**
   SendFrame in the hands of thread t, which holds the lock: what it does to the wire is a run of the
   thread's own steps, one for each call of `send` that took something, and then Finish if it
   succeeded and Error if it did not.
   */
  method SendUnderLock(ghost c: Cipher, ghost s: State, ghost t: nat, frame: string, socket: FrameSocket)
    returns (ok: bool, ghost steps: seq<Step>)
    requires WellFormed(s) && !s.broken && t < |s.threads| && s.threads[t] == Writing(frame, 0)
    requires socket.out == s.wire
    modifies socket`accepts, socket`out
    ensures exists pieces :: steps == Writes(t, pieces) + [if ok then Finish(t) else Error(t)]
    ensures Exec(c, s, steps).Some? && socket.out == Exec(c, s, steps).value.wire
  {
    hide Sum, Exec;
    ghost var pieces;
    ok, pieces := socket.SendFrame(frame);
    WritesRun(c, s, t, frame, pieces);
    ExecMore(c, s, Writes(t, pieces), if ok then Finish(t) else Error(t));
    steps := Writes(t, pieces) + [if ok then Finish(t) else Error(t)];
  }
}
