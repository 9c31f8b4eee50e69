/**
 Length-prefixed framing over a byte stream (SecureChannel.cpp, SendFrame and ReceiveFrame).

 A byte string is a `string` whose characters are bytes. What the socket hands to successive
 `recv` calls is a script of events, so one script is one way the network may cut the stream
 into pieces and one placement of timeouts.
 */
module Framing {
  import opened Bytes

  const MAX_FRAME: nat := 0x10_0000
  const RECV_CHUNK: nat := 8192

  /** The four-byte big-endian length prefix. */
  function Header(n: nat): (h: string)
    requires n < 0x1_0000_0000
    ensures |h| == 4
  {
    [(n / 0x100_0000) as char, (n / 0x1_0000 % 256) as char, (n / 0x100 % 256) as char, (n % 256) as char]
  }

  function HeaderValue(b: string): nat
    requires |b| >= 4
  {
    b[0] as int * 0x100_0000 + b[1] as int * 0x1_0000 + b[2] as int * 0x100 + b[3] as int
  }

  lemma FourDigits(n: nat)
    requires n < 0x1_0000_0000
    ensures n / 0x100_0000 < 256
    ensures n == n / 0x100_0000 * 0x100_0000 + n / 0x1_0000 % 256 * 0x1_0000 + n / 0x100 % 256 * 0x100 + n % 256
  {
    var a := n / 0x100;
    var b := a / 0x100;
    assert n == 0x100 * a + n % 0x100;
    assert a == 0x100 * b + a % 0x100;
    assert b == n / 0x1_0000;
    assert b == 0x100 * (b / 0x100) + b % 0x100;
    assert b / 0x100 == n / 0x100_0000;
  }

  lemma HeaderRoundTrip(n: nat, rest: string)
    requires n < 0x1_0000_0000
    ensures HeaderValue(Header(n) + rest) == n
  {
    FourDigits(n);
    var b := Header(n) + rest;
    assert b[0] == Header(n)[0] && b[1] == Header(n)[1] && b[2] == Header(n)[2] && b[3] == Header(n)[3];
  }

  function Encode(frame: string): (data: string)
    requires |frame| <= MAX_FRAME
    ensures |data| == 4 + |frame|
  {
    Header(|frame|) + frame
  }

  ghost predicate ValidFrames(frames: seq<string>) {
    forall i :: 0 <= i < |frames| ==> |frames[i]| <= MAX_FRAME
  }

  /** Everything a sender writes for a sequence of frames. */
  ghost function Wire(frames: seq<string>): (w: string)
    requires ValidFrames(frames)
  {
    if frames == [] then "" else Encode(frames[0]) + Wire(frames[1..])
  }

  // ---------------------------------------------------------------- receiving

  /** What one wait on the socket yields: bytes, nothing before the deadline, or an error. */
  datatype Event = Data(bytes: string) | Quiet | Broken

  /** The three outcomes of ReceiveFrame (1, 0 and -1), with the buffer and the script left over. */
  datatype Received =
    | Frame(frame: string, rx: string, rest: seq<Event>)
    | Timeout(rx: string, rest: seq<Event>)
    | Rejected(rx: string, rest: seq<Event>)

  predicate BadHeader(rx: string) {
    |rx| >= 4 && HeaderValue(rx) > MAX_FRAME
  }

  predicate HasFrame(rx: string) {
    |rx| >= 4 && HeaderValue(rx) <= MAX_FRAME && |rx| >= 4 + HeaderValue(rx)
  }

  /** One call of ReceiveFrame. An empty read is a closed connection. */
  function Receive(rx: string, events: seq<Event>): (r: Received)
    ensures |r.rest| <= |events|
    ensures r.Frame? ==> |r.rest| < |events| || |r.rx| < |rx|
    ensures r.Timeout? ==> !BadHeader(r.rx) && !HasFrame(r.rx)
    ensures r.Timeout? ==> if events == [] then r.rest == [] && r.rx == rx else |r.rest| < |events|
    decreases |events|
  {
    if BadHeader(rx) then
      Rejected(rx, events)
    else if HasFrame(rx) then
      var n := HeaderValue(rx);
      Frame(rx[4..4 + n], rx[4 + n..], events)
    else if events == [] then
      Timeout(rx, [])
    else
      match events[0]
      case Quiet => Timeout(rx, events[1..])
      case Broken => Rejected(rx, events[1..])
      case Data(b) =>
        if b == "" then Rejected(rx, events[1..])
        else if |rx + b| > MAX_FRAME + 4 then Rejected(rx + b, events[1..])
        else Receive(rx + b, events[1..])
  }

  datatype Drained = Drained(frames: seq<string>, rx: string, ok: bool)

  /** A reader that calls ReceiveFrame again after every frame and every timeout. */
  ghost function Drain(rx: string, events: seq<Event>): Drained
    decreases |events|, |rx|
  {
    match Receive(rx, events)
    case Frame(f, rx', rest) => var d := Drain(rx', rest); d.(frames := [f] + d.frames)
    case Timeout(rx', rest) => if events == [] then Drained([], rx', true) else Drain(rx', rest)
    case Rejected(rx', _) => Drained([], rx', false)
  }

  // ------------------------------------------------- which streams are safe

  ghost function BytesOf(e: Event): string {
    if e.Data? then e.bytes else ""
  }

  ghost function Stream(events: seq<Event>): string {
    if events == [] then "" else BytesOf(events[0]) + Stream(events[1..])
  }

  /** No errors, and every read returns between 1 and c bytes. */
  ghost predicate Legal(events: seq<Event>, c: nat) {
    forall i :: 0 <= i < |events| ==>
      events[i].Quiet? || (events[i].Data? && 1 <= |events[i].bytes| <= c)
  }

  /** The script is one way to receive exactly the bytes s. */
  ghost predicate Delivers(events: seq<Event>, s: string) {
    Legal(events, RECV_CHUNK) && Stream(events) == s
  }

  /**
   With reads of at most c bytes, no frame can push the buffer over its limit: either the frame
   leaves room for a full read, or all that is still to come fits in the buffer anyway.
   */
  ghost predicate Room(frames: seq<string>, c: nat)
    requires ValidFrames(frames)
  {
    frames == [] ||
    ((|frames[0]| + c <= MAX_FRAME + 1 || |Wire(frames)| <= MAX_FRAME + 4) && Room(frames[1..], c))
  }

  /** What a reader must have after the bytes s of the stream for `frames`. */
  ghost function Expect(frames: seq<string>, s: string): Drained {
    if frames == [] || |s| < 4 + |frames[0]| then Drained([], s, true)
    else
      var d := Expect(frames[1..], s[4 + |frames[0]|..]);
      d.(frames := [frames[0]] + d.frames)
  }

  lemma PrefixParts(rx: string, more: string, whole: string, k: nat)
    requires rx + more <= whole && k <= |rx|
    ensures rx[..k] == whole[..k] && rx[k..] + more <= whole[k..]
  {
    assert rx[k..] + more == (rx + more)[k..];
    assert rx[..k] == (rx + more)[..k];
  }

  lemma WireParts(frames: seq<string>)
    requires ValidFrames(frames) && frames != []
    ensures var w := Wire(frames); var n := |frames[0]|;
      |w| >= 4 + n && HeaderValue(w) == n && w[4..4 + n] == frames[0] && w[4 + n..] == Wire(frames[1..])
  {
    var f, tail := frames[0], Wire(frames[1..]);
    HeaderRoundTrip(|f|, f + tail);
    assert Wire(frames) == Header(|f|) + (f + tail);
  }

  lemma PrefixOfWire(rx: string, more: string, frames: seq<string>)
    requires ValidFrames(frames) && frames != [] && rx + more <= Wire(frames)
    ensures |rx| >= 4 ==> HeaderValue(rx) == |frames[0]|
    ensures |rx| >= 4 + |frames[0]| ==>
      rx[4..4 + |frames[0]|] == frames[0] && rx[4 + |frames[0]|..] + more <= Wire(frames[1..])
  {
    var w := Wire(frames);
    var n := |frames[0]|;
    WireParts(frames);
    if |rx| >= 4 {
      PrefixParts(rx, more, w, 4);
      assert forall i :: 0 <= i < 4 ==> rx[i] == rx[..4][i] && w[i] == w[..4][i];
    }
    if |rx| >= 4 + n {
      PrefixParts(rx, more, w, 4 + n);
      assert rx[4..4 + n] == rx[..4 + n][4..] && w[4..4 + n] == w[..4 + n][4..];
    }
  }

  /** Receiving one more piece and then draining is draining with that piece first in the script. */
  lemma DrainPiece(rx: string, events: seq<Event>)
    requires events != [] && events[0].Data? && events[0].bytes != ""
    requires !BadHeader(rx) && !HasFrame(rx) && |rx + events[0].bytes| <= MAX_FRAME + 4
    ensures Drain(rx, events) == Drain(rx + events[0].bytes, events[1..])
  {
    var r := Receive(rx + events[0].bytes, events[1..]);
    assert Receive(rx, events) == r;
    if r.Timeout? && events[1..] == [] {
      assert Receive(r.rx, []) == Timeout(r.rx, []);
    }
  }

  lemma DrainFrame(rx: string, events: seq<Event>)
    requires HasFrame(rx)
    ensures var n := HeaderValue(rx); var d := Drain(rx[4 + n..], events);
      Drain(rx, events) == d.(frames := [rx[4..4 + n]] + d.frames)
  {
  }

  lemma ExpectFrame(frames: seq<string>, rx: string, more: string)
    requires frames != [] && |rx| >= 4 + |frames[0]|
    ensures var d := Expect(frames[1..], rx[4 + |frames[0]|..] + more);
      Expect(frames, rx + more) == d.(frames := [frames[0]] + d.frames)
  {
    assert (rx + more)[4 + |frames[0]|..] == rx[4 + |frames[0]|..] + more;
  }

  lemma NoFrameYet(rx: string, more: string, frames: seq<string>)
    requires ValidFrames(frames) && rx + more <= Wire(frames)
    requires frames == [] || |rx| < 4 + |frames[0]|
    ensures !BadHeader(rx) && !HasFrame(rx)
  {
    if frames != [] { PrefixOfWire(rx, more, frames); }
  }

  lemma PieceFits(rx: string, events: seq<Event>, frames: seq<string>, c: nat)
    requires ValidFrames(frames) && Room(frames, c) && rx + Stream(events) <= Wire(frames)
    requires frames == [] || |rx| < 4 + |frames[0]|
    requires events != [] && events[0].Data? && |events[0].bytes| <= c
    ensures rx + Stream(events) == (rx + events[0].bytes) + Stream(events[1..])
    ensures |rx + events[0].bytes| <= MAX_FRAME + 4
  {
    var b, tail := events[0].bytes, Stream(events[1..]);
    Associative(rx, b, tail);
    assert |rx| + |b| <= |rx + Stream(events)| <= |Wire(frames)|;
  }

  /** The reader has exactly the frames that are complete so far, whatever the cuts and timeouts. */
  lemma {:induction false} DrainsInOrder(rx: string, events: seq<Event>, frames: seq<string>, c: nat)
    requires ValidFrames(frames) && Legal(events, c) && Room(frames, c)
    requires rx + Stream(events) <= Wire(frames)
    ensures Drain(rx, events) == Expect(frames, rx + Stream(events))
    decreases |events|, |frames|
  {
    if frames != [] && |rx| >= 4 + |frames[0]| {
      PrefixOfWire(rx, Stream(events), frames);
      DrainsInOrder(rx[4 + |frames[0]|..], events, frames[1..], c);
      DrainFrame(rx, events);
      ExpectFrame(frames, rx, Stream(events));
    } else {
      NoFrameYet(rx, Stream(events), frames);
      if events == [] {
        assert rx + Stream(events) == rx;
      } else if events[0].Quiet? {
        assert Stream(events) == Stream(events[1..]);
        DrainsInOrder(rx, events[1..], frames, c);
      } else {
        PieceFits(rx, events, frames, c);
        DrainPiece(rx, events);
        DrainsInOrder(rx + events[0].bytes, events[1..], frames, c);
      }
    }
  }

  lemma {:induction false} ExpectAll(frames: seq<string>)
    requires ValidFrames(frames)
    ensures Expect(frames, Wire(frames)) == Drained(frames, "", true)
  {
    if frames != [] {
      assert Wire(frames)[4 + |frames[0]|..] == Wire(frames[1..]);
      ExpectAll(frames[1..]);
    }
  }

  // --------------------------------------------- the bound is exact

  ghost function OneByOne(s: string): seq<Event> {
    if s == "" then [] else [Data(s[..1])] + OneByOne(s[1..])
  }

  lemma {:induction false} OneByOneIsLegal(s: string)
    ensures Legal(OneByOne(s), 1) && Stream(OneByOne(s)) == s
  {
    if s != "" {
      OneByOneIsLegal(s[1..]);
      assert OneByOne(s)[1..] == OneByOne(s[1..]);
    }
  }

  lemma {:induction false} StreamAppend(a: seq<Event>, b: seq<Event>)
    ensures Stream(a + b) == Stream(a) + Stream(b)
  {
    if a == [] {
      assert a + b == b;
      assert Stream(a) == "";
    } else {
      StreamAppend(a[1..], b);
      assert (a + b)[1..] == a[1..] + b && (a + b)[0] == a[0];
      var head, x, y := BytesOf(a[0]), Stream(a[1..]), Stream(b);
      assert head + (x + y) == (head + x) + y;
    }
  }

  /** What a reader meets that goes on and has no whole frame yet. */
  lemma DrainGoesOn(rx: string, a: seq<Event>)
    requires Drain(rx, a).ok && !HasFrame(rx)
    ensures !BadHeader(rx)
    ensures if a == [] then Drain(rx, a) == Drained([], rx, true)
            else if a[0].Data? then a[0].bytes != "" && |rx + a[0].bytes| <= MAX_FRAME + 4
            else a[0].Quiet?
  {
  }

  lemma DrainQuiet(rx: string, events: seq<Event>)
    requires events != [] && events[0].Quiet? && !BadHeader(rx) && !HasFrame(rx)
    ensures Drain(rx, events) == Drain(rx, events[1..])
  {
  }

  lemma {:induction false} DrainAppend(rx: string, a: seq<Event>, b: seq<Event>)
    requires Drain(rx, a).ok
    ensures var d := Drain(rx, a); var e := Drain(d.rx, b);
      Drain(rx, a + b) == Drained(d.frames + e.frames, e.rx, e.ok)
    decreases |a|, |rx|
  {
    hide Drain, HeaderValue, BadHeader;
    if HasFrame(rx) {
      var n := HeaderValue(rx);
      DrainFrame(rx, a);
      DrainAppend(rx[4 + n..], a, b);
      DrainFrame(rx, a + b);
      var rest := Drain(rx[4 + n..], a);
      var more := Drain(rest.rx, b).frames;
      assert [rx[4..4 + n]] + rest.frames + more == [rx[4..4 + n]] + (rest.frames + more);
    } else if a == [] {
      DrainGoesOn(rx, a);
      assert a + b == b;
      var e := Drain(rx, b);
      assert [] + e.frames == e.frames;
    } else {
      DrainGoesOn(rx, a);
      assert (a + b)[1..] == a[1..] + b;
      if a[0].Data? {
        DrainPiece(rx, a);
        DrainPiece(rx, a + b);
        DrainAppend(rx + a[0].bytes, a[1..], b);
      } else {
        DrainQuiet(rx, a);
        DrainQuiet(rx, a + b);
        DrainAppend(rx, a[1..], b);
      }
    }
  }

  /** A script for a stream that is not safe: it walks up to the fatal frame one byte at a time. */
  ghost function Overflow(frames: seq<string>): seq<Event>
    requires ValidFrames(frames) && !Room(frames, RECV_CHUNK)
  {
    var w := Wire(frames);
    var n := |frames[0]|;
    if n + RECV_CHUNK > MAX_FRAME + 1 && |w| > MAX_FRAME + 4 then
      var b := n + 3;
      var m := if |w| - b < RECV_CHUNK then |w| - b else RECV_CHUNK;
      OneByOne(w[..b]) + ([Data(w[b..b + m])] + OneByOne(w[b + m..]))
    else
      OneByOne(Encode(frames[0])) + Overflow(frames[1..])
  }

  lemma {:induction false} RoomForSingles(frames: seq<string>)
    requires ValidFrames(frames)
    ensures Room(frames, 1)
  {
    if frames != [] { RoomForSingles(frames[1..]); }
  }

  lemma LegalAppend(a: seq<Event>, b: seq<Event>, c: nat)
    requires Legal(a, c) && Legal(b, c)
    ensures Legal(a + b, c)
  {
  }

  lemma StreamCons(e: Event, tail: seq<Event>)
    ensures Stream([e] + tail) == BytesOf(e) + Stream(tail)
  {
    assert ([e] + tail)[1..] == tail;
  }

  lemma ThreeParts(w: string, i: nat, j: nat)
    requires i <= j <= |w|
    ensures w[..i] + (w[i..j] + w[j..]) == w
  {
  }

  lemma FatalPieceDelivers(w: string, b: nat, m: nat)
    requires 1 <= m <= RECV_CHUNK && b + m <= |w|
    ensures Delivers(OneByOne(w[..b]) + ([Data(w[b..b + m])] + OneByOne(w[b + m..])), w)
  {
    hide OneByOne, Legal;
    var singles, big, tail := OneByOne(w[..b]), Data(w[b..b + m]), OneByOne(w[b + m..]);
    OneByOneIsLegal(w[..b]);
    OneByOneIsLegal(w[b + m..]);
    PieceIsLegal(big.bytes);
    LegalAppend([big], tail, RECV_CHUNK);
    LegalAppend(singles, [big] + tail, RECV_CHUNK);
    hide Stream;
    StreamAppend(singles, [big] + tail);
    StreamCons(big, tail);
    ThreeParts(w, b, b + m);
  }

  lemma PieceIsLegal(piece: string)
    requires 1 <= |piece| <= RECV_CHUNK
    ensures Legal([Data(piece)], RECV_CHUNK)
  {
  }

  /** Fed one byte at a time, the reader waits with all but the last byte of a frame. */
  lemma WaitsForLastByte(frames: seq<string>)
    requires ValidFrames(frames) && frames != []
    ensures |Wire(frames)| >= |frames[0]| + 4
    ensures var partial := Wire(frames)[..|frames[0]| + 3];
      Drain("", OneByOne(partial)) == Drained([], partial, true) && !BadHeader(partial) && !HasFrame(partial)
  {
    var partial := Wire(frames)[..|frames[0]| + 3];
    OneByOneIsLegal(partial);
    assert "" + Stream(OneByOne(partial)) == partial;
    RoomForSingles(frames);
    DrainsInOrder("", OneByOne(partial), frames, 1);
    assert partial + "" == partial;
    NoFrameYet(partial, "", frames);
  }

  lemma FatalPiece(frames: seq<string>)
    requires ValidFrames(frames) && frames != []
    requires |frames[0]| + RECV_CHUNK > MAX_FRAME + 1 && |Wire(frames)| > MAX_FRAME + 4
    ensures Delivers(Overflow(frames), Wire(frames)) && !Drain("", Overflow(frames)).ok
  {
    hide OneByOne, Drain, Delivers, HasFrame, BadHeader, Wire;
    var w := Wire(frames);
    var b := |frames[0]| + 3;
    var m := if |w| - b < RECV_CHUNK then |w| - b else RECV_CHUNK;
    FatalPieceDelivers(w, b, m);
    WaitsForLastByte(frames);
    var last := [Data(w[b..b + m])] + OneByOne(w[b + m..]);
    BigPieceRejects(w[..b], w[b..b + m], OneByOne(w[b + m..]));
    DrainAppend("", OneByOne(w[..b]), last);
  }

  /** A buffer that waits for more is rejected when a piece takes it past the limit. */
  lemma BigPieceRejects(rx: string, piece: string, rest: seq<Event>)
    requires !BadHeader(rx) && !HasFrame(rx) && |rx| + |piece| > MAX_FRAME + 4 && 1 <= |piece| <= RECV_CHUNK
    ensures !Drain(rx, [Data(piece)] + rest).ok
  {
    assert Receive(rx, [Data(piece)] + rest).Rejected?;
  }

  lemma {:induction false} OverflowRejects(frames: seq<string>)
    requires ValidFrames(frames) && !Room(frames, RECV_CHUNK)
    ensures Delivers(Overflow(frames), Wire(frames)) && !Drain("", Overflow(frames)).ok
  {
    var f := frames[0];
    if |f| + RECV_CHUNK > MAX_FRAME + 1 && |Wire(frames)| > MAX_FRAME + 4 {
      FatalPiece(frames);
    } else {
      OverflowRejects(frames[1..]);
      var singles := OneByOne(Encode(f));
      OneByOneIsLegal(Encode(f));
      StreamAppend(singles, Overflow(frames[1..]));
      assert Wire([f]) == Encode(f) + "";
      assert Encode(f) + "" == Encode(f);
      RoomForSingles([f]);
      assert "" + Stream(singles) == Wire([f]);
      DrainsInOrder("", singles, [f], 1);
      ExpectAll([f]);
      DrainAppend("", singles, Overflow(frames[1..]));
    }
  }

  /**
   Framing round trip, with its exact condition: the reader gets every frame, in order and
   nothing else, from every way of cutting and delaying the stream, if and only if each frame
   leaves room for a full read or is followed by little enough.
   */
  lemma RoundTripExactly(frames: seq<string>)
    requires ValidFrames(frames)
    ensures Room(frames, RECV_CHUNK) <==>
      forall events :: Delivers(events, Wire(frames)) ==> Drain("", events) == Drained(frames, "", true)
  {
    if Room(frames, RECV_CHUNK) {
      forall events | Delivers(events, Wire(frames))
        ensures Drain("", events) == Drained(frames, "", true)
      {
        assert "" + Stream(events) == Wire(frames);
        DrainsInOrder("", events, frames, RECV_CHUNK);
        ExpectAll(frames);
      }
    } else {
      OverflowRejects(frames);
    }
  }

  /** Frames of at most kMaxFrame - 8191 bytes are always safe, however many are pipelined. */
  lemma {:induction false} ShortFramesAreSafe(frames: seq<string>)
    requires forall i :: 0 <= i < |frames| ==> |frames[i]| <= MAX_FRAME - 8191
    ensures Room(frames, RECV_CHUNK)
  {
    if frames != [] { ShortFramesAreSafe(frames[1..]); }
  }

  /** One byte more is not safe once a full read of a successor is already on the wire. */
  lemma LongerFrameIsNotSafe(f: string, next: string)
    requires |f| == MAX_FRAME - 8190 && 8187 <= |next| <= MAX_FRAME
    ensures !Room([f, next], RECV_CHUNK)
  {
    var frames := [f, next];
    assert Wire(frames) == Encode(f) + Wire(frames[1..]);
    assert Wire(frames[1..]) == Encode(next) + Wire(frames[1..][1..]);
  }

  // ------------------------------------------ whatever the network sends

  lemma HeaderIsCanonical(b: string)
    requires |b| >= 4 && IsBytes(b)
    ensures HeaderValue(b) < 0x1_0000_0000 && Header(HeaderValue(b)) == b[..4]
  {
    var n := HeaderValue(b);
    assert b[0] as int < 256 && b[1] as int < 256 && b[2] as int < 256 && b[3] as int < 256;
    assert n / 0x100_0000 == b[0] as int;
    assert n / 0x1_0000 == b[0] as int * 0x100 + b[1] as int;
    assert n / 0x100 == b[0] as int * 0x1_0000 + b[1] as int * 0x100 + b[2] as int;
  }

  lemma FrameReencodes(rx: string, rest: Drained, more: string)
    requires IsBytes(rx) && HasFrame(rx) && ValidFrames(rest.frames)
    requires Wire(rest.frames) + rest.rx == rx[4 + HeaderValue(rx)..] + more
    ensures var f := rx[4..4 + HeaderValue(rx)];
      ValidFrames([f] + rest.frames) && Wire([f] + rest.frames) + rest.rx == rx + more
  {
    var n := HeaderValue(rx);
    var f := rx[4..4 + n];
    HeaderIsCanonical(rx);
    assert ([f] + rest.frames)[1..] == rest.frames;
    assert Encode(f) + rx[4 + n..] == rx;
    assert Wire([f] + rest.frames) + rest.rx == Encode(f) + (Wire(rest.frames) + rest.rx);
    assert Encode(f) + (rx[4 + n..] + more) == rx + more;
  }

  /**
   On any stream, hostile or not, that the reader does not reject: the frames it returned, encoded
   again and followed by what it still buffers, are exactly the bytes that arrived, so no byte is
   lost, invented or moved, and no frame is longer than the limit.
   */
  lemma {:induction false} ReaderInvertsSender(rx: string, events: seq<Event>)
    requires IsBytes(rx) && IsBytes(Stream(events)) && Drain(rx, events).ok
    ensures var d := Drain(rx, events);
      ValidFrames(d.frames) && Wire(d.frames) + d.rx == rx + Stream(events)
    decreases |events|, |rx|
  {
    if HasFrame(rx) {
      var n := HeaderValue(rx);
      DrainFrame(rx, events);
      ReaderInvertsSender(rx[4 + n..], events);
      FrameReencodes(rx, Drain(rx[4 + n..], events), Stream(events));
    } else if events == [] {
      assert rx + "" == rx && "" + rx == rx;
    } else if events[0].Data? {
      var b, tail := events[0].bytes, events[1..];
      DrainPiece(rx, events);
      BytesOfAppend(b, Stream(tail));
      BytesOfAppend(rx, b);
      ReaderInvertsSender(rx + b, tail);
      Associative(rx, b, Stream(tail));
    } else {
      BytesOfAppend("", Stream(events[1..]));
      assert Stream(events) == Stream(events[1..]);
      ReaderInvertsSender(rx, events[1..]);
    }
  }

  /** The header is the length with its most significant byte first. */
  lemma HeaderIsBigEndian(n: nat)
    requires n < 0x1_0000_0000
    ensures Header(n) == BigEndian(n, 4)
  {
    assert BigEndian(n, 4) == BigEndian(n / 0x100, 3) + [(n % 0x100) as char];
    assert BigEndian(n / 0x100, 3) == BigEndian(n / 0x100 / 0x100, 2) + [(n / 0x100 % 0x100) as char];
    assert n / 0x100 / 0x100 == n / 0x1_0000 && n / 0x1_0000 / 0x100 == n / 0x100_0000;
    assert BigEndian(n / 0x1_0000, 2) == BigEndian(n / 0x100_0000, 1) + [(n / 0x1_0000 % 0x100) as char];
    assert BigEndian(n / 0x100_0000, 1) == BigEndian(n / 0x100_0000 / 0x100, 0) + [(n / 0x100_0000 % 0x100) as char];
  }

  /** The header of a frame over the limit is rejected as soon as its four bytes are there, with nothing more read. */
  lemma LongHeaderIsRejected(frame: string, more: string, a: seq<Event>, b: seq<Event>)
    requires MAX_FRAME < |frame| < 0x1_0000_0000 && Drain("", a).ok && Drain("", a).rx + more == Header(|frame|)
    requires 1 <= |more|
    ensures Drain("", a + [Data(more)] + b) == Drained(Drain("", a).frames, Header(|frame|), false)
  {
    var rx := Drain("", a).rx;
    assert a + [Data(more)] + b == a + ([Data(more)] + b);
    DrainAppend("", a, [Data(more)] + b);
    HeaderRoundTrip(|frame|, "");
    assert Header(|frame|) + "" == Header(|frame|);
    assert ([Data(more)] + b)[1..] == b;
    assert Receive(rx, [Data(more)] + b) == Receive(rx + more, b) == Rejected(rx + more, b);
    assert Drain("", a).frames + [] == Drain("", a).frames;
  }

  /** A socket error or a closed connection ends the reading, whatever frames came before. */
  lemma ErrorEndsReading(a: seq<Event>, e: Event, b: seq<Event>)
    requires Drain("", a).ok && (e.Broken? || e == Data(""))
    ensures Drain("", a + [e] + b) == Drained(Drain("", a).frames, Drain("", a).rx, false)
  {
    var rx := Drain("", a).rx;
    assert a + [e] + b == a + ([e] + b);
    DrainAppend("", a, [e] + b);
    DrainedWaits("", a);
    assert Receive(rx, [e] + b).Rejected?;
    assert Drain("", a).frames + [] == Drain("", a).frames;
  }

  lemma {:induction false} DrainedWaits(rx: string, events: seq<Event>)
    requires Drain(rx, events).ok
    ensures var r := Drain(rx, events).rx; !BadHeader(r) && !HasFrame(r)
    decreases |events|, |rx|
  {
    match Receive(rx, events)
    case Frame(f, rx', rest) => DrainedWaits(rx', rest);
    case Timeout(rx', rest) => if events != [] { DrainedWaits(rx', rest); }
    case Rejected(_, _) => assert false;
  }

  /** However much the network sends, a reader that goes on holds at most one frame and its header. */
  lemma {:induction false} BufferIsBounded(rx: string, events: seq<Event>)
    requires |rx| <= MAX_FRAME + 4
    ensures Drain(rx, events).ok ==> |Drain(rx, events).rx| <= MAX_FRAME + 4
    decreases |events|, |rx|
  {
    if HasFrame(rx) {
      DrainFrame(rx, events);
      BufferIsBounded(rx[4 + HeaderValue(rx)..], events);
    } else if !BadHeader(rx) && events != [] {
      if events[0].Data? && events[0].bytes != "" && |rx + events[0].bytes| <= MAX_FRAME + 4 {
        DrainPiece(rx, events);
        BufferIsBounded(rx + events[0].bytes, events[1..]);
      } else if events[0].Quiet? {
        BufferIsBounded(rx, events[1..]);
      }
    }
  }

  // ------------------------------------------------------------- the code

  function Sum(s: seq<int>): (sum: int)
    ensures (forall i :: 0 <= i < |s| ==> s[i] >= 0) ==> sum >= 0
  {
    if s == [] then 0 else Sum(s[..|s| - 1]) + s[|s| - 1]
  }

  ghost predicate NoErrors(accepts: seq<int>) {
    forall i :: 0 <= i < |accepts| ==> accepts[i] >= 0
  }

  /** The first call of `send` that reports an error is number e. */
  ghost predicate FirstError(accepts: seq<int>, e: nat) {
    e < |accepts| && accepts[e] < 0 && NoErrors(accepts[..e])
  }

  function Least(a: int, b: int): (m: int)
    ensures m <= a && m <= b && (m == a || m == b)
  {
    if a < b then a else b
  }

  lemma SumMore(s: seq<int>, n: int)
    ensures Sum(s + [n]) == Sum(s) + n
  {
    assert (s + [n])[..|s|] == s;
  }

  lemma {:induction false} SumGrows(s: seq<int>, k: nat)
    requires k <= |s| && NoErrors(s)
    ensures Sum(s[..k]) <= Sum(s)
  {
    if k < |s| {
      SumGrows(s[..|s| - 1], k);
      assert s[..|s| - 1][..k] == s[..k];
    } else {
      assert s[..k] == s;
    }
  }

  /** What is out after k calls that met no error. */
  ghost predicate SentAfter(accepts: seq<int>, k: nat, sent: nat, length: nat) {
    if k <= |accepts| then NoErrors(accepts[..k]) && sent == Least(length, Sum(accepts[..k]))
    else NoErrors(accepts) && sent == length
  }

  /** One more call: it takes what it may of what is left, and everything once nothing is known of it. */
  lemma OneMoreCall(accepts: seq<int>, k: nat, sent: nat, length: nat, r: nat)
    requires SentAfter(accepts, k, sent, length) && sent < length
    requires r == if k < |accepts| && accepts[k] < length - sent then accepts[k] else length - sent
    requires k < |accepts| ==> accepts[k] >= 0
    ensures SentAfter(accepts, k + 1, sent + r, length)
  {
    if k < |accepts| {
      SumMore(accepts[..k], accepts[k]);
      assert accepts[..k + 1] == accepts[..k] + [accepts[k]];
    } else if k == |accepts| {
      assert accepts[..k] == accepts;
    }
  }

  lemma OneFirstError(accepts: seq<int>, k: nat, e: nat)
    requires k <= |accepts| && NoErrors(accepts[..k]) && FirstError(accepts, e)
    ensures k <= e
  {
  }

  /** The answers left after this many calls. */
  function AnswersAfter(accepts: seq<int>, calls: nat): seq<int> {
    if calls <= |accepts| then accepts[calls..] else []
  }

  lemma PieceOf(out: string, data: string, i: nat, j: nat)
    requires i <= j <= |data|
    ensures out + data[..i] + data[i..][..j - i] == out + data[..j]
  {
    NextPart(data, i, j);
    Associative(out, data[..i], data[i..j]);
    assert data[i..][..j - i] == data[i..j];
  }

  lemma NothingSent(accepts: seq<int>, length: nat)
    ensures SentAfter(accepts, 0, 0, length) && Sum([]) == 0
  {
    assert accepts[..0] == [];
  }

  /** The next call reports the first error: what is out is what the calls before it took. */
  lemma ErrorNow(accepts: seq<int>, k: nat, sent: nat, length: nat)
    requires SentAfter(accepts, k, sent, length) && sent < length && k < |accepts| && accepts[k] < 0
    ensures !NoErrors(accepts) && sent == Sum(accepts[..k])
    ensures forall e: nat :: FirstError(accepts, e) <==> e == k
  {
    assert FirstError(accepts, k);
    forall e: nat | FirstError(accepts, e) ensures e == k {
      OneFirstError(accepts, k, e);
      OneFirstError(accepts, e, k);
    }
  }

  /** When everything is out, no error came before the calls had taken as much. */
  lemma AllIsOut(accepts: seq<int>, k: nat, length: nat)
    requires SentAfter(accepts, k, length, length)
    ensures forall e: nat :: FirstError(accepts, e) ==> Sum(accepts[..e]) >= length
  {
    forall e: nat | FirstError(accepts, e) ensures Sum(accepts[..e]) >= length {
      if k <= |accepts| {
        OneFirstError(accepts, k, e);
        SumGrows(accepts[..e], k);
        assert accepts[..e][..k] == accepts[..k];
      }
    }
  }

  lemma NextPart(data: string, i: nat, j: nat)
    requires i <= j <= |data|
    ensures data[..i] + data[i..j] == data[..j]
  {
  }

  /** The socket and the receive buffer of one channel. */
  class FrameSocket {
    var events: seq<Event>    // what later reads will yield
    var accepts: seq<int>     // what later calls of send will accept
    var out: string           // bytes handed to the network so far
    var rxBuffer: string

    constructor (events: seq<Event>, accepts: seq<int>)
      ensures this.events == events && this.accepts == accepts && out == "" && rxBuffer == ""
    {
      this.events, this.accepts := events, accepts;
      out, rxBuffer := "", "";
    }

    /**
     Writes the whole encoded frame, or the part of it that the calls of `send` took before one reported an
     error; `pieces` is what they took, call by call. A call takes at most what it is offered, and a call
     after those in `accepts` all of it.
     */
    method SendFrame(frame: string) returns (ok: bool, ghost pieces: seq<nat>)
      modifies this`accepts, this`out
      ensures |frame| > MAX_FRAME ==> !ok && out == old(out) && accepts == old(accepts) && pieces == []
      ensures |frame| <= MAX_FRAME ==>
        (NoErrors(old(accepts)) ==> ok && out == old(out) + Encode(frame)) &&
        (forall e: nat :: FirstError(old(accepts), e) ==>
          (ok <==> Sum(old(accepts)[..e]) >= |frame| + 4) &&
          out == old(out) + Encode(frame)[..Least(|frame| + 4, Sum(old(accepts)[..e]))])
      ensures |frame| <= MAX_FRAME ==>
        Sum(pieces) <= |frame| + 4 && (ok <==> Sum(pieces) == |frame| + 4) &&
        out == old(out) + Encode(frame)[..Sum(pieces)] &&
        accepts == AnswersAfter(old(accepts), |pieces| + if ok then 0 else 1)
    {
      pieces := [];
      if |frame| > MAX_FRAME { return false, []; }
      var data := WithHeader(frame);
      hide Sum, NoErrors, FirstError, SentAfter, Encode;
      var sent := 0;
      ghost var answers := accepts;
      NothingSent(answers, |data|);
      while sent < |data|
        invariant 0 <= sent <= |data| && sent == Sum(pieces)
        invariant out == old(out) + data[..sent]
        invariant SentAfter(answers, |pieces|, sent, |data|)
        invariant accepts == AnswersAfter(answers, |pieces|)
        decreases |accepts|, |data| - sent
      {
        var r := Send(data[sent..]);
        if r < 0 {
          ErrorNow(answers, |pieces|, sent, |data|);
          return false, pieces;
        }
        OneMoreCall(answers, |pieces|, sent, |data|, r);
        PieceOf(old(out), data, sent, sent + r);
        SumMore(pieces, r);
        pieces := pieces + [r];
        sent := sent + r;
      }
      assert data[..|data|] == data;
      AllIsOut(answers, |pieces|, |data|);
      return true, pieces;
    }

    method WithHeader(frame: string) returns (data: string)
      requires |frame| <= MAX_FRAME
      ensures data == Encode(frame)
    {
      var n := |frame|;
      data := [(n / 0x100_0000) as char, (n / 0x1_0000 % 256) as char, (n / 0x100 % 256) as char, (n % 256) as char];
      data := data + frame;
    }

    /** One call of `send`: it takes some of what it is offered from the front, or reports an error. */
    method Send(data: string) returns (r: int)
      modifies this`accepts, this`out
      ensures accepts == AnswersAfter(old(accepts), 1)
      ensures old(accepts) != [] && old(accepts)[0] < 0 ==> r == -1 && out == old(out)
      ensures old(accepts) == [] || old(accepts)[0] >= 0 ==>
        r == (if old(accepts) != [] && old(accepts)[0] < |data| then old(accepts)[0] else |data|) &&
        out == old(out) + data[..r]
    {
      r := |data|;
      if accepts != [] {
        if accepts[0] < r { r := accepts[0]; }
        accepts := accepts[1..];
        if r < 0 { return -1; }
      }
      out := out + data[..r];
    }

    /** 1 = a frame, 0 = timeout, -1 = closed, broken or too much buffered. */
    method ReceiveFrame() returns (code: int, frame: string)
      modifies this`events, this`rxBuffer
      ensures match Receive(old(rxBuffer), old(events))
        case Frame(f, rx, rest) => code == 1 && frame == f && rxBuffer == rx && events == rest
        case Timeout(rx, rest) => code == 0 && rxBuffer == rx && events == rest
        case Rejected(rx, rest) => code == -1 && rxBuffer == rx && events == rest
    {
      frame := "";
      while true
        invariant Receive(rxBuffer, events) == Receive(old(rxBuffer), old(events))
        decreases |events|
      {
        if |rxBuffer| >= 4 {
          var n := HeaderValue(rxBuffer);
          if n > MAX_FRAME { return -1, frame; }
          if |rxBuffer| >= 4 + n {
            frame := rxBuffer[4..4 + n];
            rxBuffer := rxBuffer[4 + n..];
            return 1, frame;
          }
        }
        if events == [] { return 0, frame; }
        var e := events[0];
        events := events[1..];
        match e {
          case Quiet => return 0, frame;
          case Broken => return -1, frame;
          case Data(b) =>
            if b == "" { return -1, frame; }
            rxBuffer := rxBuffer + b;
            if |rxBuffer| > MAX_FRAME + 4 { return -1, frame; }
        }
      }
    }
  }
}
