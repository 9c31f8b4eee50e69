/**
 The mutually authenticated channel of SecureChannel.cpp: the four-message handshake, the key
 derivation and the sequence-numbered sealed frames. Hashing and AES-GCM are ideal: a value of
 `Term` or a `Sealed` frame is the only way to obtain the bytes it stands for.
 */
module SecureChannel {
  import opened Bytes

  /** SHA-256 and HMAC-SHA-256 outputs (RFC 2104), and any other bytes. */
  datatype Term =
    | Blob(bytes: string)
    | Psk(secret: string)              // SHA-256 of "threadhaul-psk-v2" and the secret
    | Hmac(key: Term, data: string)

  datatype Frame =
    | Hello(version: int, host: string, nonce: string)
    | Challenge(nonce: string)
    | Proof(mac: Term)
    | Refusal(message: string)
    | Sealed(key: Term, nonce: string, plain: string)
    | Noise(bytes: string)

  datatype Phase = AwaitHello | AwaitChallenge | AwaitProof | Ready | Failed

  datatype Keys = Keys(session: Term, send: Term, recv: Term, isClient: bool)

  const NO_KEYS := Keys(Blob(""), Blob(""), Blob(""), false)
  const MIN_SECRET := 16
  const NONCE_LENGTH := 32

  datatype Endpoint = Endpoint(
    secret: string, client: bool, phase: Phase, cn: string, sn: string, host: string,
    keys: Keys, sendSeq: nat, recvSeq: nat)

  // ------------------------------------------------------------- the protocol

  function KeyInput(cn: string, sn: string, host: string): string {
    "keys" + cn + sn + host
  }

  function SessionKey(secret: string, cn: string, sn: string, host: string): Term {
    Hmac(Psk(secret), KeyInput(cn, sn, host))
  }

  function DeriveKeys(secret: string, cn: string, sn: string, host: string, isClient: bool): Keys {
    var k := SessionKey(secret, cn, sn, host);
    var c2s, s2c := Hmac(k, "c2s"), Hmac(k, "s2c");
    Keys(k, if isClient then c2s else s2c, if isClient then s2c else c2s, isClient)
  }

  function ClientProofOf(keys: Keys): Term { Hmac(keys.session, "client-proof") }

  function ServerProofOf(keys: Keys): Term { Hmac(keys.session, "server-proof") }

  function Fail(ep: Endpoint): Endpoint { ep.(phase := Failed) }

  /** A client whose secret is too short gives up before it draws a nonce. */
  ghost function ClientStart(secret: string, host: string, cn: string): (Endpoint, Option<Frame>)
    requires IsBytes(cn)
  {
    if |secret| < MIN_SECRET then
      (Endpoint(secret, true, Failed, "", "", host, NO_KEYS, 0, 0), None)
    else
      (Endpoint(secret, true, AwaitChallenge, cn, "", host, NO_KEYS, 0, 0), Some(Hello(2, host, ToHex(cn))))
  }

  function ServerStart(secret: string): Endpoint {
    Endpoint(secret, false, AwaitHello, "", "", "", NO_KEYS, 0, 0)
  }

  ghost function ServerOnHello(ep: Endpoint, f: Frame, sn: string): (Endpoint, Option<Frame>)
    requires IsBytes(sn)
  {
    if !f.Hello? || f.version != 2 then
      (Fail(ep), Some(Refusal("protocol version 2 required")))
    else
      var cn := FromHex(f.nonce);
      if |cn| != NONCE_LENGTH || f.host == "" || |f.host| > 255 then
        (Fail(ep.(host := f.host)), None)
      else
        (ep.(phase := AwaitProof, cn := cn, sn := sn, host := f.host,
             keys := DeriveKeys(ep.secret, cn, sn, f.host, false)),
         Some(Challenge(ToHex(sn))))
  }

  ghost function ClientOnChallenge(ep: Endpoint, f: Frame): (Endpoint, Option<Frame>) {
    if !f.Challenge? || |FromHex(f.nonce)| != NONCE_LENGTH then
      (Fail(ep), None)
    else
      var sn := FromHex(f.nonce);
      var keys := DeriveKeys(ep.secret, ep.cn, sn, ep.host, true);
      (ep.(phase := AwaitProof, sn := sn, keys := keys), Some(Proof(ClientProofOf(keys))))
  }

  function ServerOnProof(ep: Endpoint, f: Frame): (Endpoint, Option<Frame>) {
    if f == Proof(ClientProofOf(ep.keys)) then
      (ep.(phase := Ready), Some(Proof(ServerProofOf(ep.keys))))
    else
      (Fail(ep), None)
  }

  function ClientOnProof(ep: Endpoint, f: Frame): Endpoint {
    if f == Proof(ServerProofOf(ep.keys)) then ep.(phase := Ready) else Fail(ep)
  }

  /** Send: the counter moves on as soon as the message is sealed; it is 64 bits wide. */
  ghost function Seal(ep: Endpoint, plain: string): (Endpoint, Option<Frame>)
    requires ep.sendSeq < U64
  {
    if !ep.phase.Ready? then (ep, None)
    else
      (ep.(sendSeq := (ep.sendSeq + 1) % U64),
       Some(Sealed(ep.keys.send, Nonce(ep.sendSeq, ep.keys.isClient), plain)))
  }

  /** Receive: only the next expected nonce under the receive key opens. */
  ghost function Open(ep: Endpoint, f: Frame): (Endpoint, Option<string>)
    requires ep.recvSeq < U64
  {
    if ep.phase.Ready? && f.Sealed? && f.key == ep.keys.recv && f.nonce == Nonce(ep.recvSeq, !ep.keys.isClient) then
      (ep.(recvSeq := (ep.recvSeq + 1) % U64), Some(f.plain))
    else
      (ep, None)
  }

  /** The server after a hello and a proof, if it gets that far. */
  ghost function ServerEnds(secret: string, hello: Frame, sn: string, proof: Frame): Endpoint
    requires IsBytes(sn)
  {
    var asked := ServerOnHello(ServerStart(secret), hello, sn).0;
    if asked.phase.AwaitProof? then ServerOnProof(asked, proof).0 else asked
  }

  ghost function ClientEnds(secret: string, host: string, cn: string, challenge: Frame, proof: Frame): Endpoint
    requires IsBytes(cn)
  {
    var started := ClientStart(secret, host, cn).0;
    var answered := if started.phase.AwaitChallenge? then ClientOnChallenge(started, challenge).0 else started;
    if answered.phase.AwaitProof? then ClientOnProof(answered, proof) else answered
  }

  /**
   A server completes exactly after a hello of version 2 with a 32-byte nonce and a host name of 1 to 255
   characters, and the client's proof over both nonces and that name; otherwise it fails.
   */
  lemma ServerCompletesExactly(secret: string, hello: Frame, sn: string, proof: Frame)
    requires IsBytes(sn)
    ensures var end := ServerEnds(secret, hello, sn, proof);
      (end.phase.Failed? <==> !end.phase.Ready?) &&
      (end.phase.Ready? <==>
       hello.Hello? && hello.version == 2 && |FromHex(hello.nonce)| == 32 && 1 <= |hello.host| <= 255 &&
       proof == Proof(Hmac(Hmac(Psk(secret), "keys" + FromHex(hello.nonce) + sn + hello.host), "client-proof"))) &&
      (end.phase.Ready? ==> end.host == hello.host && end.sendSeq == 0 && end.recvSeq == 0)
  {
  }

  /** The same for a client, which needs a secret of 16 characters, a 32-byte nonce and the server's proof. */
  lemma ClientCompletesExactly(secret: string, host: string, cn: string, challenge: Frame, proof: Frame)
    requires IsBytes(cn)
    ensures var end := ClientEnds(secret, host, cn, challenge, proof);
      (end.phase.Failed? <==> !end.phase.Ready?) &&
      (end.phase.Ready? <==>
       |secret| >= 16 && challenge.Challenge? && |FromHex(challenge.nonce)| == 32 &&
       proof == Proof(Hmac(Hmac(Psk(secret), "keys" + cn + FromHex(challenge.nonce) + host), "server-proof"))) &&
      (end.phase.Ready? ==> end.sendSeq == 0 && end.recvSeq == 0)
  {
  }

  // ----------------------------------------- any number of runs, any network

  /** An endpoint with what it sealed, what it delivered and whether it has sent its proof. */
  datatype Party = Party(ep: Endpoint, sent: seq<string>, got: seq<string>, proved: bool)

  datatype System = System(parties: seq<Party>, wire: set<Frame>, issued: set<string>)

  /** The network decides which frame arrives where and when; `random` is what RandomBytes returns. */
  datatype Step =
    | Connect(secret: string, host: string, random: string)
    | Accept(acceptSecret: string)
    | Deliver(to: nat, frame: Frame, serverRandom: string)
    | Transmit(from: nat, plain: string)
    | GiveUp(who: nat)

  const INITIAL := System([], {}, {})

  /** What the network can compute from the MACs it has seen and the secrets it has learnt. */
  ghost predicate Knows(wire: set<Frame>, leaked: set<string>, t: Term) {
    Proof(t) in wire ||
    match t
    case Blob(_) => true
    case Psk(secret) => secret in leaked
    case Hmac(key, _) => Knows(wire, leaked, key)
  }

  /** It can replay any frame it saw, on any connection, and build any other it has the keys for. */
  ghost predicate CanProduce(wire: set<Frame>, leaked: set<string>, f: Frame) {
    match f
    case Proof(mac) => Knows(wire, leaked, mac)
    case Sealed(key, _, _) => f in wire || Knows(wire, leaked, key)
    case _ => true
  }

  ghost predicate Fresh(s: System, random: string) {
    |random| == NONCE_LENGTH && IsBytes(random) && random !in s.issued
  }

  ghost predicate Allowed(s: System, leaked: set<string>, step: Step) {
    match step
    case Connect(_, _, random) => Fresh(s, random)
    case Accept(_) => true
    case Deliver(id, f, random) =>
      id < |s.parties| && (s.parties[id].ep.phase.AwaitHello? ==> Fresh(s, random)) && CanProduce(s.wire, leaked, f)
    case Transmit(id, _) => id < |s.parties|
    case GiveUp(id) => id < |s.parties|
  }

  function Emitted(out: Option<Frame>): set<Frame> {
    if out.Some? then {out.value} else {}
  }

  ghost function React(p: Party, f: Frame, random: string): (Party, Option<Frame>)
    requires (p.ep.phase.AwaitHello? ==> IsBytes(random)) && p.ep.recvSeq < U64
  {
    match p.ep.phase
    case AwaitHello => var (ep, out) := ServerOnHello(p.ep, f, random); (p.(ep := ep), out)
    case AwaitChallenge =>
      var (ep, out) := ClientOnChallenge(p.ep, f); (p.(ep := ep, proved := out.Some?), out)
    case AwaitProof =>
      if p.ep.client then (p.(ep := ClientOnProof(p.ep, f)), None)
      else var (ep, out) := ServerOnProof(p.ep, f); (p.(ep := ep, proved := out.Some?), out)
    case Ready =>
      var (ep, plain) := Open(p.ep, f);
      (p.(ep := ep, got := if plain.Some? then p.got + [plain.value] else p.got), None)
    case Failed => (p, None)
  }

  ghost predicate CountersFit(s: System) {
    forall i :: 0 <= i < |s.parties| ==> s.parties[i].ep.sendSeq < U64 && s.parties[i].ep.recvSeq < U64
  }

  ghost function Next(s: System, leaked: set<string>, step: Step): System
    requires CountersFit(s) && Allowed(s, leaked, step)
  {
    match step
    case Connect(secret, host, random) =>
      var (ep, out) := ClientStart(secret, host, random);
      System(s.parties + [Party(ep, [], [], false)], s.wire + Emitted(out), s.issued + {random})
    case Accept(secret) =>
      s.(parties := s.parties + [Party(ServerStart(secret), [], [], false)])
    case Deliver(id, f, random) =>
      var (p, out) := React(s.parties[id], f, random);
      System(s.parties[id := p], s.wire + Emitted(out),
             if s.parties[id].ep.phase.AwaitHello? then s.issued + {random} else s.issued)
    case Transmit(id, plain) =>
      var p := s.parties[id];
      var (ep, out) := Seal(p.ep, plain);
      var q := Party(ep, if out.Some? then p.sent + [plain] else p.sent, p.got, p.proved);
      s.(parties := s.parties[id := q], wire := s.wire + Emitted(out))
    case GiveUp(id) =>
      var p := s.parties[id];
      s.(parties := s.parties[id := if p.ep.phase.Ready? then p else p.(ep := Fail(p.ep))])
  }

  // ------------------------------------------------------------ the invariant

  predicate Keyed(ep: Endpoint) {
    |ep.cn| == NONCE_LENGTH && |ep.sn| == NONCE_LENGTH &&
    ep.keys == DeriveKeys(ep.secret, ep.cn, ep.sn, ep.host, ep.client)
  }

  predicate PartyOk(p: Party) {
    var ep := p.ep;
    (match ep.phase
     case AwaitHello => !ep.client && ep.keys == NO_KEYS && ep.sn == ""
     case AwaitChallenge => ep.client && ep.keys == NO_KEYS && |ep.cn| == NONCE_LENGTH
     case AwaitProof => Keyed(ep) && p.proved == ep.client
     case Ready => Keyed(ep) && p.proved
     case Failed => ep.keys == NO_KEYS || Keyed(ep)) &&
    (p.proved ==> Keyed(ep)) &&
    (p.proved && !ep.client ==> ep.phase.Ready?) &&
    (!ep.phase.Ready? ==> p.sent == [] && p.got == []) &&
    ep.sendSeq == |p.sent| % U64 && ep.recvSeq == |p.got| % U64
  }

  /** The nonce the endpoint drew itself. */
  function OwnNonce(ep: Endpoint): string {
    if ep.client then ep.cn else ep.sn
  }

  function ProofOf(ep: Endpoint): Term {
    if ep.client then ClientProofOf(ep.keys) else ServerProofOf(ep.keys)
  }

  ghost predicate NoncesDistinct(s: System) {
    (forall i :: 0 <= i < |s.parties| && OwnNonce(s.parties[i].ep) != "" ==>
      OwnNonce(s.parties[i].ep) in s.issued) &&
    (forall i, j :: 0 <= i < j < |s.parties| && OwnNonce(s.parties[i].ep) != "" ==>
      OwnNonce(s.parties[i].ep) != OwnNonce(s.parties[j].ep))
  }

  predicate Prover(s: System, i: int, t: Term) {
    0 <= i < |s.parties| && s.parties[i].proved && ProofOf(s.parties[i].ep) == t
  }

  ghost predicate Sealer(s: System, i: int, m: int, f: Frame) {
    0 <= i < |s.parties| && 0 <= m < |s.parties[i].sent| && Keyed(s.parties[i].ep) &&
    f == Sealed(s.parties[i].ep.keys.send, Nonce(m % U64, s.parties[i].ep.client), s.parties[i].sent[m])
  }

  /** Opposite roles of one session: same secret, nonces and host name. */
  predicate Peers(a: Endpoint, b: Endpoint) {
    Keyed(a) && Keyed(b) && a.client == !b.client &&
    a.secret == b.secret && a.cn == b.cn && a.sn == b.sn && a.host == b.host
  }

  predicate Partner(s: System, i: int, j: int) {
    0 <= i < |s.parties| && 0 <= j < |s.parties| && Peers(s.parties[i].ep, s.parties[j].ep) && s.parties[j].proved
  }

  /** Message k delivered to i is message m of a, up to the width of the counter. */
  predicate Origin(s: System, i: int, k: int, a: int, m: int) {
    0 <= i < |s.parties| && 0 <= k < |s.parties[i].got| && 0 <= a < |s.parties| && 0 <= m < |s.parties[a].sent| &&
    Peers(s.parties[i].ep, s.parties[a].ep) &&
    m % U64 == k % U64 && s.parties[a].sent[m] == s.parties[i].got[k]
  }

  predicate Honest(p: Party, leaked: set<string>) {
    p.ep.secret !in leaked
  }

  ghost predicate HasPartner(s: System, i: int) {
    exists j :: Partner(s, i, j)
  }

  ghost predicate HasOrigin(s: System, i: int, k: int) {
    exists a, m :: Origin(s, i, k, a, m)
  }

  ghost predicate ProofsAccounted(s: System) {
    forall t :: Proof(t) in s.wire ==> exists i :: Prover(s, i, t)
  }

  ghost predicate SealsAccounted(s: System) {
    forall f :: f in s.wire && f.Sealed? ==> exists i, m :: Sealer(s, i, m, f)
  }

  ghost predicate PartyAccounted(s: System, i: int, leaked: set<string>)
    requires 0 <= i < |s.parties|
  {
    var p := s.parties[i];
    PartyOk(p) &&
    (Honest(p, leaked) && p.ep.phase.Ready? ==> HasPartner(s, i)) &&
    (Honest(p, leaked) ==> forall k :: 0 <= k < |p.got| ==> HasOrigin(s, i, k))
  }

  ghost predicate Inv(s: System, leaked: set<string>) {
    (forall i :: 0 <= i < |s.parties| ==> PartyAccounted(s, i, leaked)) &&
    NoncesDistinct(s) && ProofsAccounted(s) && SealsAccounted(s)
  }

  // ------------------------------------------------------ keys stay secret

  /** Fixed-length nonces make the key input injective. */
  lemma KeyInputInjective(cn: string, sn: string, host: string, cn': string, sn': string, host': string)
    requires |cn| == |cn'| == NONCE_LENGTH && |sn| == |sn'| == NONCE_LENGTH
    requires KeyInput(cn, sn, host) == KeyInput(cn', sn', host')
    ensures cn == cn' && sn == sn' && host == host'
  {
    var a, b := KeyInput(cn, sn, host), KeyInput(cn', sn', host');
    assert a[4..36] == cn && b[4..36] == cn';
    assert a[36..68] == sn && b[36..68] == sn';
    assert a[68..] == host && b[68..] == host';
  }

  lemma SameSession(a: Endpoint, b: Endpoint)
    requires Keyed(a) && Keyed(b) && a.keys.session == b.keys.session
    ensures a.secret == b.secret && a.cn == b.cn && a.sn == b.sn && a.host == b.host
  {
    KeyInputInjective(a.cn, a.sn, a.host, b.cn, b.sn, b.host);
  }

  /**
   A network that does not know the secret can compute neither the session key nor anything under
   it that no honest run has shown: the traffic keys and a proof it has not seen stay out of reach.
   */
  lemma SessionSecrecy(s: System, leaked: set<string>, ep: Endpoint, tag: string)
    requires Inv(s, leaked) && Keyed(ep) && ep.secret !in leaked
    ensures !Knows(s.wire, leaked, ep.keys.session)
    ensures Knows(s.wire, leaked, Hmac(ep.keys.session, tag)) <==> Proof(Hmac(ep.keys.session, tag)) in s.wire
    ensures !Knows(s.wire, leaked, ep.keys.send) && !Knows(s.wire, leaked, ep.keys.recv)
  {
    forall t | Proof(t) in s.wire
      ensures t.Hmac? && t.key.Hmac? && t.key.key.Psk? && (t.data == "client-proof" || t.data == "server-proof")
    {
      var i :| Prover(s, i, t);
      assert PartyAccounted(s, i, leaked);
    }
    assert "c2s" != "client-proof" && "c2s" != "server-proof" && "s2c" != "client-proof" && "s2c" != "server-proof";
  }

  /** A proof that an honest endpoint accepts was sent by a run of the other role with the same session. */
  lemma ProofHasPartner(s: System, leaked: set<string>, i: nat, tag: string)
    requires Inv(s, leaked) && i < |s.parties| && Keyed(s.parties[i].ep) && Honest(s.parties[i], leaked)
    requires tag == if s.parties[i].ep.client then "server-proof" else "client-proof"
    requires CanProduce(s.wire, leaked, Proof(Hmac(s.parties[i].ep.keys.session, tag)))
    ensures exists j :: Partner(s, i, j)
  {
    var ep := s.parties[i].ep;
    var t := Hmac(ep.keys.session, tag);
    SessionSecrecy(s, leaked, ep, tag);
    var j :| Prover(s, j, t);
    assert PartyAccounted(s, j, leaked);
    assert "client-proof"[0] != "server-proof"[0];
    SameSession(s.parties[j].ep, ep);
    assert Partner(s, i, j);
  }

  /** A frame that an honest endpoint opens was sealed by its peer under the same counter. */
  lemma OpenedHasOrigin(s: System, leaked: set<string>, i: nat, f: Frame) returns (a: nat, m: nat)
    requires Inv(s, leaked) && i < |s.parties| && s.parties[i].ep.phase.Ready? && Honest(s.parties[i], leaked)
    requires CanProduce(s.wire, leaked, f) && s.parties[i].ep.recvSeq < U64
    requires Open(s.parties[i].ep, f).1.Some?
    ensures a < |s.parties| && m < |s.parties[a].sent| && Peers(s.parties[i].ep, s.parties[a].ep)
    ensures m % U64 == |s.parties[i].got| % U64 && s.parties[a].sent[m] == f.plain
  {
    var ep := s.parties[i].ep;
    assert PartyAccounted(s, i, leaked);
    SessionSecrecy(s, leaked, ep, "c2s");
    assert f in s.wire;
    a, m :| Sealer(s, a, m, f);
    var from := s.parties[a].ep;
    assert "c2s"[0] != "s2c"[0];
    assert from.keys.session == ep.keys.session && from.client == !ep.client;
    SameSession(from, ep);
    NonceInjective(m % U64, ep.recvSeq, from.client, !ep.keys.isClient);
  }

  // ------------------------------------------------- every step keeps it

  /** What later steps never undo. */
  predicate Grows(p: Party, q: Party) {
    p.ep.secret == q.ep.secret && p.ep.client == q.ep.client &&
    (Keyed(p.ep) ==>
      Keyed(q.ep) && p.ep.keys == q.ep.keys && p.ep.cn == q.ep.cn && p.ep.sn == q.ep.sn && p.ep.host == q.ep.host) &&
    (p.proved ==> q.proved) && p.sent <= q.sent && p.got <= q.got &&
    (p.ep.phase.Ready? ==> q.ep.phase.Ready?)
  }

  predicate Extends(s: System, s': System) {
    |s.parties| <= |s'.parties| && forall i :: 0 <= i < |s.parties| ==> Grows(s.parties[i], s'.parties[i])
  }

  lemma PartnersPersist(s: System, s': System, i: int)
    requires Extends(s, s')
    ensures HasPartner(s, i) ==> HasPartner(s', i)
  {
    if HasPartner(s, i) {
      var j :| Partner(s, i, j);
      assert Partner(s', i, j);
    }
  }

  lemma OriginsPersist(s: System, s': System, i: int, k: int)
    requires Extends(s, s')
    ensures HasOrigin(s, i, k) ==> HasOrigin(s', i, k)
  {
    if HasOrigin(s, i, k) {
      var a, m :| Origin(s, i, k, a, m);
      assert s.parties[a].sent[m] == s'.parties[a].sent[m] && s.parties[i].got[k] == s'.parties[i].got[k];
      assert Origin(s', i, k, a, m);
    }
  }

  lemma ProversPersist(s: System, s': System, i: int, t: Term)
    requires Extends(s, s') && Prover(s, i, t) && PartyOk(s.parties[i])
    ensures Prover(s', i, t)
  {
  }

  lemma SealersPersist(s: System, s': System, i: int, m: int, f: Frame)
    requires Extends(s, s') && Sealer(s, i, m, f)
    ensures Sealer(s', i, m, f)
  {
    assert s.parties[i].sent[m] == s'.parties[i].sent[m];
  }

  /** Only party `id` moved (or was added), and it drew its own nonce fresh if it has a new one. */
  ghost predicate Moved(s: System, s': System, id: nat) {
    Extends(s, s') && id < |s'.parties| && s.issued <= s'.issued &&
    (|s'.parties| == |s.parties| || (|s'.parties| == |s.parties| + 1 && id == |s.parties|)) &&
    (forall i :: 0 <= i < |s'.parties| && i != id ==> s'.parties[i] == s.parties[i]) &&
    (var own := OwnNonce(s'.parties[id].ep);
     own == "" || (id < |s.parties| && own == OwnNonce(s.parties[id].ep)) ||
     (own !in s.issued && own in s'.issued))
  }

  lemma OthersStayAccounted(s: System, s': System, leaked: set<string>, id: nat)
    requires Inv(s, leaked) && Moved(s, s', id)
    ensures forall i :: 0 <= i < |s'.parties| && i != id ==> PartyAccounted(s', i, leaked)
  {
    forall i | 0 <= i < |s'.parties| && i != id ensures PartyAccounted(s', i, leaked) {
      assert PartyAccounted(s, i, leaked);
      PartnersPersist(s, s', i);
      forall k { OriginsPersist(s, s', i, k); }
    }
  }

  /** The invariant carries over when only party `id` moved and its news is accounted for. */
  lemma InvKept(s: System, s': System, leaked: set<string>, id: nat)
    requires Inv(s, leaked) && Moved(s, s', id) && PartyAccounted(s', id, leaked)
    requires forall t :: Proof(t) in s'.wire && Proof(t) !in s.wire ==> Prover(s', id, t)
    requires forall f :: f in s'.wire && f !in s.wire && f.Sealed? ==> exists m :: Sealer(s', id, m, f)
    ensures Inv(s', leaked)
  {
    OthersStayAccounted(s, s', leaked, id);
    forall t | Proof(t) in s'.wire ensures exists i :: Prover(s', i, t) {
      if Proof(t) in s.wire {
        var i :| Prover(s, i, t);
        assert PartyAccounted(s, i, leaked);
        ProversPersist(s, s', i, t);
      }
    }
    forall f | f in s'.wire && f.Sealed? ensures exists i, m :: Sealer(s', i, m, f) {
      if f in s.wire {
        var i, m :| Sealer(s, i, m, f);
        SealersPersist(s, s', i, m, f);
      }
    }
  }

  // --------------------------------------------------------- step by step

  lemma SuccessorWraps(n: nat)
    ensures (n % U64 + 1) % U64 == (n + 1) % U64
  {
    if n % U64 + 1 < U64 {} else {}
  }

  lemma SealKeepsParty(p: Party, plain: string)
    requires PartyOk(p) && p.ep.phase.Ready? && p.ep.sendSeq < U64
    ensures var q := Party(Seal(p.ep, plain).0, p.sent + [plain], p.got, p.proved);
      PartyOk(q) && Grows(p, q)
  {
    SuccessorWraps(|p.sent|);
  }

  lemma OpenKeepsParty(p: Party, f: Frame, random: string)
    requires PartyOk(p) && p.ep.phase.Ready? && p.ep.recvSeq < U64
    ensures var q := React(p, f, random).0;
      PartyOk(q) && Grows(p, q) && (q.got == p.got || q.got == p.got + [q.got[|p.got|]])
  {
    SuccessorWraps(|p.got|);
  }

  lemma HistoryPersists(s: System, s': System, leaked: set<string>, id: nat)
    requires id < |s.parties| && PartyAccounted(s, id, leaked) && Extends(s, s')
    ensures var p := s.parties[id];
      Honest(p, leaked) && p.ep.phase.Ready? ==>
      HasPartner(s', id) && forall k :: 0 <= k < |p.got| ==> HasOrigin(s', id, k)
  {
    PartnersPersist(s, s', id);
    forall k | HasOrigin(s, id, k) ensures HasOrigin(s', id, k) { OriginsPersist(s, s', id, k); }
  }

  lemma ConnectKeeps(s: System, leaked: set<string>, step: Step)
    requires Inv(s, leaked) && CountersFit(s) && Allowed(s, leaked, step) && (step.Connect? || step.Accept?)
    ensures Inv(Next(s, leaked, step), leaked)
  {
    InvKept(s, Next(s, leaked, step), leaked, |s.parties|);
  }

  lemma GiveUpKeeps(s: System, leaked: set<string>, step: Step)
    requires Inv(s, leaked) && CountersFit(s) && Allowed(s, leaked, step) && step.GiveUp?
    ensures Inv(Next(s, leaked, step), leaked)
  {
    var s' := Next(s, leaked, step);
    var id := step.who;
    assert PartyAccounted(s, id, leaked);
    assert Extends(s, s');
    PartnersPersist(s, s', id);
    forall k { OriginsPersist(s, s', id, k); }
    InvKept(s, s', leaked, id);
  }

  lemma TransmitKeeps(s: System, leaked: set<string>, step: Step)
    requires Inv(s, leaked) && CountersFit(s) && Allowed(s, leaked, step) && step.Transmit?
    ensures Inv(Next(s, leaked, step), leaked)
  {
    var s' := Next(s, leaked, step);
    var id := step.from;
    var p, q := s.parties[id], s'.parties[id];
    assert PartyAccounted(s, id, leaked);
    if p.ep.phase.Ready? {
      SealKeepsParty(p, step.plain);
      HistoryPersists(s, s', leaked, id);
      assert Sealer(s', id, |p.sent|, Sealed(p.ep.keys.send, Nonce(p.ep.sendSeq, p.ep.client), step.plain));
      InvKept(s, s', leaked, id);
    } else {
      assert s' == s;
    }
  }

  lemma HandshakeMoves(p: Party, f: Frame, random: string)
    requires PartyOk(p) && !p.ep.phase.Ready? &&
      (p.ep.phase.AwaitHello? ==> |random| == NONCE_LENGTH && IsBytes(random))
    ensures var (q, out) := React(p, f, random);
      Grows(p, q) && PartyOk(q) && q.got == [] &&
      (OwnNonce(q.ep) == OwnNonce(p.ep) || (p.ep.phase.AwaitHello? && OwnNonce(q.ep) == random)) &&
      (out.Some? ==> !out.value.Sealed? && (out.value.Proof? ==> q.proved && out.value.mac == ProofOf(q.ep)))
  {
  }

  lemma HandshakeKeeps(s: System, leaked: set<string>, step: Step)
    requires Inv(s, leaked) && CountersFit(s) && Allowed(s, leaked, step)
    requires step.Deliver? && !s.parties[step.to].ep.phase.Ready?
    ensures Inv(Next(s, leaked, step), leaked)
  {
    var s' := Next(s, leaked, step);
    var id := step.to;
    var p, q := s.parties[id], s'.parties[id];
    assert PartyAccounted(s, id, leaked);
    HandshakeMoves(p, step.frame, step.serverRandom);
    if q.ep.phase.Ready? && Honest(q, leaked) {
      ProofHasPartner(s, leaked, id, if p.ep.client then "server-proof" else "client-proof");
      PartnersPersist(s, s', id);
    }
    InvKept(s, s', leaked, id);
  }

  lemma NewOrigin(s: System, s': System, leaked: set<string>, step: Step)
    requires Inv(s, leaked) && CountersFit(s) && Allowed(s, leaked, step) && s' == Next(s, leaked, step)
    requires step.Deliver? && s.parties[step.to].ep.phase.Ready? && Honest(s.parties[step.to], leaked)
    requires s'.parties[step.to].got != s.parties[step.to].got
    ensures HasOrigin(s', step.to, |s.parties[step.to].got|)
  {
    var p := s.parties[step.to];
    var a, m := OpenedHasOrigin(s, leaked, step.to, step.frame);
    assert s'.parties[step.to].got[|p.got|] == step.frame.plain;
    assert s.parties[a].sent[m] == s'.parties[a].sent[m];
    assert Origin(s', step.to, |p.got|, a, m);
  }

  lemma DataExtends(s: System, leaked: set<string>, step: Step)
    requires Inv(s, leaked) && CountersFit(s) && Allowed(s, leaked, step)
    requires step.Deliver? && s.parties[step.to].ep.phase.Ready?
    ensures var s' := Next(s, leaked, step);
      Extends(s, s') && PartyOk(s'.parties[step.to]) && s'.wire == s.wire &&
      (var p, q := s.parties[step.to], s'.parties[step.to]; q.got == p.got || q.got == p.got + [q.got[|p.got|]])
  {
    assert PartyAccounted(s, step.to, leaked);
    OpenKeepsParty(s.parties[step.to], step.frame, step.serverRandom);
  }

  lemma DataAccounted(s: System, leaked: set<string>, step: Step)
    requires Inv(s, leaked) && CountersFit(s) && Allowed(s, leaked, step)
    requires step.Deliver? && s.parties[step.to].ep.phase.Ready?
    ensures PartyAccounted(Next(s, leaked, step), step.to, leaked)
  {
    var s' := Next(s, leaked, step);
    var id := step.to;
    assert PartyAccounted(s, id, leaked);
    DataExtends(s, leaked, step);
    HistoryPersists(s, s', leaked, id);
    if Honest(s.parties[id], leaked) && s'.parties[id].got != s.parties[id].got {
      NewOrigin(s, s', leaked, step);
    }
  }

  lemma DataKeeps(s: System, leaked: set<string>, step: Step)
    requires Inv(s, leaked) && CountersFit(s) && Allowed(s, leaked, step)
    requires step.Deliver? && s.parties[step.to].ep.phase.Ready?
    ensures Inv(Next(s, leaked, step), leaked)
  {
    DataExtends(s, leaked, step);
    DataAccounted(s, leaked, step);
    InvKept(s, Next(s, leaked, step), leaked, step.to);
  }

  lemma StepKeepsInv(s: System, leaked: set<string>, step: Step)
    requires Inv(s, leaked) && CountersFit(s) && Allowed(s, leaked, step)
    ensures Inv(Next(s, leaked, step), leaked)
  {
    match step {
      case Connect(_, _, _) => ConnectKeeps(s, leaked, step);
      case Accept(_) => ConnectKeeps(s, leaked, step);
      case Transmit(_, _) => TransmitKeeps(s, leaked, step);
      case GiveUp(_) => GiveUpKeeps(s, leaked, step);
      case Deliver(id, _, _) =>
        if s.parties[id].ep.phase.Ready? {
          DataKeeps(s, leaked, step);
        } else {
          HandshakeKeeps(s, leaked, step);
        }
    }
  }

  // ------------------------------------------------------- whole runs

  ghost function Exec(leaked: set<string>, steps: seq<Step>): Option<System> {
    if steps == [] then Some(INITIAL)
    else
      match Exec(leaked, steps[..|steps| - 1])
      case None => None
      case Some(s) =>
        var last := steps[|steps| - 1];
        if CountersFit(s) && Allowed(s, leaked, last) then Some(Next(s, leaked, last)) else None
  }

  ghost predicate Reachable(s: System, leaked: set<string>) {
    exists steps :: Exec(leaked, steps) == Some(s)
  }

  lemma {:induction false} ExecKeepsInv(leaked: set<string>, steps: seq<Step>)
    requires Exec(leaked, steps).Some?
    ensures Inv(Exec(leaked, steps).value, leaked)
  {
    if steps != [] {
      var init := steps[..|steps| - 1];
      ExecKeepsInv(leaked, init);
      StepKeepsInv(Exec(leaked, init).value, leaked, steps[|steps| - 1]);
    }
  }

  lemma InvOfReachable(s: System, leaked: set<string>)
    requires Reachable(s, leaked)
    ensures Inv(s, leaked) && CountersFit(s)
  {
    var steps :| Exec(leaked, steps) == Some(s);
    ExecKeepsInv(leaked, steps);
    forall i | 0 <= i < |s.parties| ensures s.parties[i].ep.sendSeq < U64 && s.parties[i].ep.recvSeq < U64 {
      assert PartyAccounted(s, i, leaked);
    }
  }

  /** i and j took part in one and the same session, which nobody else shares, and hold crossed keys. */
  ghost predicate Agree(s: System, i: int, j: int) {
    Partner(s, i, j) &&
    (forall j' :: 0 <= j' < |s.parties| && Peers(s.parties[i].ep, s.parties[j'].ep) ==> j' == j) &&
    (forall i' :: 0 <= i' < |s.parties| && Peers(s.parties[i'].ep, s.parties[j].ep) ==> i' == i) &&
    s.parties[i].ep.keys.send == s.parties[j].ep.keys.recv &&
    s.parties[i].ep.keys.recv == s.parties[j].ep.keys.send &&
    s.parties[i].ep.keys.send != s.parties[i].ep.keys.recv
  }

  /**
   Mutual authentication over every run: if an endpoint whose secret the network does not know
   completes, exactly one run of the other role shares its secret, both nonces and the host name,
   and nobody else does. That run has completed too if it is the server, and has sent its proof if
   it is the client.
   */
  lemma MutualAuthentication(s: System, leaked: set<string>, i: nat)
    requires Reachable(s, leaked) && i < |s.parties|
    requires s.parties[i].ep.phase.Ready? && Honest(s.parties[i], leaked)
    ensures exists j :: Agree(s, i, j) && (s.parties[i].ep.client ==> s.parties[j].ep.phase.Ready?)
  {
    InvOfReachable(s, leaked);
    assert PartyAccounted(s, i, leaked);
    var j :| Partner(s, i, j);
    assert PartyAccounted(s, j, leaked);
    forall i' | 0 <= i' < |s.parties| && Peers(s.parties[i'].ep, s.parties[j].ep) ensures i' == i {
      assert Peers(s.parties[j].ep, s.parties[i'].ep) && Peers(s.parties[j].ep, s.parties[i].ep);
    }
    assert "c2s"[0] != "s2c"[0];
    assert Agree(s, i, j);
  }

  /** Whatever the network does, the traffic keys of an honest session stay unknown to it. */
  lemma TrafficKeysStaySecret(s: System, leaked: set<string>, i: nat)
    requires Reachable(s, leaked) && i < |s.parties| && Keyed(s.parties[i].ep) && Honest(s.parties[i], leaked)
    ensures !Knows(s.wire, leaked, s.parties[i].ep.keys.send) && !Knows(s.wire, leaked, s.parties[i].ep.keys.recv)
  {
    InvOfReachable(s, leaked);
    SessionSecrecy(s, leaked, s.parties[i].ep, "c2s");
  }

  predicate SameUpToWrap(sent: seq<string>, got: seq<string>, k: int, m: int) {
    0 <= k < |got| && 0 <= m < |sent| && m % U64 == k % U64 && sent[m] == got[k]
  }

  ghost predicate Echoes(sent: seq<string>, got: seq<string>, k: int) {
    exists m :: SameUpToWrap(sent, got, k, m)
  }

  lemma EchoIndex(sent: seq<string>, got: seq<string>, k: nat)
    requires |sent| < U64 && k <= |sent| && k < |got| && Echoes(sent, got, k)
    ensures k < |sent| && got[k] == sent[k]
  {
    var m :| SameUpToWrap(sent, got, k, m);
    assert m == k;
  }

  lemma BelowTheWrap(sent: seq<string>, got: seq<string>)
    requires |sent| < U64 && forall k :: 0 <= k < |got| ==> Echoes(sent, got, k)
    ensures got <= sent
  {
    if |sent| < |got| { EchoIndex(sent, got, |sent|); }
    forall k | 0 <= k < |got| && k < |sent| ensures got[k] == sent[k] { EchoIndex(sent, got, k); }
  }

  lemma DeliveredInOrder(s: System, leaked: set<string>, i: nat, j: nat)
    requires Inv(s, leaked) && i < |s.parties| && j < |s.parties| && Honest(s.parties[i], leaked)
    requires Peers(s.parties[i].ep, s.parties[j].ep) && |s.parties[j].sent| < U64
    ensures s.parties[i].got <= s.parties[j].sent
  {
    var got, sent := s.parties[i].got, s.parties[j].sent;
    assert PartyAccounted(s, i, leaked);
    forall k | 0 <= k < |got| ensures Echoes(sent, got, k) {
      assert HasOrigin(s, i, k);
      var a, m :| Origin(s, i, k, a, m);
      assert SameUpToWrap(sent, got, k, m);
    }
    BelowTheWrap(sent, got);
  }

  /**
   Against dropping, replaying, reordering, injecting and reflecting frames between any number of
   connections: what a completed honest endpoint has delivered is a prefix of what its one peer
   sealed for it, as long as the peer sealed fewer than 2^64 messages.
   */
  lemma DeliveryIsPrefix(s: System, leaked: set<string>, i: nat)
    requires Reachable(s, leaked) && i < |s.parties|
    requires s.parties[i].ep.phase.Ready? && Honest(s.parties[i], leaked)
    ensures exists j :: Agree(s, i, j) && (|s.parties[j].sent| < U64 ==> s.parties[i].got <= s.parties[j].sent)
  {
    MutualAuthentication(s, leaked, i);
    InvOfReachable(s, leaked);
    var j :| Agree(s, i, j);
    if |s.parties[j].sent| < U64 { DeliveredInOrder(s, leaked, i, j); }
  }

  lemma SameCounter(m: nat, n: nat, d: bool, e: bool)
    requires m < U64 && n < U64 && Nonce(m % U64, d) == Nonce(n % U64, e)
    ensures m == n
  {
    assert m % U64 == m && n % U64 == n;
    NonceInjective(m, n, d, e);
  }

  lemma SenderIsKeyed(s: System, leaked: set<string>, a: nat)
    requires Inv(s, leaked) && a < |s.parties| && s.parties[a].sent != []
    ensures Keyed(s.parties[a].ep)
  {
    assert PartyAccounted(s, a, leaked);
  }

  lemma SendKeyHasOneOwner(s: System, leaked: set<string>, a: nat, b: nat)
    requires Inv(s, leaked) && a < |s.parties| && b < |s.parties|
    requires Keyed(s.parties[a].ep) && Keyed(s.parties[b].ep)
    requires s.parties[a].ep.keys.send == s.parties[b].ep.keys.send
    ensures a == b
  {
    var x, y := s.parties[a].ep, s.parties[b].ep;
    assert "c2s"[0] != "s2c"[0];
    SameSession(x, y);
    assert x.client == y.client;
    assert OwnNonce(x) == OwnNonce(y) != "";
  }

  /** Across all connections no (key, nonce) pair seals two messages (NIST SP 800-38D section 8). */
  lemma NoncesNeverRepeat(s: System, leaked: set<string>, a: nat, m: nat, b: nat, n: nat)
    requires Reachable(s, leaked) && a < |s.parties| && b < |s.parties|
    requires m < |s.parties[a].sent| <= U64 && n < |s.parties[b].sent| <= U64
    requires s.parties[a].ep.keys.send == s.parties[b].ep.keys.send
    requires Nonce(m % U64, s.parties[a].ep.client) == Nonce(n % U64, s.parties[b].ep.client)
    ensures a == b && m == n
  {
    InvOfReachable(s, leaked);
    SenderIsKeyed(s, leaked, a);
    SenderIsKeyed(s, leaked, b);
    SendKeyHasOneOwner(s, leaked, a, b);
    SameCounter(m, n, s.parties[a].ep.client, s.parties[b].ep.client);
  }

  // ------------------------------------- 2^64 messages is the exact limit

  ghost predicate Exchanged(s: System, n: nat) {
    |s.parties| == 2 &&
    s.parties[0].ep.client && s.parties[0].ep.phase.Ready? && s.parties[1].ep.phase.Ready? &&
    Peers(s.parties[0].ep, s.parties[1].ep) && Honest(s.parties[1], {}) &&
    |s.parties[0].sent| == n && |s.parties[1].got| == n &&
    s.parties[0].ep.sendSeq == n % U64 && s.parties[1].ep.recvSeq == n % U64 &&
    forall m :: 0 <= m < n ==> Sealed(s.parties[0].ep.keys.send, Nonce(m % U64, true), "") in s.wire
  }

  lemma ExecStep(s: System, leaked: set<string>, steps: seq<Step>, step: Step)
    requires Exec(leaked, steps) == Some(s) && CountersFit(s) && Allowed(s, leaked, step)
    ensures Exec(leaked, steps + [step]) == Some(Next(s, leaked, step))
  {
    assert (steps + [step])[..|steps|] == steps;
  }

  lemma ReachStep(s: System, leaked: set<string>, step: Step)
    requires Reachable(s, leaked) && Allowed(s, leaked, step)
    ensures CountersFit(s) && Reachable(Next(s, leaked, step), leaked)
  {
    InvOfReachable(s, leaked);
    var steps :| Exec(leaked, steps) == Some(s);
    ExecStep(s, leaked, steps, step);
  }

  function Repeat(c: char, n: nat): (r: string)
    ensures |r| == n && forall i :: 0 <= i < n ==> r[i] == c
  {
    seq(n, _ => c)
  }

  /** The first two messages of an undisturbed handshake. */
  lemma HelloArrives(secret: string, cn: string, sn: string) returns (s: System)
    requires |secret| == MIN_SECRET && |cn| == |sn| == NONCE_LENGTH && IsBytes(cn) && IsBytes(sn) && cn != sn
    ensures Reachable(s, {})
    ensures |s.parties| == 2 && s.issued == {cn, sn} && s.wire == {Hello(2, "h", ToHex(cn)), Challenge(ToHex(sn))}
    ensures s.parties[0] == Party(Endpoint(secret, true, AwaitChallenge, cn, "", "h", NO_KEYS, 0, 0), [], [], false)
    ensures s.parties[1] == Party(Endpoint(secret, false, AwaitProof, cn, sn, "h",
                                           DeriveKeys(secret, cn, sn, "h", false), 0, 0), [], [], false)
  {
    assert Exec({}, []) == Some(INITIAL);
    HexRoundTrip(cn);
    ReachStep(INITIAL, {}, Connect(secret, "h", cn));
    var s1 := Next(INITIAL, {}, Connect(secret, "h", cn));
    ReachStep(s1, {}, Accept(secret));
    var s2 := Next(s1, {}, Accept(secret));
    var hello := Deliver(1, Hello(2, "h", ToHex(cn)), sn);
    ReachStep(s2, {}, hello);
    s := Next(s2, {}, hello);
  }

  lemma ProofsArrive(secret: string, cn: string, sn: string, before: System) returns (s: System)
    requires Reachable(before, {}) && |before.parties| == 2 && |cn| == |sn| == NONCE_LENGTH && IsBytes(sn)
    requires before.parties[0] == Party(Endpoint(secret, true, AwaitChallenge, cn, "", "h", NO_KEYS, 0, 0), [], [],
      false)
    requires before.parties[1] == Party(Endpoint(secret, false, AwaitProof, cn, sn, "h",
                                           DeriveKeys(secret, cn, sn, "h", false), 0, 0), [], [], false)
    ensures Reachable(s, {}) && Exchanged(s, 0)
  {
    HexRoundTrip(sn);
    var keys := DeriveKeys(secret, cn, sn, "h", true);
    var challenge := Deliver(0, Challenge(ToHex(sn)), "");
    ReachStep(before, {}, challenge);
    var s4 := Next(before, {}, challenge);
    var proof := Deliver(1, Proof(ClientProofOf(keys)), "");
    assert Proof(ClientProofOf(keys)) in s4.wire;
    ReachStep(s4, {}, proof);
    var s5 := Next(s4, {}, proof);
    var answer := Deliver(0, Proof(ServerProofOf(keys)), "");
    assert Proof(ServerProofOf(keys)) in s5.wire;
    ReachStep(s5, {}, answer);
    s := Next(s5, {}, answer);
  }

  lemma HandshakeCompletes() returns (s: System)
    ensures Reachable(s, {}) && Exchanged(s, 0)
  {
    var secret, cn, sn := Repeat('k', MIN_SECRET), Repeat('a', NONCE_LENGTH), Repeat('b', NONCE_LENGTH);
    assert cn[0] != sn[0];
    var before := HelloArrives(secret, cn, sn);
    s := ProofsArrive(secret, cn, sn, before);
  }

  lemma SealOne(s: System, n: nat) returns (mid: System)
    requires Reachable(s, {}) && Exchanged(s, n)
    ensures Reachable(mid, {}) && |mid.parties| == 2 && mid.parties[1] == s.parties[1] && s.wire <= mid.wire
    ensures Sealed(s.parties[0].ep.keys.send, Nonce(n % U64, true), "") in mid.wire
    ensures var p, q := s.parties[0], mid.parties[0];
      q.ep == p.ep.(sendSeq := (n + 1) % U64) && q.sent == p.sent + [""]
  {
    SuccessorWraps(n);
    ReachStep(s, {}, Transmit(0, ""));
    mid := Next(s, {}, Transmit(0, ""));
  }

  lemma OpenEffect(s: System, n: nat)
    requires CountersFit(s) && |s.parties| == 2
    requires s.parties[1].ep.phase.Ready? && s.parties[1].ep.recvSeq == n % U64
    requires Peers(s.parties[0].ep, s.parties[1].ep) && s.parties[0].ep.client
    requires Sealed(s.parties[0].ep.keys.send, Nonce(n % U64, true), "") in s.wire
    ensures var step := Deliver(1, Sealed(s.parties[0].ep.keys.send, Nonce(n % U64, true), ""), "");
      Allowed(s, {}, step) && var s' := Next(s, {}, step);
      |s'.parties| == 2 && s'.parties[0] == s.parties[0] && s'.wire == s.wire &&
      s'.parties[1].ep == s.parties[1].ep.(recvSeq := (n + 1) % U64) &&
      s'.parties[1].got == s.parties[1].got + [""]
  {
    SuccessorWraps(n);
  }

  lemma OpenOne(s: System, n: nat) returns (s': System)
    requires Reachable(s, {}) && |s.parties| == 2 && s.parties[1].ep.phase.Ready? && s.parties[1].ep.recvSeq == n % U64
    requires Peers(s.parties[0].ep, s.parties[1].ep) && s.parties[0].ep.client
    requires Sealed(s.parties[0].ep.keys.send, Nonce(n % U64, true), "") in s.wire
    ensures Reachable(s', {}) && |s'.parties| == 2 && s'.parties[0] == s.parties[0] && s'.wire == s.wire
    ensures var p, q := s.parties[1], s'.parties[1];
      q.ep == p.ep.(recvSeq := (n + 1) % U64) && q.got == p.got + [""]
  {
    InvOfReachable(s, {});
    OpenEffect(s, n);
    var step := Deliver(1, Sealed(s.parties[0].ep.keys.send, Nonce(n % U64, true), ""), "");
    ReachStep(s, {}, step);
    s' := Next(s, {}, step);
  }

  lemma ExchangeOne(s: System, n: nat) returns (s': System)
    requires Reachable(s, {}) && Exchanged(s, n)
    ensures Reachable(s', {}) && Exchanged(s', n + 1)
  {
    var mid := SealOne(s, n);
    s' := OpenOne(mid, n);
  }

  lemma {:induction false} Exchange(n: nat) returns (s: System)
    ensures Reachable(s, {}) && Exchanged(s, n)
  {
    if n == 0 {
      s := HandshakeCompletes();
    } else {
      var before := Exchange(n - 1);
      s := ExchangeOne(before, n - 1);
    }
  }

  /** Whenever the peer of i sealed n messages, i has delivered a prefix of them. */
  ghost predicate PrefixAfter(n: nat) {
    forall s, leaked, i, j ::
      (Reachable(s, leaked) && Partner(s, i, j) && Honest(s.parties[i], leaked) && |s.parties[j].sent| == n) ==>
      s.parties[i].got <= s.parties[j].sent
  }

  lemma WrappedFrameOnWire(s: System, n: nat)
    requires Exchanged(s, n) && n >= U64
    ensures Sealed(s.parties[0].ep.keys.send, Nonce(n % U64, true), "") in s.wire
  {
    var m := n % U64;
    assert m < n && m % U64 == m;
    assert Sealed(s.parties[0].ep.keys.send, Nonce(m % U64, true), "") in s.wire;
  }

  lemma WrappedReplayOpens(n: nat) returns (s: System)
    requires n >= U64
    ensures Reachable(s, {}) && Partner(s, 1, 0) && Honest(s.parties[1], {})
    ensures |s.parties[0].sent| == n && |s.parties[1].got| == n + 1
  {
    var before := Exchange(n);
    WrappedFrameOnWire(before, n);
    InvOfReachable(before, {});
    assert PartyAccounted(before, 0, {});
    s := OpenOne(before, n);
  }

  /** In-order delivery is guaranteed exactly below 2^64 messages: there the counter wraps and a replay opens. */
  lemma PrefixExactly(n: nat)
    ensures PrefixAfter(n) <==> n < U64
  {
    if n < U64 {
      forall s, leaked, i, j | Reachable(s, leaked) && Partner(s, i, j) && Honest(s.parties[i], leaked) &&
                               |s.parties[j].sent| == n
        ensures s.parties[i].got <= s.parties[j].sent
      {
        InvOfReachable(s, leaked);
        DeliveredInOrder(s, leaked, i, j);
      }
    } else {
      var s := WrappedReplayOpens(n);
      assert !(s.parties[1].got <= s.parties[0].sent);
    }
  }

  // ------------------------------------------------------------- the code

  /** What ClientHandshake does with the frames that arrive; None stands for a failed receive. */
  ghost function ClientRun(secret: string, host: string, cn: string, helloSent: bool, incoming: seq<Option<Frame>>)
    : (r: (Endpoint, seq<Frame>))
    requires IsBytes(cn)
  {
    var (e0, hello) := ClientStart(secret, host, cn);
    if hello.None? then (e0, [])
    else if !helloSent then (Fail(e0), [])
    else if incoming == [] || incoming[0].None? then (Fail(e0), [hello.value])
    else
      var (e1, proof) := ClientOnChallenge(e0, incoming[0].value);
      if proof.None? then (e1, [hello.value])
      else if |incoming| < 2 || incoming[1].None? then (Fail(e1), [hello.value, proof.value])
      else (ClientOnProof(e1, incoming[1].value), [hello.value, proof.value])
  }

  ghost function ServerRun(secret: string, sn: string, incoming: seq<Option<Frame>>): (r: (Endpoint, seq<Frame>))
    requires IsBytes(sn)
  {
    var e0 := ServerStart(secret);
    if incoming == [] || incoming[0].None? then (Fail(e0), [])
    else
      var (e1, reply) := ServerOnHello(e0, incoming[0].value, sn);
      if e1.phase.Failed? then (e1, if reply.Some? then [reply.value] else [])
      else if |incoming| < 2 || incoming[1].None? then (Fail(e1), [reply.value])
      else
        var (e2, proof) := ServerOnProof(e1, incoming[1].value);
        (e2, if proof.Some? then [reply.value, proof.value] else [reply.value])
  }

  /** The keys of a session: one for each direction, derived from the secret, both nonces and the host. */
  ghost predicate HasKeys(ep: Endpoint, session: Term) {
    ep.keys.session == session &&
    ep.keys.send == Hmac(session, if ep.client then "c2s" else "s2c") &&
    ep.keys.recv == Hmac(session, if ep.client then "s2c" else "c2s") && ep.keys.isClient == ep.client
  }

  /**
   All of a client's handshake, frame by frame: what it sends, when it succeeds and with which keys; a
   failed receive ends it.
   */
  lemma ClientRunExactly(secret: string, host: string, cn: string, helloSent: bool, incoming: seq<Option<Frame>>)
    requires IsBytes(cn)
    ensures var (ep, out) := ClientRun(secret, host, cn, helloSent, incoming);
      var starts := |secret| >= 16 && helloSent;
      var sn := if incoming != [] && incoming[0].Some? && incoming[0].value.Challenge?
        then FromHex(incoming[0].value.nonce) else "";
      var session := Hmac(Psk(secret), "keys" + cn + sn + host);
      var ready := starts && |sn| == 32 && |incoming| >= 2 && incoming[1] == Some(Proof(Hmac(session, "server-proof")));
      out == (if !starts then []
              else [Hello(2, host, ToHex(cn))] + if |sn| == 32 then [Proof(Hmac(session, "client-proof"))] else []) &&
      ep.phase == (if ready then Ready else Failed) && ep.client && (ready ==> HasKeys(ep, session))
  {
  }

  /** The same for a server, which answers only what is no hello of version 2 with an error. */
  lemma ServerRunExactly(secret: string, sn: string, incoming: seq<Option<Frame>>)
    requires IsBytes(sn)
    ensures var (ep, out) := ServerRun(secret, sn, incoming);
      var hello := if incoming != [] && incoming[0].Some? then incoming[0].value else Noise("");
      var greeted := hello.Hello? && hello.version == 2;
      var cn, host := if greeted then FromHex(hello.nonce) else "", if greeted then hello.host else "";
      var wellFormed := |cn| == 32 && 1 <= |host| <= 255;
      var session := Hmac(Psk(secret), "keys" + cn + sn + host);
      var ready := wellFormed && |incoming| >= 2 && incoming[1] == Some(Proof(Hmac(session, "client-proof")));
      out == (if incoming == [] || incoming[0].None? then []
              else if !greeted then [Refusal("protocol version 2 required")]
              else if !wellFormed then []
              else [Challenge(ToHex(sn))] + if ready then [Proof(Hmac(session, "server-proof"))] else []) &&
      ep.phase == (if ready then Ready else Failed) && !ep.client && ep.host == host &&
      (ready ==> HasKeys(ep, session))
  {
  }

  /** The channel object; `incoming` and `outgoing` are the framed connection it runs over. */
  class Channel {
    var incoming: seq<Option<Frame>>
    var outgoing: seq<Frame>
    var sessionKey: Term
    var sendKey: Term
    var recvKey: Term
    var isClient: bool
    var sendSeq: nat
    var recvSeq: nat
    var ready: bool

    /** The object holds what the endpoint of the protocol holds. */
    ghost predicate Is(ep: Endpoint)
      reads this
    {
      Keys(sessionKey, sendKey, recvKey, isClient) == ep.keys && ready == ep.phase.Ready? &&
      sendSeq == ep.sendSeq < U64 && recvSeq == ep.recvSeq < U64
    }

    constructor (incoming: seq<Option<Frame>>)
      ensures this.incoming == incoming && outgoing == [] && Is(ServerStart(""))
    {
      this.incoming, outgoing := incoming, [];
      sessionKey, sendKey, recvKey, isClient := Blob(""), Blob(""), Blob(""), false;
      sendSeq, recvSeq, ready := 0, 0, false;
    }

    method NextFrame() returns (r: Option<Frame>)
      modifies this`incoming
      ensures old(incoming) == [] ==> r == None && incoming == []
      ensures old(incoming) != [] ==> r == old(incoming)[0] && incoming == old(incoming)[1..]
    {
      if incoming == [] { return None; }
      r := incoming[0];
      incoming := incoming[1..];
    }

    method SetKeys(secret: string, cn: string, sn: string, host: string, client: bool)
      modifies this`sessionKey, this`sendKey, this`recvKey, this`isClient
      ensures Keys(sessionKey, sendKey, recvKey, isClient) == DeriveKeys(secret, cn, sn, host, client)
    {
      sessionKey := Hmac(Psk(secret), "keys" + cn + sn + host);
      var c2s := Hmac(sessionKey, "c2s");
      var s2c := Hmac(sessionKey, "s2c");
      isClient := client;
      sendKey := if client then c2s else s2c;
      recvKey := if client then s2c else c2s;
    }

    /** The last step of either handshake: the next frame must carry the proof we expect. */
    method PeerProves(tag: string) returns (ok: bool)
      modifies this`incoming
      ensures ok <==> old(incoming) != [] && old(incoming)[0] == Some(Proof(Hmac(sessionKey, tag)))
    {
      var proof := NextFrame();
      ok := proof.Some? && proof.value == Proof(Hmac(sessionKey, tag));
    }

    /** The client answers a well-formed challenge with its proof. */
    method AnswerChallenge(ghost ep: Endpoint, secret: string, host: string, random: string, challenge: Frame)
      returns (ok: bool)
      requires Is(ep) && ep == Endpoint(secret, true, AwaitChallenge, random, "", host, NO_KEYS, 0, 0)
      modifies this`outgoing, this`sessionKey, this`sendKey, this`recvKey, this`isClient
      ensures var (ep', reply) := ClientOnChallenge(ep, challenge);
        Is(ep') && (ok <==> reply.Some?) &&
        outgoing == old(outgoing) + if reply.Some? then [reply.value] else []
    {
      if !challenge.Challenge? { return false; }
      var sn := DecodeHex(challenge.nonce);
      if |sn| != NONCE_LENGTH { return false; }
      SetKeys(secret, random, sn, host, true);
      outgoing := outgoing + [Proof(Hmac(sessionKey, "client-proof"))];
      ok := true;
    }

    method ClientHandshake(secret: string, host: string, random: string, helloSent: bool) returns (ok: bool)
      requires IsBytes(random) && Is(ServerStart(""))
      modifies this
      ensures var (ep, out) := ClientRun(secret, host, random, helloSent, old(incoming));
        Is(ep) && outgoing == old(outgoing) + out && (ok <==> ep.phase.Ready?)
    {
      if |secret| < MIN_SECRET || !helloSent { return false; }
      var nonce := EncodeHex(random);
      outgoing := outgoing + [Hello(2, host, nonce)];
      var challenge := NextFrame();
      if challenge.None? { return false; }
      ghost var ep := Endpoint(secret, true, AwaitChallenge, random, "", host, NO_KEYS, 0, 0);
      ok := AnswerChallenge(ep, secret, host, random, challenge.value);
      if !ok { return; }
      ok := PeerProves("server-proof");
      ready := ok;
    }

    /** Steps one and two of the server: a well-formed hello is answered with a challenge. */
    method AnswerHello(secret: string, random: string, hello: Frame) returns (ok: bool, peerHost: string)
      requires IsBytes(random) && Is(ServerStart(secret))
      modifies this`outgoing, this`sessionKey, this`sendKey, this`recvKey, this`isClient
      ensures var (ep, reply) := ServerOnHello(ServerStart(secret), hello, random);
        Is(ep) && (ok <==> !ep.phase.Failed?) && peerHost == ep.host &&
        outgoing == old(outgoing) + if reply.Some? then [reply.value] else []
    {
      if !hello.Hello? || hello.version != 2 {
        outgoing := outgoing + [Refusal("protocol version 2 required")];
        return false, "";
      }
      var cn := DecodeHex(hello.nonce);
      peerHost := hello.host;
      if |cn| != NONCE_LENGTH || peerHost == "" || |peerHost| > 255 { return false, peerHost; }
      var nonce := EncodeHex(random);
      outgoing := outgoing + [Challenge(nonce)];
      SetKeys(secret, cn, random, peerHost, false);
      ok := true;
    }

    method ServerHandshake(secret: string, random: string) returns (ok: bool, peerHost: string)
      requires IsBytes(random) && Is(ServerStart(""))
      modifies this
      ensures var (ep, out) := ServerRun(secret, random, old(incoming));
        Is(ep) && outgoing == old(outgoing) + out && (ok <==> ep.phase.Ready?) && peerHost == ep.host
    {
      var hello := NextFrame();
      if hello.None? { return false, ""; }
      ok, peerHost := AnswerHello(secret, random, hello.value);
      if !ok { return; }
      ok := PeerProves("client-proof");
      if ok { outgoing := outgoing + [Proof(Hmac(sessionKey, "server-proof"))]; }
      ready := ok;
    }

    /**
     If the cipher fails nothing changes. `written` says whether the frame went out whole; the counter
     has moved on either way.
     */
    method Send(ghost ep: Endpoint, plain: string, encrypted: bool, written: bool) returns (ok: bool)
      requires Is(ep)
      modifies this`sendSeq, this`outgoing
      ensures !encrypted ==> Is(ep) && !ok && outgoing == old(outgoing)
      ensures encrypted ==>
        var (ep', out) := Seal(ep, plain);
        Is(ep') && (ok <==> out.Some? && written) &&
        outgoing == if ok then old(outgoing) + [out.value] else old(outgoing)
    {
      if !ready || !encrypted { return false; }
      var nonce := BuildNonce(sendSeq, isClient);
      var sealed := Sealed(sendKey, nonce, plain);
      sendSeq := (sendSeq + 1) % U64;
      if !written { return false; }
      outgoing := outgoing + [sealed];
      return true;
    }

    /** 1 = a message, 0 = nothing in time, -1 = not ready, broken or tampered with. */
    method Receive(ghost ep: Endpoint, frame: Option<Frame>, timedOut: bool) returns (code: int, plain: string)
      requires Is(ep)
      modifies this`recvSeq
      ensures frame.None? || !ready ==> Is(ep) && code == if ready && timedOut then 0 else -1
      ensures frame.Some? && ready ==>
        var (ep', message) := Open(ep, frame.value);
        Is(ep') && (code == if message.Some? then 1 else -1) && (message.Some? ==> plain == message.value)
    {
      plain := "";
      if !ready { return -1, plain; }
      if frame.None? { return if timedOut then 0 else -1, plain; }
      var nonce := BuildNonce(recvSeq, !isClient);
      var f := frame.value;
      if !f.Sealed? || f.key != recvKey || f.nonce != nonce { return -1, plain; }
      plain := f.plain;
      recvSeq := (recvSeq + 1) % U64;
      return 1, plain;
    }
  }
}
