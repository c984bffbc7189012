/** Per-direction packet encryption (encryption.rs). */
module P2pCipher {
  import opened Prelude

  const TWO_64 := 0x1_0000_0000_0000_0000

  /** AES-256-GCM and HKDF-SHA256: `seal` and `open` take key, nonce, text and additional data. */
  datatype Aead = Aead(
    seal: (Bytes, Bytes, Bytes, Bytes) -> Bytes,
    open: (Bytes, Bytes, Bytes, Bytes) -> Option<Bytes>,
    derive: (Bytes, Bytes, Bytes, nat) -> Bytes)

  /** Opening what was sealed under the same key, nonce and additional data gives the text back. */
  ghost predicate OpensSealed(a: Aead) {
    forall key: Bytes, nonce: Bytes, text: Bytes, aad: Bytes ::
      a.open(key, nonce, a.seal(key, nonce, text, aad), aad) == Some(text)
  }

  const C2A := Ascii("wispers-p2p-v1|c2a")
  const A2C := Ascii("wispers-p2p-v1|a2c")
  const NONCE_PREFIX_INFO := Ascii("wispers-p2p-v1|np")
  const AAD_PREFIX := Ascii("wispers-p2p-v1|a")

  /** Little-endian bytes. */
  function LittleEndian(n: nat, width: nat): (b: Bytes)
    ensures |b| == width
  {
    if width == 0 then [] else [n % 0x100] + LittleEndian(n / 0x100, width - 1)
  }

  function FromLittleEndian(b: Bytes): nat {
    if b == [] then 0 else b[0] + 0x100 * FromLittleEndian(b[1..])
  }

  function Pow256(n: nat): (p: nat)
    ensures p > 0
  {
    if n == 0 then 1 else 0x100 * Pow256(n - 1)
  }

  lemma {:induction false} LittleEndianRoundTrip(n: nat, width: nat)
    ensures FromLittleEndian(LittleEndian(n, width)) == n % Pow256(width)
  {
    if width > 0 {
      LittleEndianRoundTrip(n / 0x100, width - 1);
      ModOfProduct(n, Pow256(width - 1));
    }
  }

  lemma ModOfProduct(n: nat, p: nat)
    requires p > 0
    ensures n % (0x100 * p) == n % 0x100 + 0x100 * ((n / 0x100) % p)
  {
    var q, r := n / 0x100, n % 0x100;
    var a, b := q / p, q % p;
    assert q == a * p + b;
    calc {
      n;
    == 0x100 * q + r;
    == 0x100 * (a * p + b) + r;
    == { assert 0x100 * (a * p) == a * (0x100 * p); }
       a * (0x100 * p) + (0x100 * b + r);
    }
    ModUnique(n, 0x100 * p, a, 0x100 * b + r);
  }

  lemma ModUnique(n: nat, m: nat, q: nat, r: nat)
    requires m > 0 && r < m && n == q * m + r
    ensures n % m == r
  {
    var q', r' := n / m, n % m;
    assert n == q' * m + r';
    if q < q' {
      MulMono(q + 1, q', m);
    } else if q' < q {
      MulMono(q' + 1, q, m);
    }
  }

  function BuildNonce(prefix: Bytes, seqno: nat): Bytes {
    prefix + LittleEndian(seqno, 8)
  }

  function BuildAad(seqno: nat): Bytes {
    AAD_PREFIX + LittleEndian(seqno, 8)
  }

  datatype Keys = Keys(key: Bytes, noncePrefix: Bytes)

  /** A 64-bit connection ID as its two's complement bytes. */
  function ConnectionIdBytes(id: int): Bytes {
    LittleEndian(id % TWO_64, 8)
  }

  function DirectionKeys(a: Aead, secret: Bytes, id: int, direction: Bytes): Keys {
    var salt := ConnectionIdBytes(id);
    Keys(a.derive(salt, secret, direction, 32), a.derive(salt, secret, NONCE_PREFIX_INFO + direction, 4))
  }

  function Packet(a: Aead, k: Keys, seqno: nat, text: Bytes): Bytes {
    LittleEndian(seqno, 8) + a.seal(k.key, BuildNonce(k.noncePrefix, seqno), text, BuildAad(seqno))
  }

  datatype DecryptError = PacketTooShort | DecryptFailed

  function Decrypt(a: Aead, k: Keys, packet: Bytes): Result<Bytes, DecryptError> {
    if |packet| < 8 then Err(PacketTooShort)
    else
      var seqno := FromLittleEndian(packet[..8]);
      match a.open(k.key, BuildNonce(k.noncePrefix, seqno), packet[8..], BuildAad(seqno))
      case None => Err(DecryptFailed)
      case Some(text) => Ok(text)
  }

  lemma SeqnoBytes(seqno: nat)
    requires seqno < TWO_64
    ensures FromLittleEndian(LittleEndian(seqno, 8)) == seqno
  {
    LittleEndianRoundTrip(seqno, 8);
    assert Pow256(4) == 0x1_0000_0000;
    assert Pow256(8) == TWO_64;
  }

  /** A sealed packet opens to its text under the same keys. */
  lemma DecryptPacket(a: Aead, k: Keys, seqno: nat, text: Bytes)
    requires OpensSealed(a) && seqno < TWO_64
    ensures Decrypt(a, k, Packet(a, k, seqno, text)) == Ok(text)
  {
    SeqnoBytes(seqno);
    var p := Packet(a, k, seqno, text);
    assert p[..8] == LittleEndian(seqno, 8);
    assert p[8..] == a.seal(k.key, BuildNonce(k.noncePrefix, seqno), text, BuildAad(seqno));
  }

  //-- What keeps packets apart --------------------------------------------------------------------

  /** HKDF yields as many bytes as it is asked for. */
  ghost predicate DerivesLength(a: Aead) {
    forall salt: Bytes, secret: Bytes, info: Bytes, n: nat :: |a.derive(salt, secret, info, n)| == n
  }

  /** HKDF taken as free of collisions, among outputs of `n` bytes. */
  ghost predicate DerivesApart(a: Aead, n: nat) {
    forall salt: Bytes, secret: Bytes, info: Bytes, salt': Bytes, secret': Bytes, info': Bytes ::
      a.derive(salt, secret, info, n) == a.derive(salt', secret', info', n) ==>
        salt == salt' && secret == secret' && info == info'
  }

  /** Ideal encryption: only what was sealed under the very same key, nonce and additional data opens. */
  ghost predicate OpensOnlySealed(a: Aead) {
    && (forall key: Bytes, nonce: Bytes, sealed: Bytes, aad: Bytes ::
          var text := a.open(key, nonce, sealed, aad);
          text.Some? ==> sealed == a.seal(key, nonce, text.value, aad))
    && (forall key: Bytes, nonce: Bytes, text: Bytes, aad: Bytes,
               key': Bytes, nonce': Bytes, text': Bytes, aad': Bytes ::
          a.seal(key, nonce, text, aad) == a.seal(key', nonce', text', aad') ==>
            key == key' && nonce == nonce' && text == text' && aad == aad')
  }

  lemma DirectionsDiffer()
    ensures C2A != A2C && NONCE_PREFIX_INFO + C2A != NONCE_PREFIX_INFO + A2C
  {
    assert C2A[15] == 99 && A2C[15] == 97;
    assert (NONCE_PREFIX_INFO + C2A)[|NONCE_PREFIX_INFO|..] == C2A;
    assert (NONCE_PREFIX_INFO + A2C)[|NONCE_PREFIX_INFO|..] == A2C;
  }

  /** Two directions have one key only if they are the same direction of the same connection. */
  lemma KeysApart(a: Aead, secret: Bytes, id: int, d: Bytes, secret': Bytes, id': int, d': Bytes)
    requires DerivesApart(a, 32)
    ensures DirectionKeys(a, secret, id, d).key == DirectionKeys(a, secret', id', d').key <==>
            secret == secret' && id % TWO_64 == id' % TWO_64 && d == d'
  {
    SeqnoBytes(id % TWO_64);
    SeqnoBytes(id' % TWO_64);
  }

  /** And likewise one nonce prefix. */
  lemma PrefixesApart(a: Aead, secret: Bytes, id: int, d: Bytes, secret': Bytes, id': int, d': Bytes)
    requires DerivesApart(a, 4)
    ensures DirectionKeys(a, secret, id, d).noncePrefix == DirectionKeys(a, secret', id', d').noncePrefix <==>
            secret == secret' && id % TWO_64 == id' % TWO_64 && d == d'
  {
    SeqnoBytes(id % TWO_64);
    SeqnoBytes(id' % TWO_64);
    assert (NONCE_PREFIX_INFO + d)[|NONCE_PREFIX_INFO|..] == d;
    assert (NONCE_PREFIX_INFO + d')[|NONCE_PREFIX_INFO|..] == d';
  }

  /** The sizes that AES-256-GCM takes, and the fixed size of the additional data. */
  lemma Sizes(a: Aead, secret: Bytes, id: int, d: Bytes, seqno: nat)
    requires DerivesLength(a)
    ensures var k := DirectionKeys(a, secret, id, d);
            |k.key| == 32 && |BuildNonce(k.noncePrefix, seqno)| == 12 && |BuildAad(seqno)| == 24
  {
  }

  /** The sequence number in the clear is bound by the additional data, under a label of its own. */
  lemma AadsDiffer(m: nat, n: nat)
    requires m < TWO_64 && n < TWO_64
    ensures BuildAad(m) == BuildAad(n) <==> m == n
    ensures AAD_PREFIX <= BuildAad(m)
  {
    assert BuildAad(m)[|AAD_PREFIX|..] == LittleEndian(m, 8) && BuildAad(n)[|AAD_PREFIX|..] == LittleEndian(n, 8);
    SeqnoBytes(m);
    SeqnoBytes(n);
  }

  lemma {:induction false} LittleEndianBack(b: Bytes)
    ensures LittleEndian(FromLittleEndian(b), |b|) == b && FromLittleEndian(b) < Pow256(|b|)
  {
    if b != [] {
      LittleEndianBack(b[1..]);
      var n, rest := FromLittleEndian(b), FromLittleEndian(b[1..]);
      assert n % 0x100 == b[0] && n / 0x100 == rest;
      assert b == [b[0]] + b[1..];
    }
  }

  /** Nothing decrypts but packets sealed under these keys, with the sequence number they carry. */
  lemma DecryptsOnlyPackets(a: Aead, k: Keys, packet: Bytes)
    requires OpensOnlySealed(a) && Decrypt(a, k, packet).Ok?
    ensures |packet| >= 8 && packet == Packet(a, k, FromLittleEndian(packet[..8]), Decrypt(a, k, packet).value)
  {
    LittleEndianBack(packet[..8]);
    assert packet == packet[..8] + packet[8..];
  }

  /** A packet opens under other keys only if they have the same key and nonce prefix. */
  lemma OnlyItsKeysOpen(a: Aead, k: Keys, seqno: nat, text: Bytes, k': Keys)
    requires OpensOnlySealed(a) && seqno < TWO_64 && Decrypt(a, k', Packet(a, k, seqno, text)).Ok?
    ensures k'.key == k.key
  {
    var p := Packet(a, k, seqno, text);
    DecryptsOnlyPackets(a, k', p);
    assert p[8..] == a.seal(k.key, BuildNonce(k.noncePrefix, seqno), text, BuildAad(seqno));
  }

  /** One end of a connection: keys to send and receive with, and the counter of packets sent. */
  class Cipher {
    const a: Aead
    const sendKeys: Keys
    const receiveKeys: Keys
    var seqno: nat

    ghost predicate Valid()
      reads this
    {
      seqno < TWO_64
    }

    constructor Caller(a: Aead, secret: Bytes, id: int)
      ensures Valid() && seqno == 0 && this.a == a
      ensures sendKeys == DirectionKeys(a, secret, id, C2A) && receiveKeys == DirectionKeys(a, secret, id, A2C)
    {
      this.a, this.seqno := a, 0;
      sendKeys, receiveKeys := DirectionKeys(a, secret, id, C2A), DirectionKeys(a, secret, id, A2C);
    }

    constructor Answerer(a: Aead, secret: Bytes, id: int)
      ensures Valid() && seqno == 0 && this.a == a
      ensures sendKeys == DirectionKeys(a, secret, id, A2C) && receiveKeys == DirectionKeys(a, secret, id, C2A)
    {
      this.a, this.seqno := a, 0;
      sendKeys, receiveKeys := DirectionKeys(a, secret, id, A2C), DirectionKeys(a, secret, id, C2A);
    }

    /** `fetch_add` wraps at 2^64. */
    method Encrypt(text: Bytes) returns (packet: Bytes)
      requires Valid()
      modifies this
      ensures Valid() && seqno == (old(seqno) + 1) % TWO_64
      ensures packet == Packet(a, sendKeys, old(seqno), text)
    {
      var n := seqno;
      seqno := (seqno + 1) % TWO_64;
      packet := LittleEndian(n, 8);
      packet := packet + a.seal(sendKeys.key, BuildNonce(sendKeys.noncePrefix, n), text, BuildAad(n));
    }

    method DecryptReceived(packet: Bytes) returns (result: Result<Bytes, DecryptError>)
      ensures result == Decrypt(a, receiveKeys, packet)
    {
      if |packet| < 8 {
        return Err(PacketTooShort);
      }
      var n := FromLittleEndian(packet[..8]);
      var text := a.open(receiveKeys.key, BuildNonce(receiveKeys.noncePrefix, n), packet[8..], BuildAad(n));
      return if text.None? then Err(DecryptFailed) else Ok(text.value);
    }
  }

  //-- Every interleaving of both ends -------------------------------------------------------------

  /** Which end sends what; the k-th sends of an end are numbered from 0. */
  datatype Send = Send(byCaller: bool, text: Bytes)

  /** How many of the sends are by that end. */
  function CountBy(sends: seq<Send>, byCaller: bool): nat {
    if sends == [] then 0
    else CountBy(sends[..|sends| - 1], byCaller) + if sends[|sends| - 1].byCaller == byCaller then 1 else 0
  }

  function SendKeys(a: Aead, secret: Bytes, id: int, byCaller: bool): Keys {
    DirectionKeys(a, secret, id, if byCaller then C2A else A2C)
  }

  /** The sequence number of the `i`-th send. */
  function SeqnoOf(sends: seq<Send>, i: nat): nat
    requires i < |sends|
  {
    CountBy(sends[..i], sends[i].byCaller) % TWO_64
  }

  function PacketOf(a: Aead, secret: Bytes, id: int, sends: seq<Send>, i: nat): Bytes
    requires i < |sends|
  {
    Packet(a, SendKeys(a, secret, id, sends[i].byCaller), SeqnoOf(sends, i), sends[i].text)
  }

  lemma SameConnectionKeys(a: Aead, secret: Bytes, id: int, id': int)
    requires id % TWO_64 == id' % TWO_64
    ensures forall d :: DirectionKeys(a, secret, id, d) == DirectionKeys(a, secret, id', d)
  {
  }

  /** Whichever packets arrive, in whatever order and how often, each decrypts at the other end to what was sent. */
  lemma DeliveredIntact(a: Aead, secret: Bytes, id: int, sends: seq<Send>, i: nat)
    requires OpensSealed(a) && i < |sends|
    ensures var receiverKeys := DirectionKeys(a, secret, id, if sends[i].byCaller then C2A else A2C);
            Decrypt(a, receiverKeys, PacketOf(a, secret, id, sends, i)) == Ok(sends[i].text)
  {
    DecryptPacket(a, SendKeys(a, secret, id, sends[i].byCaller), SeqnoOf(sends, i), sends[i].text);
  }

  /** What happens on a connection: an end sends, or the network delivers one of the packets sent so far. */
  datatype Traffic = Sending(send: Send) | Delivering(packet: nat)

  function SendsOf(traffic: seq<Traffic>): seq<Send> {
    if traffic == [] then []
    else
      var last := traffic[|traffic| - 1];
      SendsOf(traffic[..|traffic| - 1]) + if last.Sending? then [last.send] else []
  }

  /** What the deliveries should bring: the texts of the packets delivered, each as often as it is. */
  function TextsDelivered(traffic: seq<Traffic>): seq<Bytes> {
    if traffic == [] then []
    else
      var front, last := traffic[..|traffic| - 1], traffic[|traffic| - 1];
      var sent := SendsOf(front);
      TextsDelivered(front) + if last.Delivering? && last.packet < |sent| then [sent[last.packet].text] else []
  }

  /** Earlier packets do not depend on later sends. */
  lemma PacketsKept(a: Aead, secret: Bytes, id: int, sends: seq<Send>, more: Send, i: nat)
    requires i < |sends|
    ensures PacketOf(a, secret, id, sends + [more], i) == PacketOf(a, secret, id, sends, i)
  {
    assert (sends + [more])[..i] == sends[..i];
  }

  lemma SendCounted(sends: seq<Send>, more: Send, byCaller: bool)
    ensures CountBy(sends + [more], byCaller) % TWO_64 ==
            if more.byCaller == byCaller then (CountBy(sends, byCaller) % TWO_64 + 1) % TWO_64
            else CountBy(sends, byCaller) % TWO_64
  {
    assert (sends + [more])[..|sends|] == sends;
  }

  lemma ReceiverKeys(a: Aead, secret: Bytes, id: int, sends: seq<Send>, i: nat)
    requires OpensSealed(a) && i < |sends|
    ensures Decrypt(a, SendKeys(a, secret, id, sends[i].byCaller), PacketOf(a, secret, id, sends, i)) ==
            Ok(sends[i].text)
  {
    hide Packet, Decrypt, CountBy;
    DeliveredIntact(a, secret, id, sends, i);
  }

  lemma TrafficStep(traffic: seq<Traffic>, k: nat)
    requires k < |traffic|
    ensures var sent := SendsOf(traffic[..k]);
            && SendsOf(traffic[..k + 1]) == (if traffic[k].Sending? then sent + [traffic[k].send] else sent)
            && TextsDelivered(traffic[..k + 1]) == TextsDelivered(traffic[..k]) +
               if traffic[k].Delivering? && traffic[k].packet < |sent| then [sent[traffic[k].packet].text] else []
  {
    assert traffic[..k + 1][..k] == traffic[..k];
  }

  /** Both ends run: each send is encrypted by the end that sends it, each delivery decrypted by the other. */
  method RunBoth(a: Aead, secret: Bytes, callerId: int, answererId: int, traffic: seq<Traffic>)
    returns (packets: seq<Bytes>, received: seq<Result<Bytes, DecryptError>>)
    requires OpensSealed(a) && callerId % TWO_64 == answererId % TWO_64
    ensures |packets| == |SendsOf(traffic)|
    ensures forall i | 0 <= i < |packets| :: packets[i] == PacketOf(a, secret, callerId, SendsOf(traffic), i)
    ensures |received| == |TextsDelivered(traffic)|
    ensures forall j | 0 <= j < |received| :: received[j] == Ok(TextsDelivered(traffic)[j])
  {
    hide DirectionKeys, Packet, Decrypt, CountBy, OpensSealed, PacketOf, SendsOf, TextsDelivered;
    assert forall d :: DirectionKeys(a, secret, callerId, d) == DirectionKeys(a, secret, answererId, d) by {
      SameConnectionKeys(a, secret, callerId, answererId);
    }
    var caller := new Cipher.Caller(a, secret, callerId);
    var answerer := new Cipher.Answerer(a, secret, answererId);
    packets, received := [], [];
    var sends: seq<Send> := [];
    NothingYet(traffic);
    for k := 0 to |traffic|
      invariant caller.Valid() && answerer.Valid()
      invariant sends == SendsOf(traffic[..k])
      invariant caller.seqno == CountBy(sends, true) % TWO_64
      invariant answerer.seqno == CountBy(sends, false) % TWO_64
      invariant |packets| == |sends|
      invariant forall i | 0 <= i < |sends| :: packets[i] == PacketOf(a, secret, callerId, sends, i)
      invariant |received| == |TextsDelivered(traffic[..k])|
      invariant forall j | 0 <= j < |received| :: received[j] == Ok(TextsDelivered(traffic[..k])[j])
    {
      TrafficStep(traffic, k);
      match traffic[k] {
        case Sending(send) =>
          var packet;
          if send.byCaller {
            packet := caller.Encrypt(send.text);
          } else {
            packet := answerer.Encrypt(send.text);
          }
          PacketSent(a, secret, callerId, sends, send);
          forall i | 0 <= i < |sends| ensures packets[i] == PacketOf(a, secret, callerId, sends + [send], i) {
            PacketsKept(a, secret, callerId, sends, send, i);
          }
          packets, sends := packets + [packet], sends + [send];
        case Delivering(i) =>
          if i < |packets| {
            ReceiverKeys(a, secret, callerId, sends, i);
            var result;
            if sends[i].byCaller {
              result := answerer.DecryptReceived(packets[i]);
            } else {
              result := caller.DecryptReceived(packets[i]);
            }
            received := received + [result];
          }
      }
    }
    assert traffic[..|traffic|] == traffic;
  }

  lemma NothingYet(traffic: seq<Traffic>)
    ensures SendsOf(traffic[..0]) == [] && TextsDelivered(traffic[..0]) == []
    ensures forall byCaller :: CountBy([], byCaller) == 0
  {
  }

  lemma PacketSent(a: Aead, secret: Bytes, id: int, sends: seq<Send>, send: Send)
    ensures PacketOf(a, secret, id, sends + [send], |sends|) ==
            Packet(a, SendKeys(a, secret, id, send.byCaller), CountBy(sends, send.byCaller) % TWO_64, send.text)
    ensures forall byCaller :: CountBy(sends + [send], byCaller) % TWO_64 ==
              if send.byCaller == byCaller then (CountBy(sends, byCaller) % TWO_64 + 1) % TWO_64
              else CountBy(sends, byCaller) % TWO_64
  {
    hide Packet, DirectionKeys, CountBy;
    assert (sends + [send])[..|sends|] == sends && (sends + [send])[|sends|] == send;
    SendCounted(sends, send, true);
    SendCounted(sends, send, false);
  }

  lemma {:induction false} CountMonotone(sends: seq<Send>, byCaller: bool, i: nat, j: nat)
    requires i < j <= |sends| && sends[i].byCaller == byCaller
    ensures CountBy(sends[..i], byCaller) < CountBy(sends[..j], byCaller)
  {
    assert sends[..j][..j - 1] == sends[..j - 1];
    if i < j - 1 {
      CountMonotone(sends, byCaller, i, j - 1);
    }
  }

  /** Two sends of one end share a nonce exactly if their numbers differ by a multiple of 2^64. */
  lemma NoncesRepeatExactly(prefix: Bytes, m: nat, n: nat)
    ensures BuildNonce(prefix, m % TWO_64) == BuildNonce(prefix, n % TWO_64) <==> m % TWO_64 == n % TWO_64
  {
    SeqnoBytes(m % TWO_64);
    SeqnoBytes(n % TWO_64);
    assert BuildNonce(prefix, m % TWO_64)[|prefix|..] == LittleEndian(m % TWO_64, 8);
    assert BuildNonce(prefix, n % TWO_64)[|prefix|..] == LittleEndian(n % TWO_64, 8);
  }

  /** Within 2^64 sends, no end uses a nonce twice. */
  lemma NoncesDistinct(a: Aead, secret: Bytes, id: int, sends: seq<Send>, i: nat, j: nat)
    requires i < j < |sends| && sends[i].byCaller == sends[j].byCaller
    requires CountBy(sends, sends[i].byCaller) <= TWO_64
    ensures var k := SendKeys(a, secret, id, sends[i].byCaller);
            BuildNonce(k.noncePrefix, SeqnoOf(sends, i)) != BuildNonce(k.noncePrefix, SeqnoOf(sends, j))
  {
    hide DirectionKeys, BuildNonce, CountBy;
    CountMonotone(sends, sends[i].byCaller, i, j);
    CountMonotone(sends, sends[j].byCaller, j, |sends|);
    assert sends[..|sends|] == sends;
    var m, n := CountBy(sends[..i], sends[i].byCaller), CountBy(sends[..j], sends[j].byCaller);
    SmallModulo(m);
    SmallModulo(n);
    NoncesRepeatExactly(SendKeys(a, secret, id, sends[i].byCaller).noncePrefix, m, n);
  }

  lemma SmallModulo(n: nat)
    requires n < TWO_64
    ensures n % TWO_64 == n
  {
  }

  /** No two packets of a connection, from whichever ends, are sealed under the same key and nonce. */
  lemma NoKeyAndNonceTwice(a: Aead, secret: Bytes, id: int, sends: seq<Send>, i: nat, j: nat)
    requires DerivesApart(a, 32)
    requires i < j < |sends| && CountBy(sends, true) <= TWO_64 && CountBy(sends, false) <= TWO_64
    ensures var k, k' := SendKeys(a, secret, id, sends[i].byCaller), SendKeys(a, secret, id, sends[j].byCaller);
            || k.key != k'.key
            || BuildNonce(k.noncePrefix, SeqnoOf(sends, i)) != BuildNonce(k'.noncePrefix, SeqnoOf(sends, j))
    ensures SendKeys(a, secret, id, true).key != SendKeys(a, secret, id, false).key
  {
    DirectionsDiffer();
    KeysApart(a, secret, id, C2A, secret, id, A2C);
    if sends[i].byCaller == sends[j].byCaller {
      NoncesDistinct(a, secret, id, sends, i, j);
    }
  }

  /** Nor do packets of connections that differ in their secret, or in their ID modulo 2^64, share a key. */
  lemma ConnectionsApart(a: Aead, secret: Bytes, id: int, byCaller: bool, secret': Bytes, id': int, byCaller': bool)
    requires DerivesApart(a, 32) && (secret != secret' || id % TWO_64 != id' % TWO_64)
    ensures SendKeys(a, secret, id, byCaller).key != SendKeys(a, secret', id', byCaller').key
  {
    KeysApart(a, secret, id, if byCaller then C2A else A2C, secret', id', if byCaller' then C2A else A2C);
  }

  /** No end accepts a packet that it sent itself, nor one of another connection. */
  lemma ForeignPacketsRejected(a: Aead, secret: Bytes, id: int, sends: seq<Send>, i: nat,
                               secret': Bytes, id': int, byCaller: bool)
    requires OpensOnlySealed(a) && DerivesApart(a, 32) && i < |sends|
    requires secret != secret' || id % TWO_64 != id' % TWO_64 || byCaller != sends[i].byCaller
    ensures Decrypt(a, SendKeys(a, secret', id', byCaller), PacketOf(a, secret, id, sends, i)) == Err(DecryptFailed)
  {
    var k, k' := SendKeys(a, secret, id, sends[i].byCaller), SendKeys(a, secret', id', byCaller);
    DirectionsDiffer();
    KeysApart(a, secret, id, if sends[i].byCaller then C2A else A2C, secret', id', if byCaller then C2A else A2C);
    hide DirectionKeys, Decrypt;
    if Decrypt(a, k', PacketOf(a, secret, id, sends, i)).Ok? {
      OnlyItsKeysOpen(a, k, SeqnoOf(sends, i), sends[i].text, k');
    }
    LongEnough(a, k', PacketOf(a, secret, id, sends, i));
  }

  lemma LongEnough(a: Aead, k: Keys, packet: Bytes)
    requires |packet| >= 8
    ensures Decrypt(a, k, packet) != Err(PacketTooShort)
  {
  }
}
