/**
 The STUN and TURN message codec: the Allocate request with its padded attributes and message
 integrity, and the three attribute walkers.  Message layout after RFC 5389 sections 6 and 15,
 addresses after its section 15.2 and RFC 5766 section 14.5.  SHA-1 and MD5 are parameters.
 */
module StunTurn {
  import opened Wrappers
  import opened Bytes

  const ALLOCATE_REQUEST: nat := 0x0003
  const MAGIC_COOKIE: nat := 0x2112A442
  const XOR_MAPPED_ADDRESS: nat := 0x0020
  const XOR_RELAYED_ADDRESS: nat := 0x0016
  const REQUESTED_TRANSPORT: nat := 0x0019
  const USERNAME: nat := 0x0006
  const REALM: nat := 0x0014
  const NONCE: nat := 0x0015
  const MESSAGE_INTEGRITY: nat := 0x0008

  type Digest = d: seq<byte> | |d| == 20 witness Zeros(20)

  type TransactionId = t: seq<byte> | |t| == 12 witness Zeros(12)

  type Ipv4 = a: seq<byte> | |a| == 4 witness Zeros(4)

  datatype SocketAddr = SocketAddr(ip: Ipv4, port: nat)

  datatype Attr = Attr(kind: nat, value: seq<byte>)

  /** `(n + 3) & !3`: the least multiple of 4 that is not below `n`. */
  function RoundUp4(n: nat): (r: nat)
    ensures n <= r < n + 4
  {
    if n == 0 then 0 else if n <= 4 then 4 else 4 + RoundUp4(n - 4)
  }

  lemma {:induction false} RoundUp4IsMasking(n: nat)
    ensures RoundUp4(n) == (n + 3) / 4 * 4 && RoundUp4(n) % 4 == 0
  {
    if n > 4 { RoundUp4IsMasking(n - 4); }
  }

  // --- Attribute lists ---

  function EncodeAttr(a: Attr): (b: seq<byte>)
    ensures |b| == 4 + RoundUp4(|a.value|)
  {
    var kind, len := BE16(a.kind), BE16(|a.value|);
    [kind[0], kind[1], len[0], len[1]] + a.value + Zeros(RoundUp4(|a.value|) - |a.value|)
  }

  function EncodeAttrs(attrs: seq<Attr>): seq<byte> {
    if attrs == [] then [] else EncodeAttr(attrs[0]) + EncodeAttrs(attrs[1..])
  }

  /** The length field of an attribute. */
  function LenAt(b: seq<byte>, pos: nat): nat
    requires pos + 4 <= |b|
  {
    FromBE16(b[pos + 2], b[pos + 3])
  }

  /** An attribute whose value is not cut short. */
  predicate CompleteAt(b: seq<byte>, pos: nat) { pos + 4 <= |b| && pos + 4 + LenAt(b, pos) <= |b| }

  function AttrAt(b: seq<byte>, pos: nat): Attr
    requires CompleteAt(b, pos)
  {
    Attr(FromBE16(b[pos], b[pos + 1]), b[pos + 4..pos + 4 + LenAt(b, pos)])
  }

  function NextAt(b: seq<byte>, pos: nat): (next: nat)
    requires pos + 4 <= |b|
    ensures next >= pos + 4 + LenAt(b, pos)
  {
    pos + 4 + RoundUp4(LenAt(b, pos))
  }

  /** The attributes a walk from `pos` meets; it ends where an attribute is cut short. */
  function Walk(b: seq<byte>, pos: nat): seq<Attr>
    decreases |b| - pos
  {
    if CompleteAt(b, pos) then [AttrAt(b, pos)] + Walk(b, NextAt(b, pos)) else []
  }

  predicate Fits(a: Attr) { a.kind < 65536 && |a.value| < 65536 }

  /** The attributes stand one after another from `pos` to the end of `b`. */
  ghost predicate ListedAt(b: seq<byte>, pos: nat, attrs: seq<Attr>)
    decreases |attrs|
  {
    if attrs == [] then pos == |b|
    else StandsAt(b, pos, attrs[0]) && ListedAt(b, pos + 4 + RoundUp4(|attrs[0].value|), attrs[1..])
  }

  ghost predicate StandsAt(b: seq<byte>, pos: nat, a: Attr) {
    && pos + 4 + RoundUp4(|a.value|) <= |b|
    && FromBE16(b[pos], b[pos + 1]) == a.kind
    && FromBE16(b[pos + 2], b[pos + 3]) == |a.value|
    && b[pos + 4..pos + 4 + |a.value|] == a.value
  }

  lemma {:induction false} ListIsWalked(b: seq<byte>, pos: nat, attrs: seq<Attr>)
    requires ListedAt(b, pos, attrs)
    ensures Walk(b, pos) == attrs
    decreases |attrs|
  {
    if attrs != [] {
      ListIsWalked(b, pos + 4 + RoundUp4(|attrs[0].value|), attrs[1..]);
      assert attrs == [attrs[0]] + attrs[1..];
    }
  }

  lemma StandsFirst(a: Attr, back: seq<byte>)
    requires Fits(a)
    ensures StandsAt(EncodeAttr(a) + back, 0, a)
  {
    var kind, len := BE16(a.kind), BE16(|a.value|);
    HeaderAndValue(kind[0], kind[1], len[0], len[1], a.value, Zeros(RoundUp4(|a.value|) - |a.value|), back);
    BE16Exact(a.kind);
    BE16Exact(|a.value|);
  }

  lemma HeaderAndValue(k0: byte, k1: byte, l0: byte, l1: byte, value: seq<byte>, padding: seq<byte>, back: seq<byte>)
    ensures var s := [k0, k1, l0, l1] + value + padding + back;
            s[0] == k0 && s[1] == k1 && s[2] == l0 && s[3] == l1 && s[4..4 + |value|] == value
  {
  }

  lemma StandsShifted(front: seq<byte>, s: seq<byte>, a: Attr)
    requires StandsAt(s, 0, a)
    ensures StandsAt(front + s, |front|, a)
  {
    var b, n := front + s, |a.value|;
    assert b[|front| + 4..|front| + 4 + n] == s[4..4 + n];
  }

  /** An encoded list stands wherever it is put at the end. */
  lemma {:induction false} EncodedListStands(front: seq<byte>, attrs: seq<Attr>)
    requires forall i | 0 <= i < |attrs| :: Fits(attrs[i])
    ensures ListedAt(front + EncodeAttrs(attrs), |front|, attrs)
    decreases |attrs|
  {
    if attrs != [] {
      var first, back := EncodeAttr(attrs[0]), EncodeAttrs(attrs[1..]);
      StandsFirst(attrs[0], back);
      StandsShifted(front, first + back, attrs[0]);
      EncodedListStands(front + first, attrs[1..]);
      Regroup(front, first, back);
    }
  }

  /** No walk reports a value of 65536 bytes or more. */
  lemma {:induction false} WalkedValuesFit(b: seq<byte>, pos: nat)
    ensures forall a | a in Walk(b, pos) :: Fits(a)
    decreases |b| - pos
  {
    if pos + 4 <= |b| {
      WalkedValuesFit(b, NextAt(b, pos));
    }
  }

  // --- Message integrity ---

  /** Padded to a block of 64 bytes, after RFC 2104. */
  function BlockKey(sha1: seq<byte> -> Digest, key: seq<byte>): (k: seq<byte>)
    ensures |k| == 64
  {
    var short := if |key| > 64 then sha1(key) else key;
    short + Zeros(64 - |short|)
  }

  function XorWith(k: seq<byte>, pad: byte): seq<byte> {
    seq(|k|, i requires 0 <= i < |k| => XorByte(pad, k[i]))
  }

  function Hmac(sha1: seq<byte> -> Digest, key: seq<byte>, message: seq<byte>): Digest {
    var k := BlockKey(sha1, key);
    sha1(XorWith(k, 0x5c) + sha1(XorWith(k, 0x36) + message))
  }

  lemma PadExact(xored: seq<byte>, k: seq<byte>, pad: byte)
    requires |xored| == |k| && forall j | 0 <= j < |k| :: xored[j] == XorByte(pad, k[j])
    ensures xored == XorWith(k, pad)
  {
  }

  /** `hmac_sha1`, with its pads XORed in place. */
  method HmacSha1(sha1: seq<byte> -> Digest, key: seq<byte>, message: seq<byte>) returns (out: Digest)
    ensures out == Hmac(sha1, key, message)
  {
    var paddedKey := BlockKey(sha1, key);
    var ipad, opad := new byte[64](_ => 0x36), new byte[64](_ => 0x5c);
    for i := 0 to 64
      invariant forall j | 0 <= j < 64 :: ipad[j] == if j < i then XorByte(0x36, paddedKey[j]) else 0x36
      invariant forall j | 0 <= j < 64 :: opad[j] == if j < i then XorByte(0x5c, paddedKey[j]) else 0x5c
    {
      ipad[i] := XorByte(ipad[i], paddedKey[i]);
      opad[i] := XorByte(opad[i], paddedKey[i]);
    }
    PadExact(ipad[..], paddedKey, 0x36);
    PadExact(opad[..], paddedKey, 0x5c);
    var innerHash := sha1(ipad[..] + message);
    out := sha1(opad[..] + innerHash);
  }

  // --- The Allocate request ---

  datatype Client = Client(username: seq<byte>, credential: seq<byte>)

  datatype Hashes = Hashes(md5: seq<byte> -> seq<byte>, sha1: seq<byte> -> Digest)

  datatype Challenge = Challenge(realm: seq<byte>, nonce: seq<byte>)

  const COLON: byte := 0x3A

  function Header(kind: nat, length: nat, tx: TransactionId): seq<byte> {
    BE16(kind) + BE16(length) + BE32(MAGIC_COOKIE) + tx
  }

  const TRANSPORT: Attr := Attr(REQUESTED_TRANSPORT, [0x11, 0, 0, 0])

  /** The attributes that the message integrity covers. */
  function Covered(client: Client, auth: Challenge): seq<Attr> {
    [TRANSPORT, Attr(USERNAME, client.username), Attr(REALM, auth.realm), Attr(NONCE, auth.nonce)]
  }

  function IntegrityKey(client: Client, realm: seq<byte>, hashes: Hashes): seq<byte> {
    hashes.md5(client.username + [COLON] + realm + [COLON] + client.credential)
  }

  function Integrity(client: Client, realm: seq<byte>, hashes: Hashes, signed: seq<byte>): Attr {
    Attr(MESSAGE_INTEGRITY, Hmac(hashes.sha1, IntegrityKey(client, realm, hashes), signed))
  }

  /** The request up to its message integrity; its header already counts the 24 bytes that follow. */
  function SignedPart(client: Client, tx: TransactionId, auth: Challenge): seq<byte> {
    var attrs := EncodeAttrs(Covered(client, auth));
    Header(ALLOCATE_REQUEST, |attrs| + 24, tx) + attrs
  }

  /** The authenticated request: the message integrity is the keyed hash of all that precedes it,
      as RFC 5389 section 15.4 has it. */
  function AuthRequest(client: Client, tx: TransactionId, auth: Challenge, hashes: Hashes): seq<byte> {
    var signed := SignedPart(client, tx, auth);
    signed + EncodeAttr(Integrity(client, auth.realm, hashes, signed))
  }

  lemma CoveredBytes(client: Client, auth: Challenge)
    ensures EncodeAttrs(Covered(client, auth))
         == EncodeAttr(TRANSPORT) + EncodeAttr(Attr(USERNAME, client.username)) + EncodeAttr(Attr(REALM, auth.realm))
            + EncodeAttr(Attr(NONCE, auth.nonce))
  {
    var attrs := Covered(client, auth);
    assert attrs[1..][1..] == attrs[2..] && attrs[2..][1..] == attrs[3..] && attrs[3..][1..] == attrs[4..];
    assert EncodeAttrs(attrs[4..]) == [];
    assert EncodeAttrs(attrs[3..]) == EncodeAttr(attrs[3]) + [];
    assert EncodeAttrs(attrs[2..]) == EncodeAttr(attrs[2]) + EncodeAttr(attrs[3]);
    assert EncodeAttrs(attrs[1..]) == EncodeAttr(attrs[1]) + (EncodeAttr(attrs[2]) + EncodeAttr(attrs[3]));
  }

  /** Seen as header and attribute area. */
  lemma AuthRequestLayout(client: Client, tx: TransactionId, auth: Challenge, hashes: Hashes)
    ensures var signed := SignedPart(client, tx, auth);
            var integrity := EncodeAttr(Integrity(client, auth.realm, hashes, signed));
            var area := EncodeAttrs(Covered(client, auth)) + integrity;
            var msg := AuthRequest(client, tx, auth, hashes);
            && |integrity| == 24
            && msg == Header(ALLOCATE_REQUEST, |area|, tx) + area
            && |msg| == 20 + |area| && msg[20..] == area
            && FromBE16(msg[2], msg[3]) == |area| % 65536
  {
    var integrity := EncodeAttr(Integrity(client, auth.realm, hashes, SignedPart(client, tx, auth)));
    var area := EncodeAttrs(Covered(client, auth)) + integrity;
    HeaderLength(|area|, tx, area);
  }

  /** `attrs.extend(type, length, bytes)` and the padding by `resize`. */
  method PushAttr(attrs: seq<byte>, kind: nat, bytes: seq<byte>) returns (attrs': seq<byte>)
    ensures attrs' == attrs + EncodeAttr(Attr(kind, bytes))
  {
    var paddedLen := (|bytes| + 3) / 4 * 4;
    RoundUp4IsMasking(|bytes|);
    attrs' := attrs + BE16(kind);
    attrs' := attrs' + BE16(|bytes|);
    attrs' := attrs' + bytes;
    attrs' := attrs' + Zeros(paddedLen - |bytes|);
  }

  /** The request is built as bytes; without a challenge it asks for a UDP relay and nothing more, with
      one a server accepts it exactly if its attributes take less than 65536 bytes. */
  method BuildAllocateRequest(client: Client, tx: TransactionId, auth: Option<Challenge>, hashes: Hashes)
    returns (msg: seq<byte>)
    ensures match auth
            case None =>
              msg == [0x00, 0x03, 0x00, 0x08, 0x21, 0x12, 0xA4, 0x42] + tx + [0x00, 0x19, 0x00, 0x04, 17, 0, 0, 0]
            case Some(challenge) =>
              && msg == AuthRequest(client, tx, challenge, hashes)
              && (ServerAccepts(msg, tx, client, challenge, hashes) <==> |msg| < 20 + 65536)
  {
    PlainRequest(tx);
    if auth.Some? { ServerAcceptsRequest(client, tx, auth.value, hashes); }
    var attrs := PushAttr([], REQUESTED_TRANSPORT, [0x11, 0, 0, 0]);
    assert attrs == EncodeAttr(TRANSPORT);
    if auth.Some? {
      var realm, nonce := auth.value.realm, auth.value.nonce;
      attrs := PushAttr(attrs, USERNAME, client.username);
      attrs := PushAttr(attrs, REALM, realm);
      attrs := PushAttr(attrs, NONCE, nonce);
      CoveredBytes(client, auth.value);
      var hmac := SignRequest(client, tx, auth.value, hashes, attrs);
      attrs := PushAttr(attrs, MESSAGE_INTEGRITY, hmac);
      AuthRequestLayout(client, tx, auth.value, hashes);
    }
    msg := Header(ALLOCATE_REQUEST, |attrs|, tx) + attrs;
  }

  /** The keyed hash over a temporary message that already counts the integrity attribute. */
  method SignRequest(client: Client, tx: TransactionId, auth: Challenge, hashes: Hashes, attrs: seq<byte>)
    returns (hmac: Digest)
    requires attrs == EncodeAttrs(Covered(client, auth))
    ensures Attr(MESSAGE_INTEGRITY, hmac) == Integrity(client, auth.realm, hashes, SignedPart(client, tx, auth))
  {
    var key := hashes.md5(client.username + [COLON] + auth.realm + [COLON] + client.credential);
    var tempMsg := Header(ALLOCATE_REQUEST, |attrs| + 4 + 20, tx) + attrs;
    hmac := HmacSha1(hashes.sha1, key, tempMsg);
  }

  /** The message integrity is keyed over all that precedes it, and the attribute area lists it last. */
  lemma RequestAttributes(client: Client, tx: TransactionId, auth: Challenge, hashes: Hashes)
    ensures var msg := AuthRequest(client, tx, auth, hashes);
            && |msg| >= 44
            && msg[20..] == EncodeAttrs(Covered(client, auth)
                                       + [Integrity(client, auth.realm, hashes, msg[..|msg| - 24])])
  {
    var signed := SignedPart(client, tx, auth);
    var integrity := Integrity(client, auth.realm, hashes, signed);
    EncodeSnoc(Covered(client, auth), integrity);
    AuthRequestLayout(client, tx, auth, hashes);
    DropTail(signed, EncodeAttr(integrity));
  }

  lemma DropTail(front: seq<byte>, tail: seq<byte>)
    ensures (front + tail)[..|front + tail| - |tail|] == front
  {
  }

  /** The attribute area is made of whole words, and the header's length is its length exactly while
      it stays below 65536 bytes. */
  lemma RequestLength(client: Client, tx: TransactionId, auth: Challenge, hashes: Hashes)
    ensures var msg := AuthRequest(client, tx, auth, hashes);
            && |msg| >= 44
            && (|msg| - 20) % 4 == 0
            && (FromBE16(msg[2], msg[3]) == |msg| - 20 <==> |msg| - 20 < 65536)
  {
    var n := AreaLength(client, tx, auth, hashes);
    LengthField(AuthRequest(client, tx, auth, hashes), n);
  }

  lemma AreaLength(client: Client, tx: TransactionId, auth: Challenge, hashes: Hashes) returns (n: nat)
    ensures n >= 24 && n % 4 == 0
    ensures var msg := AuthRequest(client, tx, auth, hashes); |msg| == 20 + n && FromBE16(msg[2], msg[3]) == n % 65536
  {
    AuthRequestLayout(client, tx, auth, hashes);
    WholeWords(Covered(client, auth));
    var covered := |EncodeAttrs(Covered(client, auth))|;
    WordsAdd(covered, 24);
    n := covered + 24;
  }

  lemma LengthField(msg: seq<byte>, n: nat)
    requires |msg| == 20 + n && FromBE16(msg[2], msg[3]) == n % 65536
    ensures FromBE16(msg[2], msg[3]) == |msg| - 20 <==> |msg| - 20 < 65536
  {
    UntruncatedWhenSmall(n);
  }

  lemma UntruncatedWhenSmall(n: nat)
    ensures n % 65536 == n <==> n < 65536
  {
  }

  lemma HeaderLength(length: nat, tx: TransactionId, area: seq<byte>)
    ensures var msg := Header(ALLOCATE_REQUEST, length, tx) + area;
            |msg| == 20 + |area| && msg[20..] == area && FromBE16(msg[2], msg[3]) == length % 65536
  {
    BE16ReadsBack(length);
    var msg := Header(ALLOCATE_REQUEST, length, tx) + area;
    assert msg[2..4] == BE16(length);
    assert msg[2] == msg[2..4][0] && msg[3] == msg[2..4][1];
  }

  lemma {:induction false} EncodeSnoc(attrs: seq<Attr>, a: Attr)
    ensures EncodeAttrs(attrs + [a]) == EncodeAttrs(attrs) + EncodeAttr(a)
  {
    if attrs == [] {
      assert EncodeAttrs([a][1..]) == [];
      assert EncodeAttr(a) + [] == EncodeAttr(a);
    } else {
      EncodeSnoc(attrs[1..], a);
      assert (attrs + [a])[1..] == attrs[1..] + [a];
      Regroup(EncodeAttr(attrs[0]), EncodeAttrs(attrs[1..]), EncodeAttr(a));
    }
  }

  lemma Regroup(a: seq<byte>, b: seq<byte>, c: seq<byte>)
    ensures a + (b + c) == a + b + c
  {
  }

  lemma {:induction false} WholeWords(attrs: seq<Attr>)
    ensures |EncodeAttrs(attrs)| % 4 == 0
  {
    if attrs != [] {
      RoundUp4IsMasking(|attrs[0].value|);
      WholeWords(attrs[1..]);
      WordsAdd(4 + RoundUp4(|attrs[0].value|), |EncodeAttrs(attrs[1..])|);
    }
  }

  lemma WordsAdd(a: nat, b: nat)
    requires a % 4 == 0 && b % 4 == 0
    ensures (a + b) % 4 == 0
  {
  }

  lemma PlainRequest(tx: TransactionId)
    ensures Header(ALLOCATE_REQUEST, 8, tx) + EncodeAttr(TRANSPORT)
         == [0x00, 0x03, 0x00, 0x08, 0x21, 0x12, 0xA4, 0x42] + tx + [0x00, 0x19, 0x00, 0x04, 17, 0, 0, 0]
  {
    CookieBytes();
    EncodedAs(TRANSPORT, [0x00, 0x19, 0x00, 0x04], []);
  }

  // --- What a server checks ---

  /** The one value that the attributes hold under a type. */
  ghost predicate Holds(attrs: seq<Attr>, kind: nat, value: seq<byte>) {
    Attr(kind, value) in attrs && forall a | a in attrs && a.kind == kind :: a.value == value
  }

  /** The keyed hash of RFC 2104 with blocks of 64 bytes. */
  ghost function Rfc2104(sha1: seq<byte> -> Digest, key: seq<byte>, text: seq<byte>): Digest {
    var short := if |key| > 64 then sha1(key) else key;
    var block := short + seq(64 - |short|, _ => 0);
    var inner := seq(64, i requires 0 <= i < 64 => XorByte(0x36, block[i]));
    var outer := seq(64, i requires 0 <= i < 64 => XorByte(0x5c, block[i]));
    sha1(outer + sha1(inner + text))
  }

  lemma HmacIsRfc2104(sha1: seq<byte> -> Digest, key: seq<byte>, text: seq<byte>)
    ensures Hmac(sha1, key, text) == Rfc2104(sha1, key, text)
  {
    var short := if |key| > 64 then sha1(key) else key;
    var block := short + seq(64 - |short|, _ => 0);
    assert BlockKey(sha1, key) == block;
    assert XorWith(block, 0x36) == seq(64, i requires 0 <= i < 64 => XorByte(0x36, block[i]));
    assert XorWith(block, 0x5c) == seq(64, i requires 0 <= i < 64 => XorByte(0x5c, block[i]));
  }

  /** The check of a server that issued the challenge and knows the client's password, on the bytes it
      receives: header, UDP transport, user name, realm and nonce, and last the integrity, keyed with
      MD5(user ":" realm ":" password) over everything before it (RFC 5389 sections 6 and 15.4). */
  ghost predicate ServerAccepts(
      msg: seq<byte>, tx: TransactionId, client: Client, auth: Challenge, hashes: Hashes)
  {
    && |msg| >= 44
    && msg[0] == 0x00 && msg[1] == 0x03
    && FromBE16(msg[2], msg[3]) == |msg| - 20
    && msg[4..8] == [0x21, 0x12, 0xA4, 0x42] && msg[8..20] == tx
    && var attrs, key := Walk(msg, 20), hashes.md5(client.username + [0x3A] + auth.realm + [0x3A] + client.credential);
       && Holds(attrs, 0x0019, [17, 0, 0, 0])
       && Holds(attrs, 0x0006, client.username)
       && Holds(attrs, 0x0014, auth.realm)
       && Holds(attrs, 0x0015, auth.nonce)
       && attrs[|attrs| - 1] == Attr(0x0008, Rfc2104(hashes.sha1, key, msg[..|msg| - 24]))
  }

  lemma RequestHeader(client: Client, tx: TransactionId, auth: Challenge, hashes: Hashes)
    ensures var msg := AuthRequest(client, tx, auth, hashes);
            && |msg| >= 44 && msg[0] == 0x00 && msg[1] == 0x03
            && msg[4..8] == [0x21, 0x12, 0xA4, 0x42] && msg[8..20] == tx
  {
    AuthRequestLayout(client, tx, auth, hashes);
    CookieBytes();
    var msg := AuthRequest(client, tx, auth, hashes);
    var length := BE16(|msg| - 20);
    assert msg[..20] == [0x00, 0x03] + length + [0x21, 0x12, 0xA4, 0x42] + tx;
    assert msg[4..8] == msg[..20][4..8] && msg[8..20] == msg[..20][8..20];
  }

  /** The attributes of a request, all of them short. */
  lemma CoveredHolds(client: Client, auth: Challenge, tag: seq<byte>)
    ensures var attrs := Covered(client, auth) + [Attr(MESSAGE_INTEGRITY, tag)];
            && Holds(attrs, 0x0019, [17, 0, 0, 0]) && Holds(attrs, 0x0006, client.username)
            && Holds(attrs, 0x0014, auth.realm) && Holds(attrs, 0x0015, auth.nonce)
            && attrs[|attrs| - 1] == Attr(0x0008, tag)
  {
    var attrs := Covered(client, auth) + [Attr(MESSAGE_INTEGRITY, tag)];
    assert attrs[0] == TRANSPORT && attrs[1] == Attr(0x0006, client.username);
    assert attrs[2] == Attr(0x0014, auth.realm) && attrs[3] == Attr(0x0015, auth.nonce);
  }

  lemma ShortRequestIsWalked(client: Client, tx: TransactionId, auth: Challenge, hashes: Hashes)
    requires |AuthRequest(client, tx, auth, hashes)| < 20 + 65536
    ensures var msg := AuthRequest(client, tx, auth, hashes);
            && |msg| >= 44
            && Walk(msg, 20) == Covered(client, auth) + [Integrity(client, auth.realm, hashes, msg[..|msg| - 24])]
  {
    RequestAttributes(client, tx, auth, hashes);
    var head, tail := RequestBegins(client, tx, auth, hashes);
    var msg := AuthRequest(client, tx, auth, hashes);
    RequestIsWalked(client, tx, auth, hashes,
                    Covered(client, auth) + [Integrity(client, auth.realm, hashes, msg[..|msg| - 24])]);
  }

  /** A server accepts the authenticated request exactly if its attributes take less than 65536 bytes. */
  lemma ServerAcceptsRequest(client: Client, tx: TransactionId, auth: Challenge, hashes: Hashes)
    ensures var msg := AuthRequest(client, tx, auth, hashes);
            ServerAccepts(msg, tx, client, auth, hashes) <==> |msg| < 20 + 65536
  {
    var msg := AuthRequest(client, tx, auth, hashes);
    RequestLength(client, tx, auth, hashes);
    RequestHeader(client, tx, auth, hashes);
    if |msg| < 20 + 65536 {
      ShortRequestIsWalked(client, tx, auth, hashes);
      var key := hashes.md5(client.username + [0x3A] + auth.realm + [0x3A] + client.credential);
      HmacIsRfc2104(hashes.sha1, key, msg[..|msg| - 24]);
      CoveredHolds(client, auth, Rfc2104(hashes.sha1, key, msg[..|msg| - 24]));
    }
  }

  // --- The challenge walker ---

  /** The value of the last attribute of a kind. */
  function LastOf(attrs: seq<Attr>, kind: nat): Option<seq<byte>> {
    if attrs == [] then None
    else if attrs[|attrs| - 1].kind == kind then Some(attrs[|attrs| - 1].value)
    else LastOf(attrs[..|attrs| - 1], kind)
  }

  /** The same, keeping a value found before. */
  function Latest(found: Option<seq<byte>>, attrs: seq<Attr>, kind: nat): Option<seq<byte>>
    decreases |attrs|
  {
    if attrs == [] then found
    else Latest(if attrs[0].kind == kind then Some(attrs[0].value) else found, attrs[1..], kind)
  }

  lemma {:induction false} LatestIsLast(found: Option<seq<byte>>, attrs: seq<Attr>, kind: nat)
    ensures Latest(found, attrs, kind) == if LastOf(attrs, kind).Some? then LastOf(attrs, kind) else found
    decreases |attrs|
  {
    if attrs != [] {
      LatestIsLast(if attrs[0].kind == kind then Some(attrs[0].value) else found, attrs[1..], kind);
      LastOfCons(attrs, kind);
    }
  }

  lemma {:induction false} LastOfCons(attrs: seq<Attr>, kind: nat)
    requires attrs != []
    ensures LastOf(attrs, kind) == if LastOf(attrs[1..], kind).Some? then LastOf(attrs[1..], kind)
                                   else if attrs[0].kind == kind then Some(attrs[0].value) else None
  {
    if |attrs| > 1 {
      LastOfCons(attrs[..|attrs| - 1], kind);
      assert attrs[..|attrs| - 1][1..] == attrs[1..][..|attrs| - 2];
    } else {
      assert attrs[..0] == [] && attrs[1..] == [];
    }
  }

  function ChallengeOf(attrs: seq<Attr>): Result<Challenge, string> {
    match (LastOf(attrs, REALM), LastOf(attrs, NONCE))
    case (None, _) => Err("no realm in 401 response")
    case (Some(_), None) => Err("no nonce in 401 response")
    case (Some(realm), Some(nonce)) => Ok(Challenge(realm, nonce))
  }

  /** The challenge walk on the bytes, for one kind of attribute. */
  function ScanLatest(b: seq<byte>, pos: nat, found: Option<seq<byte>>, kind: nat): Option<seq<byte>>
    decreases |b| - pos
  {
    if !CompleteAt(b, pos) then found
    else
      var a := AttrAt(b, pos);
      ScanLatest(b, NextAt(b, pos), if a.kind == kind then Some(a.value) else found, kind)
  }

  lemma LatestCons(found: Option<seq<byte>>, a: Attr, rest: seq<Attr>, kind: nat)
    ensures Latest(found, [a] + rest, kind) == Latest(if a.kind == kind then Some(a.value) else found, rest, kind)
  {
    assert ([a] + rest)[1..] == rest;
  }

  lemma {:induction false} ScanFindsLatest(b: seq<byte>, pos: nat, found: Option<seq<byte>>, kind: nat)
    ensures ScanLatest(b, pos, found, kind) == Latest(found, Walk(b, pos), kind)
    decreases |b| - pos
  {
    if CompleteAt(b, pos) {
      var a, next := AttrAt(b, pos), NextAt(b, pos);
      ScanFindsLatest(b, next, if a.kind == kind then Some(a.value) else found, kind);
      LatestCons(found, a, Walk(b, next), kind);
    }
  }

  /** The value of the attribute of the kind that no other one comes after. */
  lemma {:induction false} LastOfExact(attrs: seq<Attr>, kind: nat)
    ensures match LastOf(attrs, kind)
            case Some(value) =>
              exists i | 0 <= i < |attrs| && attrs[i] == Attr(kind, value) ::
                forall j | i < j < |attrs| :: attrs[j].kind != kind
            case None => forall i | 0 <= i < |attrs| :: attrs[i].kind != kind
  {
    if attrs != [] {
      var last := |attrs| - 1;
      LastOfExact(attrs[..last], kind);
      if attrs[last].kind == kind { assert attrs[last] == Attr(kind, attrs[last].value); }
    }
  }

  /** The challenge is the last realm (type 0x0014) and the last nonce (type 0x0015). */
  lemma ChallengeTypes(attrs: seq<Attr>)
    ensures match ChallengeOf(attrs)
            case Ok(challenge) =>
              LastOf(attrs, 0x0014) == Some(challenge.realm) && LastOf(attrs, 0x0015) == Some(challenge.nonce)
            case Err(e) =>
              e == if LastOf(attrs, 0x0014).None? then "no realm in 401 response" else "no nonce in 401 response"
  {
  }

  /** The lossy conversion of bytes to text, given as the bytes of that text. */
  type ToText = seq<byte> -> seq<byte>

  function TextOf(found: Option<seq<byte>>, toText: ToText): Option<seq<byte>> {
    match found case Some(value) => Some(toText(value)) case None => None
  }

  function AsText(r: Result<Challenge, string>, toText: ToText): Result<Challenge, string> {
    match r
    case Ok(challenge) => Ok(Challenge(toText(challenge.realm), toText(challenge.nonce)))
    case Err(e) => Err(e)
  }

  method ScanChallenge(response: seq<byte>, toText: ToText)
    returns (realm: Option<seq<byte>>, nonce: Option<seq<byte>>)
    ensures realm == TextOf(ScanLatest(response, 20, None, REALM), toText)
    ensures nonce == TextOf(ScanLatest(response, 20, None, NONCE), toText)
  {
    realm, nonce := None, None;
    ghost var realmBytes, nonceBytes := None, None;
    var pos := 20;
    while pos + 4 <= |response|
      invariant realm == TextOf(realmBytes, toText) && nonce == TextOf(nonceBytes, toText)
      invariant ScanLatest(response, pos, realmBytes, REALM) == ScanLatest(response, 20, None, REALM)
      invariant ScanLatest(response, pos, nonceBytes, NONCE) == ScanLatest(response, 20, None, NONCE)
      decreases |response| - pos
    {
      var attrType := FromBE16(response[pos], response[pos + 1]);
      var attrLen := FromBE16(response[pos + 2], response[pos + 3]);
      assert CompleteAt(response, pos) <==> pos + 4 + attrLen <= |response|;
      ghost var start := pos;
      pos := pos + 4;
      if pos + attrLen > |response| {
        break;
      }
      var value := response[pos..pos + attrLen];
      assert AttrAt(response, start) == Attr(attrType, value) && NextAt(response, start) == pos + RoundUp4(attrLen);
      if attrType == REALM {
        realm, realmBytes := Some(toText(value)), Some(value);
      } else if attrType == NONCE {
        nonce, nonceBytes := Some(toText(value)), Some(value);
      }
      pos := pos + RoundUp4(attrLen);
    }
  }

  /** The last realm and the last nonce of the response's attributes, as text, or the error for the
      missing one. */
  method ExtractAuthChallenge(response: seq<byte>, toText: ToText) returns (r: Result<Challenge, string>)
    ensures r == AsText(ChallengeOf(Walk(response, 20)), toText)
  {
    var realm, nonce := ScanChallenge(response, toText);
    ScanFindsLatest(response, 20, None, REALM);
    ScanFindsLatest(response, 20, None, NONCE);
    LatestIsLast(None, Walk(response, 20), REALM);
    LatestIsLast(None, Walk(response, 20), NONCE);
    if realm.None? { return Err("no realm in 401 response"); }
    if nonce.None? { return Err("no nonce in 401 response"); }
    r := Ok(Challenge(realm.value, nonce.value));
  }

  lemma {:induction false} LastOfIsListed(attrs: seq<Attr>, kind: nat)
    ensures LastOf(attrs, kind).Some? ==> Attr(kind, LastOf(attrs, kind).value) in attrs
  {
    if attrs != [] { LastOfIsListed(attrs[..|attrs| - 1], kind); }
  }

  lemma RequestIsWalked(client: Client, tx: TransactionId, auth: Challenge, hashes: Hashes, attrs: seq<Attr>)
    requires forall a | a in attrs :: Fits(a)
    requires AuthRequest(client, tx, auth, hashes)[20..] == EncodeAttrs(attrs)
    ensures Walk(AuthRequest(client, tx, auth, hashes), 20) == attrs
  {
    var msg := AuthRequest(client, tx, auth, hashes);
    AuthRequestLayout(client, tx, auth, hashes);
    assert msg == msg[..20] + EncodeAttrs(attrs);
    EncodedListStands(msg[..20], attrs);
    ListIsWalked(msg, 20, attrs);
  }

  lemma ShortValuesReadBack(client: Client, tx: TransactionId, auth: Challenge, hashes: Hashes)
    requires |client.username| < 65536 && |auth.realm| < 65536 && |auth.nonce| < 65536
    ensures ChallengeOf(Walk(AuthRequest(client, tx, auth, hashes), 20)) == Ok(auth)
  {
    var msg := AuthRequest(client, tx, auth, hashes);
    RequestAttributes(client, tx, auth, hashes);
    var integrity := Integrity(client, auth.realm, hashes, msg[..|msg| - 24]);
    RequestIsWalked(client, tx, auth, hashes, Covered(client, auth) + [integrity]);
    CoveredChallenge(client, auth, integrity);
  }

  lemma CoveredChallenge(client: Client, auth: Challenge, integrity: Attr)
    requires integrity.kind == MESSAGE_INTEGRITY
    ensures ChallengeOf(Covered(client, auth) + [integrity]) == Ok(auth)
  {
    var covered := Covered(client, auth);
    var attrs := covered + [integrity];
    assert attrs[..4] == covered;
    assert covered[..3] == [TRANSPORT, Attr(USERNAME, client.username), Attr(REALM, auth.realm)];
    assert LastOf(attrs, REALM) == LastOf(covered, REALM) == LastOf(covered[..3], REALM);
    assert LastOf(attrs, NONCE) == LastOf(covered, NONCE);
  }

  /** A realm or nonce of 65536 bytes or more is never recovered; shorter ones are, in a request
      whose user name is also shorter than 65536 bytes. */
  lemma ChallengeReadsBack(client: Client, tx: TransactionId, auth: Challenge, hashes: Hashes)
    ensures var found := ChallengeOf(Walk(AuthRequest(client, tx, auth, hashes), 20));
            && (found == Ok(auth) ==> |auth.realm| < 65536 && |auth.nonce| < 65536)
            && (|client.username| < 65536 ==> (found == Ok(auth) <==> |auth.realm| < 65536 && |auth.nonce| < 65536))
  {
    if |client.username| < 65536 && |auth.realm| < 65536 && |auth.nonce| < 65536 {
      ShortValuesReadBack(client, tx, auth, hashes);
    } else {
      var msg := AuthRequest(client, tx, auth, hashes);
      WalkedValuesFit(msg, 20);
      LastOfIsListed(Walk(msg, 20), REALM);
      LastOfIsListed(Walk(msg, 20), NONCE);
    }
  }

  const LETTER_Z: byte := 0x7A

  /** The length of an attribute whose length field is two letters z, and the step over it. */
  const ZZ_LENGTH: nat := 31354
  const ZZ_STEP: nat := 31360

  ghost predicate Letters(b: seq<byte>, lo: nat, hi: nat)
    requires hi <= |b|
  {
    forall i | lo <= i < hi :: b[i] == LETTER_Z
  }

  lemma LettersAt(b: seq<byte>, pos: nat, hi: nat)
    requires pos + 4 <= hi <= |b| && Letters(b, pos, hi)
    ensures LenAt(b, pos) == ZZ_LENGTH && NextAt(b, pos) == pos + ZZ_STEP
    ensures CompleteAt(b, pos) ==> AttrAt(b, pos).kind == ZZ_LENGTH
  {
    RoundUp4IsMasking(ZZ_LENGTH);
  }

  /** A walk among 65536 letters from 32 on meets two attributes and then one that is cut short. */
  lemma LettersAreWalked(b: seq<byte>)
    requires 65568 <= |b| < 32 + 2 * ZZ_STEP + 4 + ZZ_LENGTH && Letters(b, 32, 65568)
    ensures forall a | a in Walk(b, 32) :: a.kind == ZZ_LENGTH
  {
    LettersAt(b, 32, 65568);
    LettersAt(b, 32 + ZZ_STEP, 65568);
    LettersAt(b, 32 + 2 * ZZ_STEP, 65568);
    assert Walk(b, 32 + 2 * ZZ_STEP) == [];
    assert Walk(b, 32 + ZZ_STEP) == [AttrAt(b, 32 + ZZ_STEP)] + [];
    assert Walk(b, 32) == [AttrAt(b, 32)] + Walk(b, 32 + ZZ_STEP);
  }

  lemma LettersStand(front: seq<byte>, name: seq<byte>, tail: seq<byte>)
    requires name == seq(|name|, _ => LETTER_Z)
    ensures Letters(front + name + tail, |front|, |front| + |name|)
  {
    assert forall i | |front| <= i < |front| + |name| :: (front + name + tail)[i] == name[i - |front|];
  }

  /** A request is its header, the transport, the user name, and what follows. */
  lemma RequestBegins(client: Client, tx: TransactionId, auth: Challenge, hashes: Hashes)
    returns (head: seq<byte>, tail: seq<byte>)
    ensures |head| == 20 && |tail| == 32 + RoundUp4(|auth.realm|) + RoundUp4(|auth.nonce|)
    ensures AuthRequest(client, tx, auth, hashes)
         == head + (EncodeAttr(TRANSPORT) + (EncodeAttr(Attr(USERNAME, client.username)) + tail))
  {
    var b := AuthRequest(client, tx, auth, hashes);
    AuthRequestLayout(client, tx, auth, hashes);
    CoveredBytes(client, auth);
    var integrity := EncodeAttr(Integrity(client, auth.realm, hashes, SignedPart(client, tx, auth)));
    var realm, nonce := EncodeAttr(Attr(REALM, auth.realm)), EncodeAttr(Attr(NONCE, auth.nonce));
    head, tail := b[..20], realm + nonce + integrity;
    assert b == head + b[20..];
    FiveParts(EncodeAttr(TRANSPORT), EncodeAttr(Attr(USERNAME, client.username)), realm, nonce, integrity);
  }

  lemma FiveParts(a: seq<byte>, b: seq<byte>, c: seq<byte>, d: seq<byte>, e: seq<byte>)
    ensures a + b + c + d + e == a + (b + (c + d + e))
  {
  }

  /** The length of 65536 is written as 0. */
  lemma LongNameBytes(name: seq<byte>)
    requires |name| == 65536
    ensures EncodeAttr(Attr(USERNAME, name)) == EncodeAttr(Attr(USERNAME, [])) + name
  {
    EncodedAs(Attr(USERNAME, name), [0, 6, 0, 0], []);
    EncodedAs(Attr(USERNAME, []), [0, 6, 0, 0], []);
  }

  lemma LongNameStands(head: seq<byte>, name: seq<byte>, tail: seq<byte>)
    requires |head| == 20 && name == seq(65536, _ => LETTER_Z)
    ensures var b := head + (EncodeAttr(TRANSPORT) + (EncodeAttr(Attr(USERNAME, name)) + tail));
            && |b| == 65568 + |tail|
            && StandsAt(b, 20, TRANSPORT) && StandsAt(b, 28, Attr(USERNAME, []))
            && Letters(b, 32, 65568)
  {
    var transport, empty := EncodeAttr(TRANSPORT), EncodeAttr(Attr(USERNAME, []));
    LongNameBytes(name);
    Regroup(empty, name, tail);
    StandsFirst(TRANSPORT, empty + (name + tail));
    StandsShifted(head, transport + (empty + (name + tail)), TRANSPORT);
    StandsFirst(Attr(USERNAME, []), name + tail);
    StandsShifted(head + transport, empty + (name + tail), Attr(USERNAME, []));
    Regroup(head, transport, empty + (name + tail));
    LettersStand(head + transport + empty, name, tail);
    PartsInOrder(head, transport, empty, name, tail);
  }

  lemma PartsInOrder(a: seq<byte>, b: seq<byte>, c: seq<byte>, d: seq<byte>, e: seq<byte>)
    ensures a + (b + (c + (d + e))) == a + b + c + d + e
  {
  }

  lemma EncodedAs(a: Attr, header: seq<byte>, padding: seq<byte>)
    requires header == BE16(a.kind) + BE16(|a.value|)
    requires (|a.value| + |padding|) % 4 == 0 && |padding| < 4 && padding == Zeros(|padding|)
    ensures EncodeAttr(a) == header + a.value + padding
  {
    RoundUp4IsMasking(|a.value|);
  }

  lemma WalkStep(b: seq<byte>, pos: nat, a: Attr)
    requires StandsAt(b, pos, a)
    ensures Walk(b, pos) == [a] + Walk(b, pos + 4 + RoundUp4(|a.value|))
  {
  }

  lemma LettersHideRealm(b: seq<byte>)
    requires 65568 <= |b| < 32 + 2 * ZZ_STEP + 4 + ZZ_LENGTH && Letters(b, 32, 65568)
    requires StandsAt(b, 20, TRANSPORT) && StandsAt(b, 28, Attr(USERNAME, []))
    ensures LastOf(Walk(b, 20), REALM) == None
  {
    WalkStep(b, 20, TRANSPORT);
    WalkStep(b, 28, Attr(USERNAME, []));
    var more := Walk(b, 32);
    LettersAreWalked(b);
    NoneListed([TRANSPORT] + ([Attr(USERNAME, [])] + more), REALM);
  }

  /** A user name of 65536 letters z hides realm and nonce: the length of the name is written as 0,
      the walk goes on inside the name, and ends there. */
  lemma LongNameHidesChallenge(client: Client, tx: TransactionId, auth: Challenge, hashes: Hashes)
    requires client.username == seq(65536, _ => LETTER_Z) && |auth.realm| + |auth.nonce| <= 28000
    ensures ChallengeOf(Walk(AuthRequest(client, tx, auth, hashes), 20)) == Err("no realm in 401 response")
  {
    var b := AuthRequest(client, tx, auth, hashes);
    var head, tail := RequestBegins(client, tx, auth, hashes);
    LongNameStands(head, client.username, tail);
    LettersHideRealm(b);
  }

  lemma {:induction false} NoneListed(attrs: seq<Attr>, kind: nat)
    requires forall a | a in attrs :: a.kind != kind
    ensures LastOf(attrs, kind) == None
  {
    if attrs != [] { NoneListed(attrs[..|attrs| - 1], kind); }
  }

  // --- The address walkers ---

  predicate IsIpv4(a: Attr, kind: nat) { a.kind == kind && |a.value| >= 8 && a.value[1] == 0x01 }

  /** The address in an attribute value at `pos`, un-XORed with the magic cookie. */
  function AddressAt(b: seq<byte>, pos: nat): SocketAddr
    requires pos + 8 <= |b|
  {
    SocketAddr([XorByte(b[pos + 4], 0x21), XorByte(b[pos + 5], 0x12),
                XorByte(b[pos + 6], 0xA4), XorByte(b[pos + 7], 0x42)],
               Xor16(FromBE16(b[pos + 2], b[pos + 3]), 0x2112))
  }

  function Address(value: seq<byte>): SocketAddr
    requires |value| >= 8
  {
    AddressAt(value, 0)
  }

  /** The address in the first attribute of the kind that holds an IPv4 address. */
  function FirstAddress(attrs: seq<Attr>, kind: nat): Option<SocketAddr> {
    if attrs == [] then None
    else if IsIpv4(attrs[0], kind) then Some(Address(attrs[0].value))
    else FirstAddress(attrs[1..], kind)
  }

  /** The address walk on the bytes; it also steps over an attribute that is cut short. */
  function Scan(b: seq<byte>, pos: nat, kind: nat): Option<SocketAddr>
    decreases |b| - pos
  {
    if pos + 4 > |b| then None
    else if
      && FromBE16(b[pos], b[pos + 1]) == kind
      && LenAt(b, pos) >= 8 && pos + 4 + LenAt(b, pos) <= |b| && b[pos + 5] == 0x01
    then Some(AddressAt(b, pos + 4))
    else Scan(b, NextAt(b, pos), kind)
  }

  lemma SameAddress(b: seq<byte>, pos: nat, len: nat)
    requires len >= 8 && pos + len <= |b|
    ensures b[pos..pos + len][1] == b[pos + 1] && Address(b[pos..pos + len]) == AddressAt(b, pos)
  {
  }

  lemma ScanCons(b: seq<byte>, pos: nat, kind: nat)
    requires CompleteAt(b, pos)
    ensures var a := AttrAt(b, pos);
            Scan(b, pos, kind) == if IsIpv4(a, kind) then Some(Address(a.value)) else Scan(b, NextAt(b, pos), kind)
  {
    if LenAt(b, pos) >= 8 { SameAddress(b, pos + 4, LenAt(b, pos)); }
  }

  lemma ScanEnds(b: seq<byte>, pos: nat, kind: nat)
    requires !CompleteAt(b, pos)
    ensures Scan(b, pos, kind) == None
  {
    if pos + 4 <= |b| { assert NextAt(b, pos) > |b|; }
  }

  lemma FirstAddressCons(a: Attr, rest: seq<Attr>, kind: nat)
    ensures FirstAddress([a] + rest, kind)
         == if IsIpv4(a, kind) then Some(Address(a.value)) else FirstAddress(rest, kind)
  {
    assert ([a] + rest)[1..] == rest;
  }

  /** On any bytes, well-formed or not, it finds what the attribute list holds. */
  lemma {:induction false} ScanFindsFirst(b: seq<byte>, pos: nat, kind: nat)
    ensures Scan(b, pos, kind) == FirstAddress(Walk(b, pos), kind)
    decreases |b| - pos
  {
    if CompleteAt(b, pos) {
      var next := NextAt(b, pos);
      ScanFindsFirst(b, next, kind);
      ScanCons(b, pos, kind);
      FirstAddressCons(AttrAt(b, pos), Walk(b, next), kind);
    } else {
      ScanEnds(b, pos, kind);
    }
  }

  /** The IPv4 address of a complete attribute value; other families are passed over. */
  method DecodeIpv4(response: seq<byte>, pos: nat) returns (address: Option<SocketAddr>)
    requires pos + 8 <= |response|
    ensures address == if response[pos + 1] == 0x01 then Some(AddressAt(response, pos)) else None
  {
    var family := response[pos + 1];
    var port := Xor16(FromBE16(response[pos + 2], response[pos + 3]), 0x2112);
    if family != 0x01 {
      return None;
    }
    var ip := [XorByte(response[pos + 4], 0x21), XorByte(response[pos + 5], 0x12),
               XorByte(response[pos + 6], 0xA4), XorByte(response[pos + 7], 0x42)];
    address := Some(SocketAddr(ip, port));
  }

  method ParseXorMappedAddress(response: seq<byte>) returns (r: Result<SocketAddr, string>)
    ensures Scan(response, 20, 0x0020) == match r case Ok(address) => Some(address) case Err(_) => None
  {
    if |response| < 20 {
      return Err("STUN response too short");
    }
    var pos := 20;
    while pos + 4 <= |response|
      invariant Scan(response, 20, XOR_MAPPED_ADDRESS) == Scan(response, pos, XOR_MAPPED_ADDRESS)
      decreases |response| - pos
    {
      var attrType := FromBE16(response[pos], response[pos + 1]);
      var attrLen := FromBE16(response[pos + 2], response[pos + 3]);
      pos := pos + 4;
      if attrType == XOR_MAPPED_ADDRESS {
        if attrLen >= 8 && pos + attrLen <= |response| {
          var decoded := DecodeIpv4(response, pos);
          if decoded.Some? {
            return Ok(decoded.value);
          }
        }
      }
      pos := pos + RoundUp4(attrLen);
    }
    r := Err("XOR-MAPPED-ADDRESS not found in STUN response");
  }

  method ParseAllocateResponse(response: seq<byte>) returns (r: Result<SocketAddr, string>)
    ensures Scan(response, 20, 0x0016) == match r case Ok(address) => Some(address) case Err(_) => None
  {
    var pos := 20;
    while pos + 4 <= |response|
      invariant Scan(response, 20, XOR_RELAYED_ADDRESS) == Scan(response, pos, XOR_RELAYED_ADDRESS)
      decreases |response| - pos
    {
      var attrType := FromBE16(response[pos], response[pos + 1]);
      var attrLen := FromBE16(response[pos + 2], response[pos + 3]);
      pos := pos + 4;
      if attrType == XOR_RELAYED_ADDRESS && attrLen >= 8 && pos + attrLen <= |response| {
        var decoded := DecodeIpv4(response, pos);
        if decoded.Some? {
          return Ok(decoded.value);
        }
      }
      pos := pos + RoundUp4(attrLen);
    }
    r := Err("XOR-RELAYED-ADDRESS not found in Allocate response");
  }

  /** The value of an XOR-ed IPv4 address, as a server writes it: the port is XORed with the upper half
      of the magic cookie, the address with the whole cookie. */
  function XorAddress(a: SocketAddr): (value: seq<byte>)
    ensures |value| == 8
  {
    var port, cookie := BE16(Xor16(a.port, MAGIC_COOKIE / 65536)), BE32(MAGIC_COOKIE);
    [0, 0x01, port[0], port[1],
     XorByte(a.ip[0], cookie[0]), XorByte(a.ip[1], cookie[1]), XorByte(a.ip[2], cookie[2]), XorByte(a.ip[3], cookie[3])]
  }

  lemma CookieBytes()
    ensures BE32(MAGIC_COOKIE) == [0x21, 0x12, 0xA4, 0x42] && MAGIC_COOKIE / 65536 == 0x2112
  {
  }

  lemma AddressReadsBack(a: SocketAddr)
    requires a.port < 65536
    ensures Address(XorAddress(a)) == a
  {
    CookieBytes();
    PortReadsBack(a.port);
    IpReadsBack(a.ip);
  }

  lemma PortReadsBack(port: nat)
    requires port < 65536
    ensures var bytes := BE16(Xor16(port, 0x2112)); Xor16(FromBE16(bytes[0], bytes[1]), 0x2112) == port
  {
    var masked := Xor16(port, 0x2112);
    Xor16Undoes(port, 0x2112);
    assert FromBE16(BE16(masked)[0], BE16(masked)[1]) == masked by { BE16Exact(masked); }
  }

  lemma IpReadsBack(ip: Ipv4)
    ensures [XorByte(XorByte(ip[0], 0x21), 0x21), XorByte(XorByte(ip[1], 0x12), 0x12),
             XorByte(XorByte(ip[2], 0xA4), 0xA4), XorByte(XorByte(ip[3], 0x42), 0x42)] == ip
  {
    XorByteUndoes(ip[0], 0x21);
    XorByteUndoes(ip[1], 0x12);
    XorByteUndoes(ip[2], 0xA4);
    XorByteUndoes(ip[3], 0x42);
  }

  /** In every response made of a 20-byte header and padded attributes, the walkers find the address
      of the first attribute of their kind that holds one, and nothing where there is none. */
  lemma ResponseReadsBack(header: seq<byte>, attrs: seq<Attr>, kind: nat)
    requires |header| == 20 && forall a | a in attrs :: Fits(a)
    ensures Scan(header + EncodeAttrs(attrs), 20, kind) == FirstAddress(attrs, kind)
  {
    var msg := header + EncodeAttrs(attrs);
    EncodedListStands(header, attrs);
    ListIsWalked(msg, 20, attrs);
    ScanFindsFirst(msg, 20, kind);
  }

  /** An address that a server writes into its response is the one the client reads. */
  lemma SentAddressReadsBack(header: seq<byte>, before: seq<Attr>, kind: nat, a: SocketAddr, after: seq<Attr>)
    requires |header| == 20 && kind < 65536 && a.port < 65536
    requires forall attr | attr in before + after :: Fits(attr)
    requires forall attr | attr in before :: !IsIpv4(attr, kind)
    ensures Scan(header + EncodeAttrs(before + [Attr(kind, XorAddress(a))] + after), 20, kind) == Some(a)
  {
    var found := Attr(kind, XorAddress(a));
    ResponseReadsBack(header, before + [found] + after, kind);
    AddressReadsBack(a);
    SkipsOthers(before, kind, found, after);
  }

  lemma {:induction false} SkipsOthers(before: seq<Attr>, kind: nat, found: Attr, after: seq<Attr>)
    requires IsIpv4(found, kind) && forall attr | attr in before :: !IsIpv4(attr, kind)
    ensures FirstAddress(before + [found] + after, kind) == Some(Address(found.value))
  {
    if before != [] {
      SkipsOthers(before[1..], kind, found, after);
      assert (before + [found] + after)[1..] == before[1..] + [found] + after;
    }
  }
}
