// What a binding success response is, written as an encoder, and the proof that the
// parser of StunMessage accepts exactly those.

module StunCodec {
  import opened Bits
  import opened StunMessage

  datatype Attribute = Attribute(typ: nat, value: bytes, pad: bytes)

  predicate Proper(a: Attribute) {
    && a.typ < 0x10000 && |a.value| < 0x10000
    && |a.pad| == Padded(|a.value|) - |a.value|
  }

  predicate AllProper(attrs: seq<Attribute>) {
    forall i :: 0 <= i < |attrs| ==> Proper(attrs[i])
  }

  function Encode(a: Attribute): (b: bytes)
    requires Proper(a)
    ensures |b| == 4 + Padded(|a.value|)
  {
    Put16(a.typ) + Put16(|a.value|) + a.value + a.pad
  }

  function EncodeAll(attrs: seq<Attribute>): bytes
    requires AllProper(attrs)
  {
    if attrs == [] then [] else Encode(attrs[0]) + EncodeAll(attrs[1..])
  }

  function Header(size: nat, txid: bytes): bytes
    requires size < 0x10000
  {
    Put16(BINDING_SUCCESS) + Put16(size) + COOKIE + txid
  }

  // ---- What makes a list of attributes acceptable ----

  // Every FINGERPRINT matches the bytes before it; head is what precedes attrs.
  predicate FingerprintsMatch(crc: bytes -> nat, head: bytes, attrs: seq<Attribute>)
    requires AllProper(attrs)
    decreases |attrs|
  {
    attrs == []
    || (&& (attrs[0].typ == FINGERPRINT ==> FingerprintMatches(crc, head, attrs[0].value))
        && FingerprintsMatch(crc, head + Encode(attrs[0]), attrs[1..]))
  }

  // The first MAPPED-ADDRESS or XOR-MAPPED-ADDRESS decides; later ones are not looked at.
  function FirstAddress(attrs: seq<Attribute>, mask: bytes): Result<AddrPort>
    requires |mask| == 16
  {
    if attrs == [] then Err(NoAddress)
    else if IsAddressType(attrs[0].typ) then ParseAddress(attrs[0].typ, attrs[0].value, mask)
    else FirstAddress(attrs[1..], mask)
  }

  // msg is a header, attributes, up to three bytes that are no attribute, and whatever
  // followed the message in the buffer.
  ghost predicate Decomposes(crc: bytes -> nat, msg: bytes, txid: bytes, attrs: seq<Attribute>, tail: bytes, rest: bytes, addr: AddrPort)
    requires |txid| == 12
  {
    && AllProper(attrs) && |tail| < 4 && |EncodeAll(attrs) + tail| < 0x10000
    && msg == Header(|EncodeAll(attrs) + tail|, txid) + (EncodeAll(attrs) + tail) + rest
    && FingerprintsMatch(crc, Header(|EncodeAll(attrs) + tail|, txid), attrs)
    && FirstAddress(attrs, COOKIE + txid) == Ok(addr)
  }

  // ---- Decoding one attribute ----

  lemma DecodeOne(a: Attribute, more: bytes)
    requires Proper(a)
    ensures var p := Encode(a) + more;
            && |p| >= 4 + Padded(|a.value|)
            && Get16(p[0..2]) == a.typ && Get16(p[2..4]) == |a.value|
            && p[4..4 + |a.value|] == a.value
            && p[..4 + Padded(|a.value|)] == Encode(a) && p[4 + Padded(|a.value|)..] == more
  {
    var p := Encode(a) + more;
    assert p[0..2] == Put16(a.typ) && p[2..4] == Put16(|a.value|);
  }

  // The loop over encoded attributes: the address found is the one already found, or the first.
  lemma {:induction false} WalkAccepts(crc: bytes -> nat, done: bytes, attrs: seq<Attribute>, tail: bytes, mask: bytes, found: Result<AddrPort>)
    requires |mask| == 16 && AllProper(attrs) && |tail| < 4
    requires FingerprintsMatch(crc, done, attrs)
    requires found.Ok? || FirstAddress(attrs, mask).Ok?
    requires found.Err? ==> found == Err(NoAddress)
    ensures Walk(crc, done, EncodeAll(attrs) + tail, mask, found) == if found.Ok? then found else FirstAddress(attrs, mask)
    decreases |attrs|
  {
    if attrs == [] {
      assert EncodeAll(attrs) + tail == tail;
    } else {
      var a, more := attrs[0], EncodeAll(attrs[1..]) + tail;
      assert EncodeAll(attrs) + tail == Encode(a) + more;
      DecodeOne(a, more);
      var isFirst := found.Err? && IsAddressType(a.typ);
      WalkAccepts(crc, done + Encode(a), attrs[1..], tail, mask, if isFirst then ParseAddress(a.typ, a.value, mask) else found);
    }
  }

  lemma HeadAttribute(payload: bytes) returns (a: Attribute)
    requires |payload| >= 4 && |payload| >= 4 + Padded(Get16(payload[2..4]))
    ensures Proper(a) && a.typ == Get16(payload[0..2])
    ensures a.value == payload[4..4 + Get16(payload[2..4])]
    ensures Encode(a) == payload[..4 + Padded(Get16(payload[2..4]))]
  {
    var typ, len := Get16(payload[0..2]), Get16(payload[2..4]);
    a := Attribute(typ, payload[4..4 + len], payload[4 + len..4 + Padded(len)]);
    assert Put16(typ) == payload[0..2] && Put16(len) == payload[2..4];
  }

  lemma {:induction false} WalkDecomposes(crc: bytes -> nat, done: bytes, payload: bytes, mask: bytes, found: Result<AddrPort>)
    returns (attrs: seq<Attribute>, tail: bytes)
    requires |mask| == 16 && Walk(crc, done, payload, mask, found).Ok?
    requires found.Err? ==> found == Err(NoAddress)
    ensures AllProper(attrs) && |tail| < 4 && payload == EncodeAll(attrs) + tail
    ensures FingerprintsMatch(crc, done, attrs)
    ensures Walk(crc, done, payload, mask, found) == if found.Ok? then found else FirstAddress(attrs, mask)
    decreases |payload|
  {
    if |payload| < 4 {
      attrs, tail := [], payload;
      assert payload == EncodeAll(attrs) + tail;
    } else {
      var step := 4 + Padded(Get16(payload[2..4]));
      var a := HeadAttribute(payload);
      var isFirst := found.Err? && IsAddressType(a.typ);
      var parsed := if isFirst then ParseAddress(a.typ, a.value, mask) else found;
      var more;
      more, tail := WalkDecomposes(crc, done + payload[..step], payload[step..], mask, parsed);
      attrs := [a] + more;
      assert attrs[1..] == more;
      assert payload == payload[..step] + payload[step..];
    }
  }

  // ---- The whole message ----

  lemma HeaderFields(size: nat, txid: bytes, more: bytes)
    requires size < 0x10000 && |txid| == 12 && |more| >= size
    ensures var msg := Header(size, txid) + more;
            HeaderError(msg, txid).Ok? && Get16(msg[2..4]) == size && msg[..20] == Header(size, txid)
  {
    var msg := Header(size, txid) + more;
    assert msg[0..2] == Put16(BINDING_SUCCESS) && msg[2..4] == Put16(size) && msg[4..8] == COOKIE && msg[8..20] == txid;
  }

  lemma HeaderIsHeader(msg: bytes, txid: bytes)
    requires |txid| == 12 && HeaderError(msg, txid).Ok?
    ensures msg[..20] == Header(Get16(msg[2..4]), txid)
  {
    assert msg[..20] == msg[0..2] + msg[2..4] + msg[4..8] + msg[8..20];
    assert msg[0..2] == Put16(BINDING_SUCCESS) && msg[2..4] == Put16(Get16(msg[2..4]));
  }

  // Encoding, then parsing, gives the first address back.
  lemma EncodedIsAccepted(crc: bytes -> nat, msg: bytes, txid: bytes, attrs: seq<Attribute>, tail: bytes, rest: bytes, addr: AddrPort)
    requires |txid| == 12 && Decomposes(crc, msg, txid, attrs, tail, rest, addr)
    ensures Parse(crc, msg, txid) == Ok(addr)
  {
    var body := EncodeAll(attrs) + tail;
    HeaderFields(|body|, txid, body + rest);
    assert msg == Header(|body|, txid) + (body + rest);
    assert msg[20..20 + |body|] == body;
    WalkAccepts(crc, Header(|body|, txid), attrs, tail, COOKIE + txid, Err(NoAddress));
  }

  // Whatever is accepted has such a decomposition.
  lemma AcceptedDecomposes(crc: bytes -> nat, msg: bytes, txid: bytes) returns (attrs: seq<Attribute>, tail: bytes, rest: bytes)
    requires |txid| == 12 && Parse(crc, msg, txid).Ok?
    ensures Decomposes(crc, msg, txid, attrs, tail, rest, Parse(crc, msg, txid).value)
  {
    var size := Get16(msg[2..4]);
    HeaderIsHeader(msg, txid);
    attrs, tail := WalkDecomposes(crc, msg[..20], msg[20..20 + size], COOKIE + txid, Err(NoAddress));
    rest := msg[20 + size..];
    assert msg == msg[..20] + msg[20..20 + size] + rest;
  }

  lemma AcceptsExactly(crc: bytes -> nat, msg: bytes, txid: bytes, addr: AddrPort)
    requires |txid| == 12
    ensures Parse(crc, msg, txid) == Ok(addr)
            <==> exists attrs: seq<Attribute>, tail: bytes, rest: bytes :: Decomposes(crc, msg, txid, attrs, tail, rest, addr)
  {
    if Parse(crc, msg, txid) == Ok(addr) {
      var attrs, tail, rest := AcceptedDecomposes(crc, msg, txid);
    }
    forall attrs: seq<Attribute>, tail: bytes, rest: bytes | Decomposes(crc, msg, txid, attrs, tail, rest, addr)
      ensures Parse(crc, msg, txid) == Ok(addr)
    {
      EncodedIsAccepted(crc, msg, txid, attrs, tail, rest, addr);
    }
  }

  // ---- Address attributes ----

  predicate ValidAddr(a: AddrPort) {
    a.port < 0x10000 && |a.ip| == if a.V4? then 4 else 16
  }

  function EncodeAddress(typ: nat, a: AddrPort, mask: bytes): bytes
    requires ValidAddr(a) && |mask| == 16
  {
    var ip := if typ == XOR_MAPPED_ADDRESS then XorBytes(a.ip, mask) else a.ip;
    var port := if typ == XOR_MAPPED_ADDRESS then XorPort(a.port) else a.port;
    [0, if a.V4? then IPV4 else IPV6] + Put16(port) + ip
  }

  // Both address families, plain and XOR-ed; extra bytes after the address are ignored.
  lemma AddressRoundTrip(typ: nat, a: AddrPort, mask: bytes, extra: bytes)
    requires ValidAddr(a) && |mask| == 16
    ensures ParseAddress(typ, EncodeAddress(typ, a, mask) + extra, mask) == Ok(a)
  {
    var value := EncodeAddress(typ, a, mask) + extra;
    XorBytesTwice(a.ip, mask);
    XorTwice(a.port, PORT_MASK);
    assert value[2..4] == Put16(if typ == XOR_MAPPED_ADDRESS then XorPort(a.port) else a.port);
    var ip := if typ == XOR_MAPPED_ADDRESS then XorBytes(a.ip, mask) else a.ip;
    if a.V4? {
      assert value[4..8] == ip;
    } else {
      assert value[4..20] == ip;
    }
  }

  // ---- Attributes as they are written ----

  // The two types that carry an address, and its two families, not XORed.
  lemma AddressForms(typ: nat, ip: bytes, mask: bytes)
    requires |mask| == 16
    ensures IsAddressType(typ) <==> typ == 0x0001 || typ == 0x0020
    ensures |ip| == 4 ==> ParseAddress(0x0001, [0x00, 0x01, 0x80, 0x55] + ip, mask) == Ok(V4(ip, 32853))
    ensures |ip| == 16 ==> ParseAddress(0x0001, [0x00, 0x02, 0x80, 0x55] + ip, mask) == Ok(V6(ip, 32853))
  {
    var four, six := [0x00, 0x01, 0x80, 0x55] + ip, [0x00, 0x02, 0x80, 0x55] + ip;
    assert four[2..4] == [0x80, 0x55] == six[2..4];
    assert |ip| == 4 ==> four[4..8] == ip;
    assert |ip| == 16 ==> six[4..20] == ip;
  }

  // A message that has a fingerprint only: its sum is checked before it is found that
  // there is no address.
  lemma FingerprintForm(crc: bytes -> nat, txid: bytes, sum: bytes)
    requires |txid| == 12 && |sum| == 4
    ensures Parse(crc, Header(8, txid) + ([0x80, 0x28, 0x00, 0x04] + sum), txid)
         == if Get32(sum) == Xor(crc(Header(8, txid)), 0x5354554e) then Err(NoAddress) else Err(BadFingerprint)
  {
    var body := [0x80, 0x28, 0x00, 0x04] + sum;
    var msg := Header(8, txid) + body;
    HeaderFields(8, txid, body);
    assert msg[..20] == Header(8, txid) && msg[20..28] == body;
    WalkStep(crc, Header(8, txid), body, COOKIE + txid, Err(NoAddress));
    assert body[0..2] == [0x80, 0x28] && body[2..4] == [0x00, 0x04] && body[4..8] == sum && body[8..] == [];
  }

  // ---- The response of section 2.2 of RFC 5769 ----

  const SAMPLE_TXID: bytes := [0xb7, 0xe7, 0xa7, 0x01, 0xbc, 0x34, 0xd6, 0x86, 0xfa, 0x87, 0xdf, 0xae]
  const SAMPLE_HEADER: bytes := [0x01, 0x01, 0x00, 0x3c, 0x21, 0x12, 0xa4, 0x42]
  const SAMPLE_SOFTWARE: bytes :=
    [0x80, 0x22, 0x00, 0x0b, 0x74, 0x65, 0x73, 0x74, 0x20, 0x76, 0x65, 0x63, 0x74, 0x6f, 0x72, 0x20]
  const SAMPLE_ADDRESS: bytes := [0x00, 0x20, 0x00, 0x08, 0x00, 0x01, 0xa1, 0x47, 0xe1, 0x12, 0xa6, 0x43]
  const SAMPLE_INTEGRITY: bytes :=
    [0x00, 0x08, 0x00, 0x14, 0x2b, 0x91, 0xf5, 0x99, 0xfd, 0x9e, 0x90, 0xc3, 0x8c, 0x74, 0x89, 0xf9,
     0x2a, 0xf9, 0xba, 0x53, 0xf0, 0x6b, 0xe7, 0xd7]
  const SAMPLE_FINGERPRINT: bytes := [0x80, 0x28, 0x00, 0x04, 0xc0, 0x7d, 0x4c, 0x96]

  const SOFTWARE := Attribute(0x8022, SAMPLE_SOFTWARE[4..15], SAMPLE_SOFTWARE[15..])
  const ADDRESS := Attribute(0x0020, SAMPLE_ADDRESS[4..], [])
  const INTEGRITY := Attribute(0x0008, SAMPLE_INTEGRITY[4..], [])
  const PRINT := Attribute(0x8028, SAMPLE_FINGERPRINT[4..], [])

  const SAMPLE_BEFORE: bytes := SAMPLE_HEADER + SAMPLE_TXID + SAMPLE_SOFTWARE + SAMPLE_ADDRESS + SAMPLE_INTEGRITY

  lemma EncodeIs(a: Attribute, b: bytes)
    requires Proper(a) && |b| == 4 + |a.value| + |a.pad|
    requires b[0] as nat * 256 + b[1] as nat == a.typ && b[2] as nat * 256 + b[3] as nat == |a.value|
    requires b[4..4 + |a.value|] == a.value && b[4 + |a.value|..] == a.pad
    ensures Encode(a) == b
  {
    assert Put16(a.typ) == b[..2] && Put16(|a.value|) == b[2..4];
    assert b == b[..2] + b[2..4] + b[4..4 + |a.value|] + b[4 + |a.value|..];
  }

  lemma SampleEncodes()
    ensures Proper(SOFTWARE) && Encode(SOFTWARE) == SAMPLE_SOFTWARE && Proper(ADDRESS) && Encode(ADDRESS) == SAMPLE_ADDRESS
    ensures Proper(INTEGRITY) && Encode(INTEGRITY) == SAMPLE_INTEGRITY && Proper(PRINT) && Encode(PRINT) == SAMPLE_FINGERPRINT
  {
    EncodeIs(SOFTWARE, SAMPLE_SOFTWARE);
    EncodeIs(ADDRESS, SAMPLE_ADDRESS);
    EncodeIs(INTEGRITY, SAMPLE_INTEGRITY);
    EncodeIs(PRINT, SAMPLE_FINGERPRINT);
  }

  lemma SampleHeader()
    ensures Header(60, SAMPLE_TXID) == SAMPLE_HEADER + SAMPLE_TXID
  {
    assert Put16(0x0101) == [1, 1] && Put16(60) == [0, 60];
  }

  const I := true
  const O := false

  // Two bytes and their exclusive or, given by their bits.
  lemma XorSample(x: nat, y: nat, a: seq<bool>, b: seq<bool>, d: seq<bool>)
    requires |a| == |b| == |d| == 8 && d == Differ(a, b)
    requires x == EightBits(a) && y == EightBits(b)
    ensures Xor(x, y) == EightBits(d)
  {
    NumOfEight(a);
    NumOfEight(b);
    XorDiffers(a, b);
    NumOfEight(d);
  }

  lemma PortHigh(x: nat, y: nat)
    requires x == 0xa1 && y == 0x21
    ensures Xor(x, y) == 0x80
  {
    XorSample(x, y, [I, O, I, O, O, O, O, I], [O, O, I, O, O, O, O, I], [I, O, O, O, O, O, O, O]);
  }

  lemma PortLow(x: nat, y: nat)
    requires x == 0x47 && y == 0x12
    ensures Xor(x, y) == 0x55
  {
    XorSample(x, y, [O, I, O, O, O, I, I, I], [O, O, O, I, O, O, I, O], [O, I, O, I, O, I, O, I]);
  }

  lemma FirstByte(x: nat, y: nat)
    requires x == 0xe1 && y == 0x21
    ensures Xor(x, y) == 0xc0
  {
    XorSample(x, y, [I, I, I, O, O, O, O, I], [O, O, I, O, O, O, O, I], [I, I, O, O, O, O, O, O]);
  }

  lemma ThirdByte(x: nat, y: nat)
    requires x == 0xa6 && y == 0xa4
    ensures Xor(x, y) == 0x2
  {
    XorSample(x, y, [I, O, I, O, O, I, I, O], [I, O, I, O, O, I, O, O], [O, O, O, O, O, O, I, O]);
  }

  lemma FourthByte(x: nat, y: nat)
    requires x == 0x43 && y == 0x42
    ensures Xor(x, y) == 0x1
  {
    XorSample(x, y, [O, I, O, O, O, O, I, I], [O, I, O, O, O, O, I, O], [O, O, O, O, O, O, O, I]);
  }

  lemma SamplePort(p: nat)
    requires p == 0xa147
    ensures XorPort(p) == 32853
  {
    PortIsMasked(p);
    PortHigh(0xa1, COOKIE[0]);
    PortLow(0x47, COOKIE[1]);
    assert Put16(p) == [0xa1, 0x47];
    assert XorBytes(Put16(p), COOKIE[..2]) == [0x80, 0x55];
    assert Get16([0x80, 0x55]) == 32853;
  }

  lemma SampleMasked(b: bytes, mask: bytes)
    requires b == [0xe1, 0x12, 0xa6, 0x43] && |mask| == 16 && mask[..4] == COOKIE
    ensures XorBytes(b, mask) == [192, 0, 2, 1]
  {
    assert mask[0] == COOKIE[0] && mask[1] == COOKIE[1] && mask[2] == COOKIE[2] && mask[3] == COOKIE[3];
    FirstByte(b[0], mask[0]);
    XorSelf(b[1]);
    ThirdByte(b[2], mask[2]);
    FourthByte(b[3], mask[3]);
  }

  lemma SampleAddress()
    ensures ParseAddress(0x0020, ADDRESS.value, COOKIE + SAMPLE_TXID) == Ok(V4([192, 0, 2, 1], 32853))
  {
    var value, mask := ADDRESS.value, COOKIE + SAMPLE_TXID;
    assert value[1] == 1 && value[2..4] == [0xa1, 0x47] && value[4..8] == [0xe1, 0x12, 0xa6, 0x43];
    SamplePort(Get16(value[2..4]));
    SampleMasked(value[4..8], mask);
  }

  // The program's sum: CRC-32 of what stands before the fingerprint.
  ghost predicate SampleSum(crc: bytes -> nat) {
    crc(SAMPLE_BEFORE) == Xor(0xc07d4c96, 0x5354554e)
  }

  lemma SamplePrint(crc: bytes -> nat)
    requires SampleSum(crc)
    ensures FingerprintMatches(crc, SAMPLE_BEFORE, PRINT.value)
  {
    var value := PRINT.value;
    assert value[..2] == [0xc0, 0x7d] && value[2..] == [0x4c, 0x96];
    XorTwice(0xc07d4c96, 0x5354554e);
  }

  lemma FourEncode(a: Attribute, b: Attribute, c: Attribute, d: Attribute)
    requires Proper(a) && Proper(b) && Proper(c) && Proper(d)
    ensures EncodeAll([a, b, c, d]) == Encode(a) + Encode(b) + Encode(c) + Encode(d)
  {
    assert [a, b, c, d][1..] == [b, c, d] && [b, c, d][1..] == [c, d] && [c, d][1..] == [d] && [d][1..] == [];
    assert EncodeAll([d]) == Encode(d);
    assert EncodeAll([c, d]) == Encode(c) + Encode(d);
    assert EncodeAll([b, c, d]) == Encode(b) + (Encode(c) + Encode(d));
  }

  lemma FourMatch(crc: bytes -> nat, head: bytes, a: Attribute, b: Attribute, c: Attribute, d: Attribute)
    requires Proper(a) && Proper(b) && Proper(c) && Proper(d)
    requires a.typ != FINGERPRINT && b.typ != FINGERPRINT && c.typ != FINGERPRINT
    requires FingerprintMatches(crc, head + Encode(a) + Encode(b) + Encode(c), d.value)
    ensures FingerprintsMatch(crc, head, [a, b, c, d])
  {
    assert [a, b, c, d][1..] == [b, c, d] && [b, c, d][1..] == [c, d] && [c, d][1..] == [d] && [d][1..] == [];
    assert FingerprintsMatch(crc, head + Encode(a) + Encode(b) + Encode(c), [d]);
    assert FingerprintsMatch(crc, head + Encode(a) + Encode(b), [c, d]);
    assert FingerprintsMatch(crc, head + Encode(a), [b, c, d]);
  }

  lemma FourSizes(a: Attribute, b: Attribute, c: Attribute, d: Attribute)
    requires Proper(a) && Proper(b) && Proper(c) && Proper(d)
    ensures AllProper([a, b, c, d])
  {
  }

  lemma SecondIsFirst(a: Attribute, b: Attribute, c: Attribute, d: Attribute, mask: bytes)
    requires |mask| == 16 && !IsAddressType(a.typ) && IsAddressType(b.typ)
    ensures FirstAddress([a, b, c, d], mask) == ParseAddress(b.typ, b.value, mask)
  {
    assert [a, b, c, d][1..] == [b, c, d];
  }

  // These bytes are accepted with the address 192.0.2.1 and port 32853.
  lemma SampleIsAccepted(crc: bytes -> nat)
    requires SampleSum(crc)
    ensures Parse(crc, SAMPLE_BEFORE + SAMPLE_FINGERPRINT, SAMPLE_TXID) == Ok(V4([192, 0, 2, 1], 32853))
  {
    var attrs := [SOFTWARE, ADDRESS, INTEGRITY, PRINT];
    SampleEncodes();
    SampleHeader();
    FourSizes(SOFTWARE, ADDRESS, INTEGRITY, PRINT);
    FourEncode(SOFTWARE, ADDRESS, INTEGRITY, PRINT);
    SamplePrint(crc);
    FourMatch(crc, Header(60, SAMPLE_TXID), SOFTWARE, ADDRESS, INTEGRITY, PRINT);
    SecondIsFirst(SOFTWARE, ADDRESS, INTEGRITY, PRINT, COOKIE + SAMPLE_TXID);
    SampleAddress();
    SampleMessage(EncodeAll(attrs));
    EncodedIsAccepted(crc, SAMPLE_BEFORE + SAMPLE_FINGERPRINT, SAMPLE_TXID, attrs, [], [], V4([192, 0, 2, 1], 32853));
  }

  lemma SampleMessage(body: bytes)
    requires body == SAMPLE_SOFTWARE + SAMPLE_ADDRESS + SAMPLE_INTEGRITY + SAMPLE_FINGERPRINT
    ensures |body + []| == 60
    ensures SAMPLE_BEFORE + SAMPLE_FINGERPRINT == (SAMPLE_HEADER + SAMPLE_TXID) + (body + []) + []
  {
    Regrouped(SAMPLE_HEADER + SAMPLE_TXID, SAMPLE_SOFTWARE, SAMPLE_ADDRESS, SAMPLE_INTEGRITY, SAMPLE_FINGERPRINT);
    assert body + [] == body;
  }

  lemma Regrouped(h: bytes, a: bytes, b: bytes, c: bytes, d: bytes)
    ensures h + a + b + c + d == h + (a + b + c + d + []) + []
  {
  }
}

// The second parser (check/check.go:797-850): IPv4 only, no fingerprint check, and it
// stops at the first address attribute.
module StunTwin {
  import opened Bits
  import opened StunMessage

  function ParseAddressIPv4(typ: nat, value: bytes): Result<AddrPort> {
    if |value| < 8 || value[1] != IPV4 then Err(BadAddress)
    else if typ == XOR_MAPPED_ADDRESS then Ok(V4(XorBytes(value[4..8], COOKIE), XorPort(Get16(value[2..4]))))
    else Ok(V4(value[4..8], Get16(value[2..4])))
  }

  function TwinWalk(payload: bytes): Result<AddrPort>
    decreases |payload|
  {
    if |payload| < 4 then Err(NoAddress)
    else
      var typ, len := Get16(payload[0..2]), Get16(payload[2..4]);
      if |payload| < 4 + len then Err(TruncatedAttribute)
      else if IsAddressType(typ) then ParseAddressIPv4(typ, payload[4..4 + len])
      else if |payload| < 4 + Padded(len) then Err(TruncatedPadding)
      else TwinWalk(payload[4 + Padded(len)..])
  }

  // txid is all sixteen bytes after the length field.
  function TwinParse(data: bytes, txid: bytes): Result<AddrPort>
    requires |txid| == 16
  {
    if |data| < 20 then Err(ShortResponse)
    else if Get16(data[0..2]) != BINDING_SUCCESS then Err(NotSuccess)
    else if |data| < 20 + Get16(data[2..4]) then Err(TruncatedAttributes)
    else if data[4..20] != txid then Err(WrongTxid)
    else TwinWalk(data[20..20 + Get16(data[2..4])])
  }

  method ParseSTUNMappedAddress(data: bytes, txid: bytes) returns (r: Result<AddrPort>)
    requires |txid| == 16
    ensures r == TwinParse(data, txid)
  {
    if |data| < 20 {
      return Err(ShortResponse);
    }
    if Get16(data[0..2]) != BINDING_SUCCESS {
      return Err(NotSuccess);
    }
    var size := Get16(data[2..4]);
    if |data| < 20 + size {
      return Err(TruncatedAttributes);
    }
    if data[4..20] != txid {
      return Err(WrongTxid);
    }
    var payload := data[20..20 + size];
    while |payload| >= 4
      invariant TwinParse(data, txid) == TwinWalk(payload)
      decreases |payload|
    {
      var typ, len := Get16(payload[0..2]), Get16(payload[2..4]);
      if |payload| < 4 + len {
        return Err(TruncatedAttribute);
      }
      if IsAddressType(typ) {
        return ParseAddressIPv4(typ, payload[4..4 + len]);
      }
      if |payload| < 4 + Padded(len) {
        return Err(TruncatedPadding);
      }
      payload := payload[4 + Padded(len)..];
    }
    return Err(NoAddress);
  }

  lemma {:induction false} WalksAgree(crc: bytes -> nat, done: bytes, payload: bytes, mask: bytes)
    requires |mask| == 16 && mask[..4] == COOKIE
    requires Walk(crc, done, payload, mask, Err(NoAddress)).Ok?
    ensures TwinWalk(payload) == match Walk(crc, done, payload, mask, Err(NoAddress)) {
              case Ok(V4(ip, port)) => Ok(V4(ip, port))
              case _ => Err(BadAddress)
            }
    decreases |payload|
  {
    var typ, len := Get16(payload[0..2]), Get16(payload[2..4]);
    var value, step := payload[4..4 + len], 4 + Padded(len);
    if IsAddressType(typ) {
      var parsed := ParseAddress(typ, value, mask);
      FoundIsKept(crc, done + payload[..step], payload[step..], mask, parsed);
      if parsed.value.V4? && typ == XOR_MAPPED_ADDRESS {
        assert XorBytes(value[4..8], mask) == XorBytes(value[4..8], COOKIE);
      }
    } else {
      WalksAgree(crc, done + payload[..step], payload[step..], mask);
    }
  }

  lemma {:induction false} FoundIsKept(crc: bytes -> nat, done: bytes, payload: bytes, mask: bytes, found: Result<AddrPort>)
    requires |mask| == 16 && found.Ok? && Walk(crc, done, payload, mask, found).Ok?
    ensures Walk(crc, done, payload, mask, found) == found
    decreases |payload|
  {
    if |payload| >= 4 {
      var step := 4 + Padded(Get16(payload[2..4]));
      FoundIsKept(crc, done + payload[..step], payload[step..], mask, found);
    }
  }

  // Whatever the main parser accepts, the twin answers alike for IPv4 and refuses for
  // IPv6, given the magic cookie and the transaction id as its sixteen bytes.
  lemma ParsersAgree(crc: bytes -> nat, msg: bytes, txid: bytes)
    requires |txid| == 12 && Parse(crc, msg, txid).Ok?
    ensures TwinParse(msg, COOKIE + txid)
            == if Parse(crc, msg, txid).value.V4? then Parse(crc, msg, txid) else Err(BadAddress)
  {
    assert msg[4..20] == msg[4..8] + msg[8..20];
    WalksAgree(crc, msg[..20], msg[20..20 + Get16(msg[2..4])], COOKIE + txid);
  }
}
