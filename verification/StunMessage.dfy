// Parsing STUN binding success responses (stun/message.go; sections 6, 15, 15.1,
// 15.2 and 15.5 of RFC 5389).

module StunMessage {
  import opened Bits

  type byte = b: nat | b < 256
  type bytes = seq<byte>

  datatype AddrPort = V4(ip: bytes, port: nat) | V6(ip: bytes, port: nat)

  datatype Error =
    | ShortResponse | BadTopBits | NotSuccess | BadCookie | WrongTxid | TruncatedAttributes
    | TruncatedAttribute | TruncatedPadding | BadAddress | BadFingerprint | NoAddress

  datatype Result<+T> = Ok(value: T) | Err(error: Error)

  const BINDING_REQUEST := 0x0001
  const BINDING_SUCCESS := 0x0101
  const MAPPED_ADDRESS := 0x0001
  const XOR_MAPPED_ADDRESS := 0x0020
  const FINGERPRINT := 0x8028
  const FINGERPRINT_XOR := 0x5354554e
  const IPV4 := 1
  const IPV6 := 2
  const COOKIE: bytes := [0x21, 0x12, 0xa4, 0x42]
  const PORT_MASK := 0x2112

  // ---- Numbers as bytes, most significant first ----

  function Get16(b: bytes): (n: nat)
    requires |b| == 2
    ensures n < 0x10000
  {
    (b[0] as nat) * 256 + b[1] as nat
  }

  function Put16(n: nat): (b: bytes)
    requires n < 0x10000
    ensures |b| == 2 && Get16(b) == n
  {
    [n / 256, n % 256]
  }

  function Get32(b: bytes): nat
    requires |b| == 4
  {
    Get16(b[..2]) * 0x10000 + Get16(b[2..])
  }

  function XorByte(a: byte, b: byte): byte {
    assert Pow2(8) == 256;
    XorBelow(a, b, 8);
    Xor(a, b)
  }

  function XorPort(p: nat): (r: nat)
    requires p < 0x10000
    ensures r < 0x10000
  {
    assert Pow2(16) == 0x10000 by {
      assert Pow2(8) == 256;
    }
    XorBelow(p, PORT_MASK, 16);
    Xor(p, PORT_MASK)
  }

  // The port is masked by the first two bytes of the cookie, as the address is by all of
  // its four.
  lemma PortIsMasked(p: nat)
    requires p < 0x10000
    ensures Put16(XorPort(p)) == XorBytes(Put16(p), COOKIE[..2])
  {
    XorConcat(p / 256, p % 256, COOKIE[0], COOKIE[1]);
    SplitPort(XorPort(p), XorByte(p / 256, COOKIE[0]), XorByte(p % 256, COOKIE[1]));
  }

  lemma SplitPort(n: nat, high: byte, low: byte)
    requires n == high * 256 + low
    ensures n < 0x10000 && Put16(n) == [high, low]
  {
  }

  function XorBytes(b: bytes, mask: bytes): (r: bytes)
    requires |b| <= |mask|
    ensures |r| == |b|
  {
    seq(|b|, i requires 0 <= i < |b| => XorByte(b[i], mask[i]))
  }

  lemma XorBytesTwice(b: bytes, mask: bytes)
    requires |b| <= |mask|
    ensures XorBytes(XorBytes(b, mask), mask) == b
  {
    forall i | 0 <= i < |b| ensures XorBytes(XorBytes(b, mask), mask)[i] == b[i] {
      XorTwice(b[i], mask[i]);
    }
  }

  // ---- Attributes ----

  function Padded(len: nat): (p: nat)
    ensures len <= p < len + 4 && p % 4 == 0
  {
    (len + 3) / 4 * 4
  }

  predicate IsAddressType(typ: nat) {
    typ == MAPPED_ADDRESS || typ == XOR_MAPPED_ADDRESS
  }

  function ParseAddress(typ: nat, value: bytes, mask: bytes): Result<AddrPort>
    requires |mask| == 16
  {
    if |value| < 4 then Err(BadAddress)
    else
      var port := Get16(value[2..4]);
      var port' := if typ == XOR_MAPPED_ADDRESS then XorPort(port) else port;
      if value[1] == IPV4 then
        if |value| < 8 then Err(BadAddress)
        else Ok(V4(if typ == XOR_MAPPED_ADDRESS then XorBytes(value[4..8], mask) else value[4..8], port'))
      else if value[1] == IPV6 then
        if |value| < 20 then Err(BadAddress)
        else Ok(V6(if typ == XOR_MAPPED_ADDRESS then XorBytes(value[4..20], mask) else value[4..20], port'))
      else Err(BadAddress)
  }

  // crc stands for CRC-32; head is everything before the attribute.
  predicate FingerprintMatches(crc: bytes -> nat, head: bytes, value: bytes) {
    |value| == 4 && |head| >= 20 && Get32(value) == Xor(crc(head), FINGERPRINT_XOR)
  }

  // The rest of the attribute loop: done is the message up to here, payload what is
  // left of the attribute region, found the first address seen so far.
  function Walk(crc: bytes -> nat, done: bytes, payload: bytes, mask: bytes, found: Result<AddrPort>): Result<AddrPort>
    requires |mask| == 16
    decreases |payload|
  {
    if |payload| < 4 then found
    else
      var typ, len := Get16(payload[0..2]), Get16(payload[2..4]);
      if |payload| < 4 + len then Err(TruncatedAttribute)
      else
        var value := payload[4..4 + len];
        var isFirst := found.Err? && IsAddressType(typ);
        var parsed := if isFirst then ParseAddress(typ, value, mask) else found;
        if isFirst && parsed.Err? then parsed
        else if !isFirst && typ == FINGERPRINT && !FingerprintMatches(crc, done, value) then Err(BadFingerprint)
        else if |payload| < 4 + Padded(len) then Err(TruncatedPadding)
        else Walk(crc, done + payload[..4 + Padded(len)], payload[4 + Padded(len)..], mask, parsed)
  }

  function HeaderError(msg: bytes, txid: bytes): Result<()>
  {
    if |msg| < 20 then Err(ShortResponse)
    else if msg[0] >= 64 then Err(BadTopBits)
    else if Get16(msg[0..2]) != BINDING_SUCCESS then Err(NotSuccess)
    else if msg[4..8] != COOKIE then Err(BadCookie)
    else if msg[8..20] != txid then Err(WrongTxid)
    else if |msg| < 20 + Get16(msg[2..4]) then Err(TruncatedAttributes)
    else Ok(())
  }

  function Parse(crc: bytes -> nat, msg: bytes, txid: bytes): Result<AddrPort>
    requires |txid| == 12
  {
    var header := HeaderError(msg, txid);
    if header.Err? then Err(header.error)
    else Walk(crc, msg[..20], msg[20..20 + Get16(msg[2..4])], COOKIE + txid, Err(NoAddress))
  }

  // ---- The program's loops ----

  method XorInPlace(ip: array<byte>, mask: bytes)
    requires ip.Length <= |mask|
    modifies ip
    ensures ip[..] == XorBytes(old(ip[..]), mask)
  {
    var i := 0;
    while i < ip.Length
      invariant 0 <= i <= ip.Length
      invariant forall k :: 0 <= k < i ==> ip[k] == XorByte(old(ip[k]), mask[k])
      invariant forall k :: i <= k < ip.Length ==> ip[k] == old(ip[k])
    {
      ip[i] := XorByte(ip[i], mask[i]);
      i := i + 1;
    }
  }

  method ParseAddressAttribute(typ: nat, value: bytes, mask: bytes) returns (r: Result<AddrPort>)
    requires |mask| == 16
    ensures r == ParseAddress(typ, value, mask)
  {
    if |value| < 4 {
      return Err(BadAddress);
    }
    var port := Get16(value[2..4]);
    if value[1] != IPV4 && value[1] != IPV6 {
      return Err(BadAddress);
    }
    var size := if value[1] == IPV4 then 4 else 16;
    if |value| < 4 + size {
      return Err(BadAddress);
    }
    var ip := new byte[size](i requires 0 <= i < size => value[4 + i]);
    assert ip[..] == value[4..4 + size];
    if typ == XOR_MAPPED_ADDRESS {
      port := XorPort(port);
      XorInPlace(ip, mask);
    }
    return Ok(if size == 4 then V4(ip[..], port) else V6(ip[..], port));
  }

  method ParseMappedAddress(crc: bytes -> nat, msg: bytes, txid: bytes) returns (r: Result<AddrPort>)
    requires |txid| == 12
    ensures r == Parse(crc, msg, txid)
  {
    var header := HeaderError(msg, txid);
    if header.Err? {
      return Err(header.error);
    }
    r := ParseAttributes(crc, msg, 20 + Get16(msg[2..4]), COOKIE + txid);
  }

  // What one attribute makes of the address found so far; Err is the error it raises.
  function Meet(crc: bytes -> nat, done: bytes, typ: nat, value: bytes, mask: bytes, found: Result<AddrPort>): Result<Result<AddrPort>>
    requires |mask| == 16
  {
    if found.Err? && IsAddressType(typ) then
      var parsed := ParseAddress(typ, value, mask);
      if parsed.Err? then Err(parsed.error) else Ok(parsed)
    else if typ == FINGERPRINT && !FingerprintMatches(crc, done, value) then Err(BadFingerprint)
    else Ok(found)
  }

  lemma WalkStep(crc: bytes -> nat, done: bytes, payload: bytes, mask: bytes, found: Result<AddrPort>)
    requires |mask| == 16 && |payload| >= 4
    ensures var typ, len := Get16(payload[0..2]), Get16(payload[2..4]);
            Walk(crc, done, payload, mask, found)
            == if |payload| < 4 + len then Err(TruncatedAttribute)
               else
                 var next := Meet(crc, done, typ, payload[4..4 + len], mask, found);
                 if next.Err? then Err(next.error)
                 else if |payload| < 4 + Padded(len) then Err(TruncatedPadding)
                 else Walk(crc, done + payload[..4 + Padded(len)], payload[4 + Padded(len)..], mask, next.value)
  {
  }

  method MeetAttribute(crc: bytes -> nat, done: bytes, typ: nat, value: bytes, mask: bytes, found: bool, address: AddrPort)
    returns (error: Result<()>, found': bool, address': AddrPort)
    requires |mask| == 16
    ensures var next := Meet(crc, done, typ, value, mask, if found then Ok(address) else Err(NoAddress));
            if error.Err? then next == Err(error.error)
            else next == Ok(if found' then Ok(address') else Err(NoAddress))
  {
    error, found', address' := Ok(()), found, address;
    if !found && IsAddressType(typ) {
      var parsed := ParseAddressAttribute(typ, value, mask);
      if parsed.Err? {
        error := Err(parsed.error);
      } else {
        found', address' := true, parsed.value;
      }
    } else if typ == FINGERPRINT && !FingerprintMatches(crc, done, value) {
      error := Err(BadFingerprint);
    }
  }

  lemma Slices(msg: bytes, at: nat, end: nat, step: nat)
    requires at + step <= end <= |msg|
    ensures msg[..at] + msg[at..end][..step] == msg[..at + step]
    ensures msg[at..end][step..] == msg[at + step..end]
  {
  }

  // The address met so far, as the walk carries it.
  function Met(found: bool, address: AddrPort): Result<AddrPort> {
    if found then Ok(address) else Err(NoAddress)
  }

  // One turn of the loop: the attribute at the front of the payload, which stands behind done.
  method NextAttribute(crc: bytes -> nat, done: bytes, payload: bytes, mask: bytes, found: bool, address: AddrPort)
    returns (error: Result<()>, step: nat, found': bool, address': AddrPort)
    requires |payload| >= 4 && |mask| == 16
    ensures error.Err? ==> Walk(crc, done, payload, mask, Met(found, address)) == Err(error.error)
    ensures error.Ok? ==>
              && 4 <= step <= |payload|
              && Walk(crc, done, payload, mask, Met(found, address))
                 == Walk(crc, done + payload[..step], payload[step..], mask, Met(found', address'))
  {
    var typ, len := Get16(payload[0..2]), Get16(payload[2..4]);
    WalkStep(crc, done, payload, mask, Met(found, address));
    error, step, found', address' := Ok(()), 4 + Padded(len), found, address;
    if |payload| < 4 + len {
      error := Err(TruncatedAttribute);
      return;
    }
    error, found', address' := MeetAttribute(crc, done, typ, payload[4..4 + len], mask, found, address);
    if error.Ok? && |payload| < step {
      error := Err(TruncatedPadding);
    }
  }

  // The loop over the attributes of a message whose header is in order: end is where
  // they end, at is where the program's offset points to.
  method ParseAttributes(crc: bytes -> nat, msg: bytes, end: nat, mask: bytes) returns (r: Result<AddrPort>)
    requires 20 <= end <= |msg| && |mask| == 16
    ensures r == Walk(crc, msg[..20], msg[20..end], mask, Err(NoAddress))
  {
    var payload := msg[20..end];
    var at := 20;
    var found := false;
    var address: AddrPort := V4([], 0);
    while |payload| >= 4
      invariant 20 <= at <= end && payload == msg[at..end]
      invariant Walk(crc, msg[..20], msg[20..end], mask, Err(NoAddress)) == Walk(crc, msg[..at], payload, mask, Met(found, address))
      decreases end - at
    {
      var error, step;
      error, step, found, address := NextAttribute(crc, msg[..at], payload, mask, found, address);
      if error.Err? {
        return Err(error.error);
      }
      Slices(msg, at, end, step);
      at := at + step;
      payload := payload[step..];
    }
    return Met(found, address);
  }

  method BuildBindingRequest(txid: bytes) returns (msg: array<byte>)
    requires |txid| == 12
    ensures fresh(msg) && msg[..] == [0x00, 0x01, 0x00, 0x00, 0x21, 0x12, 0xa4, 0x42] + txid
  {
    msg := new byte[20](i => 0);
    msg[0], msg[1] := BINDING_REQUEST / 256, BINDING_REQUEST % 256;
    msg[2], msg[3] := 0, 0;
    msg[4], msg[5], msg[6], msg[7] := COOKIE[0], COOKIE[1], COOKIE[2], COOKIE[3];
    forall i | 0 <= i < 12 {
      msg[8 + i] := txid[i];
    }
  }
}
