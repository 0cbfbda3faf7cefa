// The forwarding target of a validated configuration (engine/run_once.go:324-342,
// config/config.go:143-154).

module ForwardTarget {
  import opened Text
  import opened Splitting
  import opened Ipv4

  datatype Addr = V4(ip: nat) | V6(n: nat) | Invalid

  datatype AddrPort = AddrPort(addr: Addr, port: nat)

  // netip.ParseAddr decides by the first of these characters.
  function FirstMark(s: string): Option<char> {
    if s == "" then None
    else if s[0] in {'.', ':', '%'} then Some(s[0])
    else FirstMark(s[1..])
  }

  // One byte in decimal, without leading zeros.
  predicate IsDecimalByte(s: string) {
    s != "" && AllDigits(s) && (s[0] == '0' ==> |s| == 1) && Value(s) <= 255
  }

  function ParseV4(s: string): Option<Addr> {
    var parts := Split(s, '.');
    if |parts| == 4 && forall i :: 0 <= i < 4 ==> IsDecimalByte(parts[i])
    then Some(V4(Value(parts[0]) * 0x100_0000 + Value(parts[1]) * 0x1_0000 + Value(parts[2]) * 256 + Value(parts[3])))
    else None
  }

  function ParseAddr(parse6: string -> Option<nat>, s: string): Option<Addr> {
    match FirstMark(s)
    case Some('.') => ParseV4(s)
    case Some(':') => if parse6(s).Some? then Some(V6(parse6(s).value)) else None
    case _ => None
  }

  function AddrText(print6: nat -> string, a: Addr): string {
    match a
    case V4(ip) => Dotted(ip)
    case V6(n) => print6(n)
    case Invalid => "invalid IP"
  }

  // What is taken for granted of the printing and parsing of IPv6 addresses.
  ghost predicate Inverse6(print6: nat -> string, parse6: string -> Option<nat>) {
    forall n: nat :: FirstMark(print6(n)) == Some(':') && parse6(print6(n)) == Some(n)
  }

  // The addresses that stand for the inner one.
  predicate IsWildcard(text: string) {
    text == "" || text == "0.0.0.0" || text == "127.0.0.1"
  }

  // The address the target is parsed from.
  function TargetText(print6: nat -> string, configIp: string, inner: Addr): string {
    if IsWildcard(configIp) then AddrText(print6, inner) else configIp
  }

  function ResolveTarget(print6: nat -> string, parse6: string -> Option<nat>, forwarding: string,
                         configIp: string, configPort: nat, inner: AddrPort, outerPort: nat): AddrPort
  {
    if forwarding == "none" || forwarding == "test" then inner
    else
      var port := if configPort == 0 then outerPort else configPort;
      var addr := ParseAddr(parse6, TargetText(print6, configIp, inner.addr));
      if addr.None? then inner else AddrPort(addr.value, port % 0x1_0000)
  }

  lemma {:induction false} FirstMarkAfterDigits(d: string, rest: string)
    requires AllDigits(d)
    ensures FirstMark(d + rest) == FirstMark(rest)
  {
    if d == "" {
      assert d + rest == rest;
    } else {
      FirstMarkAfterDigits(d[1..], rest);
      assert (d + rest)[1..] == d[1..] + rest;
    }
  }

  lemma DecimalByte(n: nat)
    requires n <= 255
    ensures IsDecimalByte(Dec(n))
  {
    ValueOfDec(n);
  }

  lemma ParseV4Of(s: string, b: seq<nat>)
    requires |b| == 4 && b[0] <= 255 && b[1] <= 255 && b[2] <= 255 && b[3] <= 255
    requires Split(s, '.') == [Dec(b[0]), Dec(b[1]), Dec(b[2]), Dec(b[3])]
    ensures ParseV4(s) == Some(V4(b[0] * 0x100_0000 + b[1] * 0x1_0000 + b[2] * 256 + b[3]))
  {
    forall i | 0 <= i < 4 ensures IsDecimalByte(Dec(b[i])) && Value(Dec(b[i])) == b[i] {
      DecimalByte(b[i]);
      ValueOfDec(b[i]);
    }
  }

  lemma FirstMarkOfJoined(a: string, b: string, c: string, d: string)
    requires AllDigits(a)
    ensures FirstMark(a + "." + b + "." + c + "." + d) == Some('.')
  {
    var rest := "." + b + "." + c + "." + d;
    assert a + "." + b + "." + c + "." + d == a + rest;
    FirstMarkAfterDigits(a, rest);
  }

  // The printed form of an IPv4 address is parsed as that address.
  lemma ParsesDotted(parse6: string -> Option<nat>, ip: nat)
    requires ip <= MAX_UINT32
    ensures ParseAddr(parse6, Dotted(ip)) == Some(V4(ip))
  {
    var b := BytesOf(ip);
    PartsOfDotted(ip);
    Bytes(ip);
    ParseV4Of(Dotted(ip), b);
    FirstMarkOfJoined(Dec(b[0]), Dec(b[1]), Dec(b[2]), Dec(b[3]));
  }

  lemma DottedInjective(ip: nat, other: nat)
    requires ip <= MAX_UINT32 && other <= MAX_UINT32 && Dotted(ip) == Dotted(other)
    ensures ip == other
  {
    ParsesDotted(_ => None, ip);
    ParsesDotted(_ => None, other);
  }

  lemma DottedZero()
    ensures Dotted(0) == "0.0.0.0"
  {
    assert Dec(0) == "0";
  }

  lemma Dec127()
    ensures Dec(127) == "127"
  {
    assert Dec(12) == "12";
  }

  lemma DottedLoopback()
    ensures Dotted(0x7f00_0001) == "127.0.0.1"
  {
    Dec127();
    assert BytesOf(0x7f00_0001) == [127, 0, 0, 1];
    assert Dec(0) == "0" && Dec(1) == "1";
  }

  lemma Wildcards(ip: nat)
    requires ip <= MAX_UINT32
    ensures IsWildcard(Dotted(ip)) <==> ip == 0 || ip == 0x7f00_0001
  {
    DottedZero();
    DottedLoopback();
    if Dotted(ip) == Dotted(0) {
      DottedInjective(ip, 0);
    }
    if Dotted(ip) == Dotted(0x7f00_0001) {
      DottedInjective(ip, 0x7f00_0001);
    }
    ParsesDotted(_ => None, ip);
  }

  lemma InnerParses(print6: nat -> string, parse6: string -> Option<nat>, a: Addr)
    requires Inverse6(print6, parse6) && !a.Invalid? && (a.V4? ==> a.ip <= MAX_UINT32)
    ensures ParseAddr(parse6, AddrText(print6, a)) == Some(a)
  {
    if a.V4? {
      ParsesDotted(parse6, a.ip);
    }
  }

  lemma TargetParses(print6: nat -> string, parse6: string -> Option<nat>, text: string, addr: Addr, inner: Addr)
    requires ParseAddr(parse6, AddrText(print6, inner)) == Some(inner) && ParseAddr(parse6, text) == Some(addr)
    ensures ParseAddr(parse6, TargetText(print6, text, inner)) == Some(if IsWildcard(text) then inner else addr)
  {
  }

  lemma ResolvesText(print6: nat -> string, parse6: string -> Option<nat>, forwarding: string,
                     text: string, addr: Addr, configPort: nat, inner: AddrPort, outerPort: nat)
    requires ParseAddr(parse6, TargetText(print6, text, inner.addr)) == Some(addr)
    requires configPort < 0x1_0000 && outerPort < 0x1_0000
    ensures ResolveTarget(print6, parse6, forwarding, text, configPort, inner, outerPort)
            == if forwarding == "none" || forwarding == "test" then inner
               else AddrPort(addr, if configPort == 0 then outerPort else configPort)
  {
  }

  // For a target address that validation accepted, whatever way it was spelled, and a
  // valid inner address: the text always parses, and the target is the configured
  // address, or the inner one where the configured one is a wildcard.
  lemma TargetIsAsConfigured(print6: nat -> string, parse6: string -> Option<nat>, forwarding: string,
                             spelled: string, configPort: nat, inner: AddrPort, outerPort: nat)
    requires Inverse6(print6, parse6)
    requires IsSpelling(Split(spelled, '.'))
    requires !inner.addr.Invalid? && (inner.addr.V4? ==> inner.addr.ip <= MAX_UINT32)
    requires configPort < 0x1_0000 && outerPort < 0x1_0000
    ensures var ip := Address(Split(spelled, '.'));
            ResolveTarget(print6, parse6, forwarding, Normalized(spelled).value, configPort, inner, outerPort)
            == if forwarding == "none" || forwarding == "test" then inner
               else AddrPort(if ip == 0 || ip == 0x7f00_0001 then inner.addr else V4(ip),
                             if configPort == 0 then outerPort else configPort)
  {
    var ip := Address(Split(spelled, '.'));
    SumFits(Values(Split(spelled, '.')));
    Wildcards(ip);
    ParsesDotted(parse6, ip);
    InnerParses(print6, parse6, inner.addr);
    TargetParses(print6, parse6, Dotted(ip), V4(ip), inner.addr);
    ResolvesText(print6, parse6, forwarding, Dotted(ip), if IsWildcard(Dotted(ip)) then inner.addr else V4(ip),
                 configPort, inner, outerPort);
  }

  // Exactly the wildcards with no valid inner address fall back to that address.
  lemma FallbackNeedsAnInvalidAddress(print6: nat -> string, parse6: string -> Option<nat>, spelled: string, inner: AddrPort)
    requires Inverse6(print6, parse6)
    requires IsSpelling(Split(spelled, '.'))
    requires inner.addr.V4? ==> inner.addr.ip <= MAX_UINT32
    ensures var ip := Address(Split(spelled, '.'));
            ParseAddr(parse6, TargetText(print6, Dotted(ip), inner.addr)).None? <==> (ip == 0 || ip == 0x7f00_0001) && inner.addr.Invalid?
  {
    var ip := Address(Split(spelled, '.'));
    SumFits(Values(Split(spelled, '.')));
    Wildcards(ip);
    ParsesDotted(parse6, ip);
    if inner.addr.V4? {
      ParsesDotted(parse6, inner.addr.ip);
    } else if inner.addr.Invalid? {
      InvalidIsRefused(print6, parse6);
    }
  }

  lemma InvalidIsRefused(print6: nat -> string, parse6: string -> Option<nat>)
    ensures ParseAddr(parse6, AddrText(print6, Invalid)).None?
  {
    FirstMarkOfPlain("invalid IP");
  }

  lemma {:induction false} FirstMarkOfPlain(s: string)
    requires forall i :: 0 <= i < |s| ==> s[i] !in {'.', ':', '%'}
    ensures FirstMark(s) == None
  {
    if s != "" {
      FirstMarkOfPlain(s[1..]);
    }
  }
}
