// IPv4 addresses in the spellings of inet_aton, decimal parts only
// (config/config.go:143-154, 271-312), and the forwarding target they lead to
// (engine/run_once.go:324-342).

module Ipv4 {
  import opened Text
  import opened Splitting
  import opened Bits

  const MAX_UINT32: nat := 0xffff_ffff

  // ---- What the spellings mean ----

  function Pow256(k: nat): (p: nat)
    ensures p > 0
  {
    if k == 0 then 1 else 256 * Pow256(k - 1)
  }

  predicate IsUint32(part: string) {
    part != "" && AllDigits(part) && Value(part) <= MAX_UINT32
  }

  // Each part but the last is one byte; the last fills the bytes that remain.
  function Limit(n: nat, i: nat): nat
    requires i < n <= 4
  {
    if i < n - 1 then 256 else Pow256(5 - n)
  }

  function Weight(n: nat, i: nat): nat
    requires i < n <= 4
  {
    if i < n - 1 then Pow256(3 - i) else 1
  }

  predicate InRange(nums: seq<nat>) {
    1 <= |nums| <= 4 && forall i :: 0 <= i < |nums| ==> nums[i] < Limit(|nums|, i)
  }

  // The numbers from k on, each times its weight.
  function Sum(nums: seq<nat>, k: nat): nat
    requires k <= |nums| <= 4
    decreases |nums| - k
  {
    if k == |nums| then 0 else nums[k] * Weight(|nums|, k) + Sum(nums, k + 1)
  }

  predicate AllUint32(parts: seq<string>) {
    forall i :: 0 <= i < |parts| ==> IsUint32(parts[i])
  }

  function Values(parts: seq<string>): (nums: seq<nat>)
    requires AllUint32(parts)
    ensures |nums| == |parts| && forall i :: 0 <= i < |parts| ==> nums[i] == Value(parts[i])
  {
    seq(|parts|, i requires 0 <= i < |parts| && IsUint32(parts[i]) => Value(parts[i]))
  }

  predicate IsSpelling(parts: seq<string>) {
    AllUint32(parts) && InRange(Values(parts))
  }

  // The address spelled.
  function Address(parts: seq<string>): nat
    requires IsSpelling(parts)
  {
    Sum(Values(parts), 0)
  }

  function Dotted(ip: nat): string {
    Dec(ip / 0x100_0000 % 256) + "." + Dec(ip / 0x1_0000 % 256) + "." + Dec(ip / 256 % 256) + "." + Dec(ip % 256)
  }

  function Normalized(value: string): Option<string> {
    var parts := Split(value, '.');
    if IsSpelling(parts) then Some(Dotted(Address(parts))) else None
  }

  // ---- The program ----

  lemma Powers()
    ensures Pow256(0) == 1 && Pow256(1) == 256 && Pow256(2) == 0x1_0000 && Pow256(3) == 0x100_0000 && Pow256(4) == 0x1_0000_0000
    ensures Pow2(8) == 256 && Pow2(16) == 0x1_0000 && Pow2(24) == 0x100_0000
  {
    assert Pow2(8) == 256;
    assert Pow2(16) == 256 * Pow2(8);
    assert Pow2(24) == 256 * Pow2(16);
    assert Pow256(4) == 256 * Pow256(3);
  }

  // Shifts and ors of parts in range add up.
  lemma OrOfTwo(a: nat, b: nat)
    requires b < 0x100_0000
    ensures Or(a * 0x100_0000, b) == a * 0x100_0000 + b
  {
    Powers();
    OrAdds(a, b, 24);
  }

  lemma OrOfThree(a: nat, b: nat, c: nat)
    requires b < 256 && c < 0x1_0000
    ensures Or(Or(a * 0x100_0000, b * 0x1_0000), c) == a * 0x100_0000 + b * 0x1_0000 + c
  {
    Powers();
    OrAdds(a, b * 0x1_0000, 24);
    OrAdds(a * 256 + b, c, 16);
  }

  lemma OrOfFour(a: nat, b: nat, c: nat, d: nat)
    requires b < 256 && c < 256 && d < 256
    ensures Or(Or(Or(a * 0x100_0000, b * 0x1_0000), c * 256), d) == a * 0x100_0000 + b * 0x1_0000 + c * 256 + d
  {
    Powers();
    OrOfThree(a, b, c * 256);
    OrAdds(a * 0x1_0000 + b * 256 + c, d, 8);
  }

  // The number in one part, as strconv.ParseUint reads it in base 10 with 32 bits.
  function ReadUint32(part: string): Option<nat> {
    if IsUint32(part) then Some(Value(part)) else None
  }

  // The parts' numbers, in an array of four; false if one cannot be read.
  method ReadParts(parts: seq<string>) returns (ok: bool, nums: array<nat>)
    requires 1 <= |parts| <= 4
    ensures fresh(nums) && nums.Length == 4
    ensures ok <==> AllUint32(parts)
    ensures ok ==> nums[..|parts|] == Values(parts)
    ensures forall i :: 0 <= i < 4 ==> nums[i] <= MAX_UINT32
  {
    nums := new nat[4](_ => 0);
    ok := true;
    for i := 0 to |parts|
      invariant forall j :: 0 <= j < i ==> IsUint32(parts[j]) && nums[j] == Value(parts[j])
      invariant forall j :: 0 <= j < 4 ==> nums[j] <= MAX_UINT32
    {
      var n := ReadUint32(parts[i]);
      if n.None? {
        ok := false;
        return;
      }
      nums[i] := n.value;
    }
  }

  lemma SumOf(nums: seq<nat>)
    requires 1 <= |nums| <= 4
    ensures |nums| == 1 ==> Sum(nums, 0) == nums[0]
    ensures |nums| == 2 ==> Sum(nums, 0) == nums[0] * 0x100_0000 + nums[1]
    ensures |nums| == 3 ==> Sum(nums, 0) == nums[0] * 0x100_0000 + nums[1] * 0x1_0000 + nums[2]
    ensures |nums| == 4 ==> Sum(nums, 0) == nums[0] * 0x100_0000 + nums[1] * 0x1_0000 + nums[2] * 256 + nums[3]
  {
    Powers();
    var n := |nums|;
    assert Sum(nums, n) == 0;
    assert Sum(nums, n - 1) == nums[n - 1];
    if n > 1 {
      assert Sum(nums, n - 2) == nums[n - 2] * Weight(n, n - 2) + nums[n - 1];
    }
  }

  lemma RangeOf(nums: seq<nat>)
    requires 1 <= |nums| <= 4
    ensures |nums| == 1 ==> (InRange(nums) <==> nums[0] <= MAX_UINT32)
    ensures |nums| == 2 ==> (InRange(nums) <==> nums[0] <= 255 && nums[1] <= 0xff_ffff)
    ensures |nums| == 3 ==> (InRange(nums) <==> nums[0] <= 255 && nums[1] <= 255 && nums[2] <= 0xffff)
    ensures |nums| == 4 ==> (InRange(nums) <==> nums[0] <= 255 && nums[1] <= 255 && nums[2] <= 255 && nums[3] <= 255)
  {
    Powers();
    var n := |nums|;
    assert Limit(n, n - 1) == Pow256(5 - n);
    assert InRange(nums) ==> nums[n - 1] < Limit(n, n - 1);
    if n > 1 {
      assert InRange(nums) ==> nums[0] < Limit(n, 0);
    }
    if n > 2 {
      assert InRange(nums) ==> nums[1] < Limit(n, 1);
    }
    if n > 3 {
      assert InRange(nums) ==> nums[2] < Limit(n, 2);
    }
  }

  // Thirty-two bits are enough.
  lemma SumFits(nums: seq<nat>)
    requires InRange(nums)
    ensures Sum(nums, 0) <= MAX_UINT32
  {
    SumOf(nums);
    Powers();
    assert forall i :: 0 <= i < |nums| ==> nums[i] < Limit(|nums|, i);
  }

  // Shifting and or-ing the numbers of n parts, if each is in its range.
  method Pack(n: nat, nums: array<nat>) returns (ip: Option<nat>)
    requires 1 <= n <= 4 && nums.Length == 4 && forall i :: 0 <= i < 4 ==> nums[i] <= MAX_UINT32
    ensures ip == if InRange(nums[..n]) then Some(Sum(nums[..n], 0)) else None
  {
    SumOf(nums[..n]);
    RangeOf(nums[..n]);
    if n == 1 {
      ip := Some(nums[0]);
    } else if n == 2 {
      ip := PackTwo(nums[0], nums[1]);
    } else if n == 3 {
      ip := PackThree(nums[0], nums[1], nums[2]);
    } else {
      ip := PackFour(nums);
    }
  }

  method PackTwo(a: nat, b: nat) returns (ip: Option<nat>)
    ensures ip == if a <= 255 && b <= 0xff_ffff then Some(a * 0x100_0000 + b) else None
  {
    if a > 255 || b > 0xff_ffff {
      return None;
    }
    OrOfTwo(a, b);
    ip := Some(Or(a * 0x100_0000, b));
  }

  method PackThree(a: nat, b: nat, c: nat) returns (ip: Option<nat>)
    ensures ip == if a <= 255 && b <= 255 && c <= 0xffff then Some(a * 0x100_0000 + b * 0x1_0000 + c) else None
  {
    if a > 255 || b > 255 || c > 0xffff {
      return None;
    }
    OrOfThree(a, b, c);
    ip := Some(Or(Or(a * 0x100_0000, b * 0x1_0000), c));
  }

  method PackFour(nums: array<nat>) returns (ip: Option<nat>)
    requires nums.Length == 4
    ensures ip == if nums[0] <= 255 && nums[1] <= 255 && nums[2] <= 255 && nums[3] <= 255
                  then Some(nums[0] * 0x100_0000 + nums[1] * 0x1_0000 + nums[2] * 256 + nums[3]) else None
  {
    for i := 0 to 4
      invariant forall j :: 0 <= j < i ==> nums[j] <= 255
    {
      if nums[i] > 255 {
        return None;
      }
    }
    var a, b, c, d := nums[0], nums[1], nums[2], nums[3];
    OrOfFour(a, b, c, d);
    ip := Some(Or(Or(Or(a * 0x100_0000, b * 0x1_0000), c * 256), d));
  }

  method NormalizeIPv4(value: string) returns (r: Option<string>)
    ensures r == Normalized(value)
  {
    var parts := Split(value, '.');
    if |parts| < 1 || |parts| > 4 {
      return None;
    }
    var ok, nums := ReadParts(parts);
    if !ok {
      return None;
    }
    var ip := Pack(|parts|, nums);
    if ip.None? {
      return None;
    }
    SumFits(nums[..|parts|]);
    assert ip.value % 0x1_0000_0000 == ip.value == Address(parts);
    r := Some(Dotted(ip.value % 0x1_0000_0000));
  }

  // ---- Printing and reading back ----

  lemma NoDot(n: nat)
    ensures '.' !in Dec(n)
  {
    assert forall i :: 0 <= i < |Dec(n)| ==> IsDigit(Dec(n)[i]);
  }

  lemma SplitFour(a: string, b: string, c: string, d: string)
    requires '.' !in a && '.' !in b && '.' !in c && '.' !in d
    ensures Split(a + "." + b + "." + c + "." + d, '.') == [a, b, c, d]
  {
    SplitTwo(c, d);
    SplitFirst(b, c + "." + d, '.');
    SplitFirst(a, b + "." + (c + "." + d), '.');
    Dots(a, b, c, d);
  }

  lemma SplitTwo(c: string, d: string)
    requires '.' !in c && '.' !in d
    ensures Split(c + "." + d, '.') == [c, d]
  {
    SplitNone(d, '.');
    SplitFirst(c, d, '.');
  }

  lemma Dots(a: string, b: string, c: string, d: string)
    ensures a + "." + (b + "." + (c + "." + d)) == a + "." + b + "." + c + "." + d
  {
  }

  lemma Bytes(ip: nat)
    requires ip <= MAX_UINT32
    ensures (ip / 0x100_0000 % 256) * 0x100_0000 + (ip / 0x1_0000 % 256) * 0x1_0000 + (ip / 256 % 256) * 256 + ip % 256 == ip
  {
  }

  function BytesOf(ip: nat): seq<nat> {
    [ip / 0x100_0000 % 256, ip / 0x1_0000 % 256, ip / 256 % 256, ip % 256]
  }

  lemma PartsOfDotted(ip: nat)
    ensures var b := BytesOf(ip); Split(Dotted(ip), '.') == [Dec(b[0]), Dec(b[1]), Dec(b[2]), Dec(b[3])]
  {
    var b := BytesOf(ip);
    NoDot(b[0]); NoDot(b[1]); NoDot(b[2]); NoDot(b[3]);
    SplitFour(Dec(b[0]), Dec(b[1]), Dec(b[2]), Dec(b[3]));
  }

  lemma ValuesOfNumerals(b: seq<nat>, parts: seq<string>)
    requires |parts| == |b| && forall i :: 0 <= i < |b| ==> parts[i] == Dec(b[i]) && b[i] <= MAX_UINT32
    ensures AllUint32(parts) && Values(parts) == b
  {
    forall i | 0 <= i < |b| ensures IsUint32(parts[i]) && Value(parts[i]) == b[i] {
      ValueOfDec(b[i]);
    }
  }

  // Four bytes are in range, and add up to the address they were taken from.
  lemma BytesSpell(ip: nat, nums: seq<nat>)
    requires ip <= MAX_UINT32 && nums == BytesOf(ip)
    ensures InRange(nums) && Sum(nums, 0) == ip
  {
    RangeOf(nums);
    SumOf(nums);
    Bytes(ip);
  }

  lemma SpellingOfDotted(ip: nat)
    requires ip <= MAX_UINT32
    ensures IsSpelling(Split(Dotted(ip), '.')) && Address(Split(Dotted(ip), '.')) == ip
  {
    PartsOfDotted(ip);
    ValuesOfNumerals(BytesOf(ip), Split(Dotted(ip), '.'));
    BytesSpell(ip, BytesOf(ip));
  }

  // What is printed is read back as the same address, and normalising is idempotent.
  lemma NormalizedIsStable(value: string)
    requires Normalized(value).Some?
    ensures Normalized(Normalized(value).value) == Normalized(value)
  {
    var parts := Split(value, '.');
    SumFits(Values(parts));
    SpellingOfDotted(Address(parts));
  }
}
