// From a slot to a routing policy, and the filter that finds the policies' rules
// again (qnatter/files/qnatter.init:166-195, 258-272, 305-318).

module RoutePolicy {
  import opened Text
  import opened Hexadecimal
  import opened RouteSlots

  // ---- Policies ----

  // printf '%03x'
  function Hex3(n: nat): string
    requires n < SLOTS
  {
    [HexDigit(n / 256), HexDigit(n / 16 % 16), HexDigit(n % 16)]
  }

  datatype Policy = Policy(mark: string, table: string, priority: string)

  function PolicyOf(slot: nat): Policy
    requires slot < SLOTS
  {
    Policy("0x4e000" + Hex3(slot), Dec(20000 + slot), Dec(20000 + slot))
  }

  lemma HexDigitInjective(a: nat, b: nat)
    requires a < 16 && b < 16 && HexDigit(a) == HexDigit(b)
    ensures a == b
  {
    assert HexValue(HexDigit(a)) == HexValue(HexDigit(b));
  }

  lemma Digits16(n: nat)
    ensures n == 256 * (n / 256) + 16 * (n / 16 % 16) + n % 16
  {
    assert n / 16 == 16 * (n / 256) + n / 16 % 16;
  }

  lemma SameThree(a: string, b: string, x: char, y: char, z: char, x': char, y': char, z': char)
    requires a == [x, y, z] && b == [x', y', z'] && a == b
    ensures x == x' && y == y' && z == z'
  {
    assert a[0] == b[0] && a[1] == b[1] && a[2] == b[2];
  }

  lemma Hex3Injective(a: nat, b: nat)
    requires a < SLOTS && b < SLOTS && Hex3(a) == Hex3(b)
    ensures a == b
  {
    SameThree(Hex3(a), Hex3(b), HexDigit(a / 256), HexDigit(a / 16 % 16), HexDigit(a % 16),
              HexDigit(b / 256), HexDigit(b / 16 % 16), HexDigit(b % 16));
    HexDigitInjective(a / 256, b / 256);
    HexDigitInjective(a / 16 % 16, b / 16 % 16);
    HexDigitInjective(a % 16, b % 16);
    Digits16(a);
    Digits16(b);
  }

  // Two slots share no part of their policies.
  lemma PoliciesAreDistinct(a: nat, b: nat)
    requires a < SLOTS && b < SLOTS && a != b
    ensures PolicyOf(a).mark != PolicyOf(b).mark
    ensures PolicyOf(a).table != PolicyOf(b).table
    ensures PolicyOf(a).priority != PolicyOf(b).priority
  {
    if Dec(20000 + a) == Dec(20000 + b) {
      DecInjective(20000 + a, 20000 + b);
    }
    SuffixOf("0x4e000", Hex3(a));
    SuffixOf("0x4e000", Hex3(b));
    if Hex3(a) == Hex3(b) {
      Hex3Injective(a, b);
    }
  }

  lemma Numerals(a: nat, b: nat)
    requires a == 20000 && b == 24095
    ensures Dec(a) == "20000" && Dec(b) == "24095"
  {
    assert Dec(a / 10 / 10 / 10 / 10) == "2" == Dec(b / 10 / 10 / 10 / 10);
    assert Dec(a / 10 / 10 / 10) == "20" && Dec(b / 10 / 10 / 10) == "24";
    assert Dec(a / 10 / 10) == "200" && Dec(b / 10 / 10) == "240";
    assert Dec(a / 10) == "2000" && Dec(b / 10) == "2409";
  }

  // The first and the last policy, as they are printed.
  lemma EndsOfTheRange(first: nat, last: nat)
    requires first == 0 && last == 4095
    ensures PolicyOf(first) == Policy("0x4e000000", "20000", "20000")
    ensures PolicyOf(last) == Policy("0x4e000fff", "24095", "24095")
  {
    Numerals(20000 + first, 20000 + last);
  }

  lemma SuffixOf(p: string, s: string)
    ensures (p + s)[|p|..] == s
  {
  }

  // ---- Which slot each instance is started with ----

  // How many enabled instances read a slot that is not valid.
  function Unplaced(m: Memory, insts: seq<Instance>): nat {
    if insts == [] then 0
    else
      var last := insts[|insts| - 1];
      Unplaced(m, insts[..|insts| - 1]) + if last.enabled && !IsSlot(Slot(m, last.section)) then 1 else 0
  }

  lemma UnplacedStep(m: Memory, insts: seq<Instance>, i: nat)
    requires i < |insts|
    ensures Unplaced(m, insts[..i + 1])
         == Unplaced(m, insts[..i]) + if insts[i].enabled && !IsSlot(Slot(m, insts[i].section)) then 1 else 0
  {
    assert insts[..i + 1][..i] == insts[..i];
  }

  // An enabled instance takes the slot that is loaded for it, or the next number of a
  // counter if that is not valid.
  function Assigned(m: Memory, insts: seq<Instance>, i: nat): Option<nat>
    requires i < |insts|
  {
    var slot := Slot(m, insts[i].section);
    if IsSlot(slot) then Some(Value(slot))
    else if Unplaced(m, insts[..i]) < SLOTS then Some(Unplaced(m, insts[..i]))
    else None
  }

  function PolicyFor(m: Memory, insts: seq<Instance>, i: nat): Option<Policy>
    requires i < |insts|
  {
    if insts[i].enabled && Assigned(m, insts, i).Some? then Some(PolicyOf(Assigned(m, insts, i).value)) else None
  }

  // The slot itself if it is valid, and otherwise the next number of the counter.
  function Placed(slot: string, counter: nat): Option<nat> {
    if IsSlot(slot) then Some(Value(slot)) else if counter < SLOTS then Some(counter) else None
  }

  method AssignRoutePolicy(slot: string, counter: nat) returns (policy: Option<Policy>, counter': nat)
    ensures policy == if Placed(slot, counter).Some? then Some(PolicyOf(Placed(slot, counter).value)) else None
    ensures counter' == if IsSlot(slot) || counter >= SLOTS then counter else counter + 1
  {
    counter' := counter;
    var n := 0;
    if IsSlot(slot) {
      n := Value(slot);
    } else {
      if counter > 4095 {
        return None, counter;
      }
      n, counter' := counter, counter + 1;
    }
    policy := Some(PolicyOf(n));
  }

  // The policies the instances are started with; disabled ones have none.
  method AssignRoutePolicies(m: Memory, insts: seq<Instance>) returns (policies: seq<Option<Policy>>)
    ensures |policies| == |insts|
    ensures forall i :: 0 <= i < |insts| ==> policies[i] == PolicyFor(m, insts, i)
  {
    policies := [];
    var counter := 0;
    for i := 0 to |insts|
      invariant |policies| == i && counter == if Unplaced(m, insts[..i]) < SLOTS then Unplaced(m, insts[..i]) else SLOTS
      invariant forall j :: 0 <= j < i ==> policies[j] == PolicyFor(m, insts, j)
    {
      UnplacedStep(m, insts, i);
      var policy := None;
      if insts[i].enabled {
        policy, counter := AssignRoutePolicy(Slot(m, insts[i].section), counter);
      }
      policies := policies + [policy];
    }
  }

  // An instance is started with the slot it was given if and only if its name is plain,
  // or no other instance replaces what is loaded for it and that is the slot given, or
  // is not valid and the counter happens to stand at the slot given.
  lemma StartsWithItsSlot(m: Memory, insts: seq<Instance>, outs: seq<Option<string>>, i: nat)
    requires |insts| == |outs| && DifferentNames(insts) && Prepared(Requests(m, insts, outs), outs)
    requires i < |insts| && outs[i].Some?
    ensures var now := MemoryAfter(m, insts, outs);
            var loaded := Slot(m, insts[i].section);
            IsSlot(outs[i].value)
            && (Assigned(now, insts, i) == Some(Value(outs[i].value))
                <==> || IsPlainName(insts[i].section)
                     || (&& !Replaced(insts, outs, insts[i].section)
                         && (loaded == outs[i].value || (!IsSlot(loaded) && Unplaced(now, insts[..i]) == Value(outs[i].value)))))
  {
    if IsPlainName(insts[i].section) {
      LoadedPlain(m, insts, outs, i);
    } else if Replaced(insts, outs, insts[i].section) {
      LoadedReplaced(m, insts, outs, i);
    } else {
      LoadedAtFirst(m, insts, outs, i);
    }
    GivenIsFresh(Requests(m, insts, outs)[i], Recorded(outs[..i]), outs[i]);
    SameValueSameSlot(Slot(MemoryAfter(m, insts, outs), insts[i].section), outs[i].value);
  }

  lemma SameValueSameSlot(a: string, b: string)
    requires IsSlot(b)
    ensures IsSlot(a) && Value(a) == Value(b) ==> a == b
  {
    if IsSlot(a) {
      SlotIsDec(a);
    }
    SlotIsDec(b);
  }

  // Two instances started with the slots they were given share no part of a policy.
  lemma OwnSlotsShareNothing(m: Memory, insts: seq<Instance>, outs: seq<Option<string>>, i: nat, j: nat)
    requires |insts| == |outs| && DifferentNames(insts) && Prepared(Requests(m, insts, outs), outs)
    requires i < j < |insts| && outs[i].Some? && outs[j].Some? && insts[i].enabled && insts[j].enabled
    requires var now := MemoryAfter(m, insts, outs);
             Assigned(now, insts, i) == Some(Value(outs[i].value)) && Assigned(now, insts, j) == Some(Value(outs[j].value))
    ensures var now := MemoryAfter(m, insts, outs);
            var p, q := PolicyFor(now, insts, i), PolicyFor(now, insts, j);
            p.Some? && q.Some? && p.value.mark != q.value.mark && p.value.table != q.value.table && p.value.priority != q.value.priority
  {
    SlotsAreDistinct(Requests(m, insts, outs), outs, i, j);
    SameValueSameSlot(outs[i].value, outs[j].value);
    PoliciesAreDistinct(Value(outs[i].value), Value(outs[j].value));
  }

  // An instance whose name is not plain is started with the very policy of the one whose
  // name is its variable, whenever both got a slot.
  lemma TwinsAlwaysShare(m: Memory, insts: seq<Instance>, outs: seq<Option<string>>, i: nat, j: nat)
    requires |insts| == |outs| && DifferentNames(insts) && Prepared(Requests(m, insts, outs), outs)
    requires i < |insts| && j < |insts| && insts[i].enabled && insts[j].enabled && Writes(insts, outs, j, insts[i].section)
    ensures var now := MemoryAfter(m, insts, outs); PolicyFor(now, insts, i) == PolicyFor(now, insts, j) != None
  {
    ReadsWriter(m, insts, outs, j, insts[i].section);
    ReadsWriter(m, insts, outs, j, insts[j].section);
    GivenIsFresh(Requests(m, insts, outs)[j], Recorded(outs[..j]), outs[j]);
  }

  lemma {:induction false} CounterGrows(m: Memory, insts: seq<Instance>, i: nat, j: nat)
    requires i <= j <= |insts|
    ensures Unplaced(m, insts[..i]) <= Unplaced(m, insts[..j])
    ensures i < j && insts[i].enabled && !IsSlot(Slot(m, insts[i].section)) ==> Unplaced(m, insts[..i]) < Unplaced(m, insts[..j])
  {
    if i < j {
      CounterGrows(m, insts, i, j - 1);
      UnplacedStep(m, insts, j - 1);
    }
  }

  // What instance i is started with: the slot read, or where the counter stands.
  function StartedWith(m: Memory, insts: seq<Instance>, i: nat): nat
    requires i < |insts|
  {
    if IsSlot(Slot(m, insts[i].section)) then Value(Slot(m, insts[i].section)) else Unplaced(m, insts[..i])
  }

  // Two enabled instances are started with one policy if and only if they read the same
  // valid slot, or exactly one of them reads a valid slot and it is the number at which
  // the counter stands for the other. Two that both take the counter never are. If they
  // are not, and both have a policy, no part of it is shared.
  lemma SharesExactly(m: Memory, insts: seq<Instance>, i: nat, j: nat)
    requires i < j < |insts| && insts[i].enabled && insts[j].enabled
    requires PolicyFor(m, insts, i).Some? && PolicyFor(m, insts, j).Some?
    ensures var s, t := Slot(m, insts[i].section), Slot(m, insts[j].section);
            var p, q := PolicyFor(m, insts, i).value, PolicyFor(m, insts, j).value;
            && (p == q <==> || (IsSlot(s) && s == t)
                            || (IsSlot(s) && !IsSlot(t) && Value(s) == Unplaced(m, insts[..j]))
                            || (!IsSlot(s) && IsSlot(t) && Value(t) == Unplaced(m, insts[..i])))
            && (p != q ==> p.mark != q.mark && p.table != q.table && p.priority != q.priority)
  {
    var s, t := Slot(m, insts[i].section), Slot(m, insts[j].section);
    CounterGrows(m, insts, i, j);
    if IsSlot(s) && IsSlot(t) {
      SameValueSameSlot(s, t);
    }
    if StartedWith(m, insts, i) != StartedWith(m, insts, j) {
      PoliciesAreDistinct(StartedWith(m, insts, i), StartedWith(m, insts, j));
    }
  }

  // It happens without a twin, too: an instance named with a hyphen that needs a new slot
  // is started with the counter instead, which another instance may have as its slot.
  lemma AHyphenCanShareAPolicy()
    ensures var m: Memory := map["c" := "0"];
            var insts := [Instance("c", true, false), Instance("a-b", true, false)];
            var outs := [Some("0"), Some("1")];
            && Prepared(Requests(m, insts, outs), outs)
            && PolicyFor(MemoryAfter(m, insts, outs), insts, 0) == Some(PolicyOf(0)) == PolicyFor(MemoryAfter(m, insts, outs), insts, 1)
  {
    var m: Memory := map["c" := "0"];
    var insts, outs := [Instance("c", true, false), Instance("a-b", true, false)], [Some("0"), Some("1")];
    ExampleMemory();
    ExamplePrepared();
    ZeroAndOne();
    assert insts[..0] == [] && insts[..1] == [insts[0]] && [insts[0]][..0] == [];
    assert Unplaced(m, insts[..1]) == 0;
  }

  lemma ExampleMemory()
    ensures var m: Memory := map["c" := "0"];
            var c, hyphen := Instance("c", true, false), Instance("a-b", true, false);
            && Slot(m, "c") == "0" && Slot(m, "a-b") == ""
            && MemoryAfter(m, [c], [Some("0")]) == m && MemoryAfter(m, [c, hyphen], [Some("0"), Some("1")]) == m
            && Requests(m, [c, hyphen], [Some("0"), Some("1")]) == [Request("0", false), Request("", false)]
  {
    var m: Memory := map["c" := "0"];
    var c, hyphen := Instance("c", true, false), Instance("a-b", true, false);
    assert "a-b"[1] == '-' && |Variable("a-b")| == 3;
    PassStep(m, [], [], c, Some("0"));
    assert [] + [c] == [c] && [] + [Some("0")] == [Some("0")];
    WrittenUnchanged(m, c, Some("0"));
    PassStep(m, [c], [Some("0")], hyphen, Some("1"));
    assert [c] + [hyphen] == [c, hyphen] && [Some("0")] + [Some("1")] == [Some("0"), Some("1")];
    assert [] + [Request("0", false)] == [Request("0", false)];
  }

  lemma ExamplePrepared()
    ensures Prepared([Request("0", false), Request("", false)], [Some("0"), Some("1")])
  {
    ZeroAndOne();
    var first, second := Request("0", false), Request("", false);
    PreparedStep([], [], first, Some("0"));
    assert [] + [first] == [first] && [] + [Some("0")] == [Some("0")];
    PreparedStep([first], [Some("0")], second, Some("1"));
    assert [first] + [second] == [first, second] && [Some("0")] + [Some("1")] == [Some("0"), Some("1")];
  }

  lemma ZeroAndOne()
    ensures Dec(0) == "0" && Dec(1) == "1" && Value("0") == 0 && Value("1") == 1
    ensures IsSlot("0") && IsSlot("1") && !IsSlot("")
    ensures LeastFree(1, ["0"]) && !Full(["0"]) && Recorded([Some("0")]) == ["0"]
  {
    ValueOfDec(0);
    ValueOfDec(1);
    assert Recorded([]) == [] && [Some("0")][..0] == [];
    assert Dec(1) !in ["0"];
  }

  // ---- Finding the rules again ----

  // A rule as `ip rule show` prints it; some versions end the line with a space.
  function RuleLine(p: Policy, end: string): string {
    p.priority + ":\tfrom all fwmark " + p.mark + " lookup " + p.table + end
  }

  // ${s%%c*}
  function Before(s: string, c: char): string {
    if s == "" || s[0] == c then "" else [s[0]] + Before(s[1..], c)
  }

  // ${s#*p}
  function AfterFirst(s: string, p: string): string {
    var i := IndexOf(s, p);
    if i.Some? then s[i.value + |p|..] else s
  }

  function LastIndexOf(s: string, p: string): (r: Option<nat>)
    ensures r.Some? ==> OccursAt(s, p, r.value)
  {
    if s == "" then if p == "" then Some(0) else None
    else
      var tail := LastIndexOf(s[1..], p);
      if tail.Some? then
        assert s[tail.value + 1..tail.value + 1 + |p|] == s[1..][tail.value..tail.value + |p|];
        Some(tail.value + 1)
      else if StartsWith(s, p) then Some(0)
      else None
  }

  // ${s##*p}
  function AfterLast(s: string, p: string): string {
    var i := LastIndexOf(s, p);
    if i.Some? then s[i.value + |p|..] else s
  }

  const FWMARK := " fwmark "
  const LOOKUP := " lookup "
  const OWN_MARK := " fwmark 0x4e000"

  // The priority, mark and table the flush loop deletes by, if it takes the line for
  // one of its own.
  function Recognised(line: string): Option<Policy> {
    var own := IndexOf(line, OWN_MARK);
    if own.None? || !Contains(line[own.value + |OWN_MARK|..], LOOKUP) then None
    else
      var priority := Before(line, ':');
      var mark := Before(AfterFirst(line, FWMARK), ' ');
      var table := Before(AfterLast(line, LOOKUP), ' ');
      if priority + table == "" || !AllDigits(priority + table) then None
      else if |mark| != 10 || mark[..7] != "0x4e000" then None
      else Some(Policy(mark, table, priority))
  }

  lemma {:induction false} BeforeMark(d: string, c: char, rest: string)
    requires c !in d && (rest == "" || rest[0] == c)
    ensures Before(d + rest, c) == d
  {
    if d == "" {
      assert d + rest == rest;
    } else {
      BeforeMark(d[1..], c, rest);
      assert (d + rest)[1..] == d[1..] + rest;
      assert d == [d[0]] + d[1..];
    }
  }

  // The first occurrence is where it is known to be, if there is none before.
  lemma FirstAt(s: string, p: string, k: nat)
    requires OccursAt(s, p, k) && forall i: nat :: i < k ==> !OccursAt(s, p, i)
    ensures IndexOf(s, p) == Some(k)
  {
  }

  lemma {:induction false} LastAt(s: string, p: string, k: nat)
    requires p != "" && OccursAt(s, p, k) && forall i: nat :: i > k ==> !OccursAt(s, p, i)
    ensures LastIndexOf(s, p) == Some(k)
  {
    if k == 0 {
      LastNone(s[1..], p, s);
    } else {
      OccursAtTail(s, p, k);
      forall i: nat | i > k - 1 ensures !OccursAt(s[1..], p, i) {
        OccursAtTail(s, p, i + 1);
      }
      LastAt(s[1..], p, k - 1);
    }
  }

  lemma LastNone(t: string, p: string, s: string)
    requires s != "" && t == s[1..] && p != "" && forall i: nat :: i > 0 ==> !OccursAt(s, p, i)
    ensures LastIndexOf(t, p).None?
  {
    var r := LastIndexOf(t, p);
    if r.Some? {
      OccursAtTail(s, p, r.value + 1);
    }
  }

  lemma NotAt(s: string, p: string, i: nat, k: nat)
    requires k < |p| && (i + k >= |s| || s[i + k] != p[k])
    ensures !OccursAt(s, p, i)
  {
    if i + |p| <= |s| {
      assert s[i..i + |p|][k] == s[i + k];
    }
  }

  // Nothing like a firewall mark occurs before the mark.
  lemma NoMarkBefore(p: string, rest: string, i: nat)
    requires AllDigits(p) && i < |p| + 10
    ensures !OccursAt(p + (":\tfrom all" + rest), FWMARK, i)
  {
    var head := ":\tfrom all";
    var line := p + (head + rest);
    if i < |p| {
      assert line[i] == p[i] && IsDigit(p[i]);
      NotAt(line, FWMARK, i, 0);
    } else if i == |p| + 6 {
      assert line[i + 1] == head[7] == 'a';
      NotAt(line, FWMARK, i, 1);
    } else {
      assert line[i] == head[i - |p|];
      NotAt(line, FWMARK, i, 0);
    }
  }

  // A table's number or name; "lookup" itself would be misread.
  predicate IsTable(t: string) {
    t != "" && ' ' !in t && t != "lookup"
  }

  // The table is not the start of another " lookup ".
  lemma TableIsNoLookup(line: string, t: string, end: string, i: nat)
    requires IsTable(t) && (end == "" || end == " ") && i + 1 + |t| + |end| == |line|
    requires line[i + 1..] == t + end
    ensures !OccursAt(line, LOOKUP, i)
  {
    assert forall k :: 0 <= k < |t| ==> line[i + 1 + k] == line[i + 1..][k] == t[k];
    if |t| > 6 {
      NotAt(line, LOOKUP, i, 7);
    } else if |t| < 6 {
      assert end == " " ==> line[i + 1 + |t|] == line[i + 1..][|t|] == ' ';
      NotAt(line, LOOKUP, i, 1 + |t|);
    } else {
      assert "lookup" == LOOKUP[1..7];
      var k :| 0 <= k < 6 && t[k] != LOOKUP[k + 1];
      NotAt(line, LOOKUP, i, k + 1);
    }
  }

  // Nothing like a table occurs after the table.
  lemma NoLookupAfter(head: string, t: string, end: string, i: nat)
    requires IsTable(t) && (end == "" || end == " ") && i > |head|
    ensures !OccursAt(head + (LOOKUP + t + end), LOOKUP, i)
  {
    var line, n := head + (LOOKUP + t + end), |head|;
    if i < n + 7 {
      assert line[i] == LOOKUP[i - n];
      NotAt(line, LOOKUP, i, 0);
    } else if i == n + 7 {
      assert line[i + 1..] == t + end;
      TableIsNoLookup(line, t, end, i);
    } else if i < n + 8 + |t| {
      assert line[i] == t[i - n - 8];
      NotAt(line, LOOKUP, i, 0);
    } else {
      NotAt(line, LOOKUP, i, 7);
    }
  }

  lemma OwnMarkNeedsMark(s: string, i: nat)
    ensures OccursAt(s, OWN_MARK, i) ==> OccursAt(s, FWMARK, i)
  {
    if OccursAt(s, OWN_MARK, i) {
      assert s[i..i + |FWMARK|] == s[i..i + |OWN_MARK|][..|FWMARK|];
    }
  }

  lemma OccursAfter(head: string, p: string, rest: string)
    ensures OccursAt(head + (p + rest), p, |head|)
    ensures (head + (p + rest))[|head| + |p|..] == rest
  {
    assert (head + (p + rest))[|head|..|head| + |p|] == p;
  }

  // The mark is found, whatever follows it.
  lemma MarkIsFound(p: string, rest: string)
    requires AllDigits(p)
    ensures var line := p + (":\tfrom all" + (OWN_MARK + rest));
            IndexOf(line, OWN_MARK) == Some(|p| + 10) == IndexOf(line, FWMARK)
  {
    var n, line := |p| + 10, p + (":\tfrom all" + (OWN_MARK + rest));
    var head := p + ":\tfrom all";
    assert line == head + (OWN_MARK + rest);
    OccursAfter(head, OWN_MARK, rest);
    OwnMarkNeedsMark(line, n);
    forall i: nat | i < n ensures !OccursAt(line, FWMARK, i) && !OccursAt(line, OWN_MARK, i) {
      NoMarkBefore(p, OWN_MARK + rest, i);
      OwnMarkNeedsMark(line, i);
    }
    FirstAt(line, OWN_MARK, n);
    FirstAt(line, FWMARK, n);
  }

  lemma TableIsFound(head: string, t: string, end: string)
    requires IsTable(t) && (end == "" || end == " ")
    ensures Before(AfterLast(head + (LOOKUP + t + end), LOOKUP), ' ') == t
  {
    var line, n := head + (LOOKUP + t + end), |head|;
    assert LOOKUP + t + end == LOOKUP + (t + end);
    OccursAfter(head, LOOKUP, t + end);
    forall i: nat | i > n ensures !OccursAt(line, LOOKUP, i) {
      NoLookupAfter(head, t, end, i);
    }
    LastAt(line, LOOKUP, n);
    BeforeMark(t, ' ', end);
  }

  function LineOf(p: string, h: string, t: string, end: string): string {
    p + (":\tfrom all" + (OWN_MARK + (h + (LOOKUP + t + end))))
  }

  lemma AfterFound(head: string, p: string, rest: string)
    requires IndexOf(head + (p + rest), p) == Some(|head|)
    ensures AfterFirst(head + (p + rest), p) == rest
  {
    OccursAfter(head, p, rest);
  }

  lemma MarkText(p: string, h: string, table: string)
    requires AllDigits(p) && ' ' !in h && table != "" && table[0] == ' '
    ensures var line := p + (":\tfrom all" + (OWN_MARK + (h + table)));
            Before(AfterFirst(line, FWMARK), ' ') == "0x4e000" + h
  {
    var head, mark := p + ":\tfrom all", "0x4e000" + h;
    var line := p + (":\tfrom all" + (OWN_MARK + (h + table)));
    MarkIsFound(p, h + table);
    MarkRegroups(p, h, table);
    AfterFound(head, FWMARK, mark + table);
    BeforeMark(mark, ' ', table);
  }

  lemma MarkRegroups(p: string, h: string, table: string)
    ensures p + (":\tfrom all" + (OWN_MARK + (h + table))) == (p + ":\tfrom all") + (FWMARK + (("0x4e000" + h) + table))
  {
    assert OWN_MARK == FWMARK + "0x4e000";
  }

  lemma LookupFollows(p: string, h: string, t: string, end: string)
    ensures var line := LineOf(p, h, t, end);
            |p| + 10 + |OWN_MARK| <= |line| && Contains(line[|p| + 10 + |OWN_MARK|..], LOOKUP)
  {
    var head, table := p + ":\tfrom all", LOOKUP + t + end;
    assert LineOf(p, h, t, end) == head + (OWN_MARK + (h + table));
    OccursAfter(head, OWN_MARK, h + table);
    assert table == LOOKUP + (t + end);
    OccursAfter(h, LOOKUP, t + end);
  }

  lemma TableText(p: string, h: string, t: string, end: string)
    requires IsTable(t) && (end == "" || end == " ")
    ensures Before(AfterLast(LineOf(p, h, t, end), LOOKUP), ' ') == t
  {
    var before := p + ":\tfrom all" + OWN_MARK + h;
    assert LineOf(p, h, t, end) == before + (LOOKUP + t + end);
    TableIsFound(before, t, end);
  }

  lemma RecognisedWhen(line: string, p: string, h: string, t: string)
    requires AllDigits(p) && p != "" && |h| == 3 && t != ""
    requires IndexOf(line, OWN_MARK) == Some(|p| + 10) && Contains(line[|p| + 10 + |OWN_MARK|..], LOOKUP)
    requires Before(line, ':') == p && Before(AfterFirst(line, FWMARK), ' ') == "0x4e000" + h
    requires Before(AfterLast(line, LOOKUP), ' ') == t
    ensures Recognised(line) == if AllDigits(t) then Some(Policy("0x4e000" + h, t, p)) else None
  {
    var mark := "0x4e000" + h;
    assert mark[..7] == "0x4e000";
    assert forall i :: 0 <= i < |t| ==> (p + t)[|p| + i] == t[i];
  }

  lemma RuleTextIsRecognised(p: string, h: string, t: string, end: string)
    requires AllDigits(p) && p != "" && |h| == 3 && ' ' !in h && IsTable(t) && (end == "" || end == " ")
    ensures Recognised(RuleLine(Policy("0x4e000" + h, t, p), end)) == if AllDigits(t) then Some(Policy("0x4e000" + h, t, p)) else None
  {
    var line := LineOf(p, h, t, end);
    assert RuleLine(Policy("0x4e000" + h, t, p), end) == line;
    MarkIsFound(p, h + (LOOKUP + t + end));
    LookupFollows(p, h, t, end);
    BeforeMark(p, ':', ":\tfrom all" + (OWN_MARK + (h + (LOOKUP + t + end))));
    MarkText(p, h, LOOKUP + t + end);
    TableText(p, h, t, end);
    RecognisedWhen(line, p, h, t);
  }

  // The mark is read whatever it is.
  lemma MarkIsRead(p: string, mark: string, rest: string)
    requires AllDigits(p) && ' ' !in mark && rest != "" && rest[0] == ' '
    ensures Before(AfterFirst(p + (":\tfrom all" + (FWMARK + (mark + rest))), FWMARK), ' ') == mark
  {
    var head, line := p + ":\tfrom all", p + (":\tfrom all" + (FWMARK + (mark + rest)));
    assert line == head + (FWMARK + (mark + rest));
    OccursAfter(head, FWMARK, mark + rest);
    forall i: nat | i < |head| ensures !OccursAt(line, FWMARK, i) {
      NoMarkBefore(p, FWMARK + (mark + rest), i);
    }
    FirstAt(line, FWMARK, |head|);
    AfterFound(head, FWMARK, mark + rest);
    BeforeMark(mark, ' ', rest);
  }

  predicate IsOwnMark(mark: string) {
    |mark| == 10 && mark[..7] == "0x4e000"
  }

  lemma OwnLine(q: Policy, end: string)
    requires AllDigits(q.priority) && q.priority != "" && ' ' !in q.mark && IsTable(q.table) && (end == "" || end == " ")
    requires IsOwnMark(q.mark)
    ensures Recognised(RuleLine(q, end)) == if AllDigits(q.table) then Some(q) else None
  {
    var h := q.mark[7..];
    OwnMarkParts(q.mark, h);
    RuleTextIsRecognised(q.priority, h, q.table, end);
  }

  lemma OwnMarkParts(mark: string, h: string)
    requires IsOwnMark(mark) && h == mark[7..]
    ensures mark == "0x4e000" + h && |h| == 3 && forall c :: c in h ==> c in mark
  {
  }

  lemma ForeignLine(q: Policy, end: string)
    requires AllDigits(q.priority) && ' ' !in q.mark && !IsOwnMark(q.mark)
    ensures Recognised(RuleLine(q, end)).None?
  {
    MarkIsRead(q.priority, q.mark, LOOKUP + q.table + end);
    LineRegroups(q.priority, q.mark, q.table, end);
  }

  lemma LineRegroups(p: string, mark: string, t: string, end: string)
    ensures p + ":\tfrom all fwmark " + mark + " lookup " + t + end == p + (":\tfrom all" + (FWMARK + (mark + (LOOKUP + t + end))))
  {
  }

  // A rule of the usual form is taken for one of the package's if and only if its mark
  // is 0x4e000 and three more characters, and its table a number.
  lemma RecognisedExactly(q: Policy, end: string)
    requires AllDigits(q.priority) && q.priority != "" && ' ' !in q.mark && IsTable(q.table) && (end == "" || end == " ")
    ensures Recognised(RuleLine(q, end)) == if IsOwnMark(q.mark) && AllDigits(q.table) then Some(q) else None
  {
    if IsOwnMark(q.mark) {
      OwnLine(q, end);
    } else {
      ForeignLine(q, end);
    }
  }

  // Rules without a mark are left alone.
  lemma UnmarkedRulesAreSpared(line: string)
    requires !Contains(line, FWMARK)
    ensures Recognised(line).None?
  {
    var own := IndexOf(line, OWN_MARK);
    if own.Some? {
      OwnMarkNeedsMark(line, own.value);
    }
  }

  lemma HexHasNoSpace(n: nat)
    requires n < SLOTS
    ensures ' ' !in Hex3(n)
  {
    assert forall d :: 0 <= d < 16 ==> HexDigit(d) != ' ';
  }

  // Every rule of a policy is found, and deleted by exactly its own selectors.
  lemma OwnRulesAreRecognised(slot: nat, end: string)
    requires slot < SLOTS && (end == "" || end == " ")
    ensures Recognised(RuleLine(PolicyOf(slot), end)) == Some(PolicyOf(slot))
  {
    HexHasNoSpace(slot);
    RuleTextIsRecognised(Dec(20000 + slot), Hex3(slot), Dec(20000 + slot), end);
  }

  datatype IpCommand = DeleteRule(policy: Policy) | DeletePriority(priority: string) | FlushTable(table: string)

  // What is done about one rule: delete it by all its selectors; if that is refused, by
  // its priority alone; then flush its table.
  function Cleanup(p: Policy, refused: bool): seq<IpCommand> {
    [DeleteRule(p)] + (if refused then [DeletePriority(p.priority)] else []) + [FlushTable(p.table)]
  }

  // What is done about the recognised rules among these lines.
  function CleanupAll(lines: seq<string>, refuses: Policy -> bool): seq<IpCommand> {
    if lines == [] then []
    else
      var p := Recognised(lines[|lines| - 1]);
      CleanupAll(lines[..|lines| - 1], refuses) + if p.Some? then Cleanup(p.value, refuses(p.value)) else []
  }

  method FlushRouteRules(lines: seq<string>, refuses: Policy -> bool) returns (commands: seq<IpCommand>)
    ensures commands == CleanupAll(lines, refuses)
  {
    commands := [];
    for i := 0 to |lines|
      invariant commands == CleanupAll(lines[..i], refuses)
    {
      var p := Recognised(lines[i]);
      CleanupStep(lines[..i], lines[i], refuses, p);
      TakeNext(lines, i);
      if p.None? {
        continue;
      }
      var more := [DeleteRule(p.value)];
      if refuses(p.value) {
        more := more + [DeletePriority(p.value.priority)];
      }
      commands := commands + (more + [FlushTable(p.value.table)]);
    }
    TakeAll(lines);
  }

  lemma CleanupStep(lines: seq<string>, line: string, refuses: Policy -> bool, p: Option<Policy>)
    requires p == Recognised(line)
    ensures CleanupAll(lines + [line], refuses)
         == if p.Some? then CleanupAll(lines, refuses) + Cleanup(p.value, refuses(p.value)) else CleanupAll(lines, refuses)
    ensures p.Some? ==> Cleanup(p.value, true) == [DeleteRule(p.value)] + [DeletePriority(p.value.priority)] + [FlushTable(p.value.table)]
    ensures p.Some? ==> Cleanup(p.value, false) == [DeleteRule(p.value)] + [FlushTable(p.value.table)]
  {
    assert (lines + [line])[..|lines|] == lines;
  }

  // The flush leaves no rule and no table of any slot behind.
  lemma {:induction false} OwnRulesAreFlushed(lines: seq<string>, refuses: Policy -> bool, k: nat, slot: nat, end: string)
    requires k < |lines| && slot < SLOTS && (end == "" || end == " ") && lines[k] == RuleLine(PolicyOf(slot), end)
    ensures var commands, p := CleanupAll(lines, refuses), PolicyOf(slot);
            && DeleteRule(p) in commands && FlushTable(p.table) in commands
            && (refuses(p) ==> DeletePriority(p.priority) in commands)
  {
    var n, p := |lines| - 1, PolicyOf(slot);
    assert CleanupAll(lines, refuses)
        == CleanupAll(lines[..n], refuses)
           + if Recognised(lines[n]).Some? then Cleanup(Recognised(lines[n]).value, refuses(Recognised(lines[n]).value)) else [];
    if k == n {
      OwnRulesAreRecognised(slot, end);
      InCleanup(p, refuses(p));
    } else {
      OwnRulesAreFlushed(lines[..n], refuses, k, slot, end);
    }
  }

  lemma InCleanup(p: Policy, refused: bool)
    ensures DeleteRule(p) in Cleanup(p, refused) && FlushTable(p.table) in Cleanup(p, refused)
    ensures refused ==> DeletePriority(p.priority) in Cleanup(p, refused)
  {
    var c := Cleanup(p, refused);
    assert c[0] == DeleteRule(p) && c[|c| - 1] == FlushTable(p.table) && (refused ==> c[1] == DeletePriority(p.priority));
  }
}
