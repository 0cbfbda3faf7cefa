// Table "ip qnatter" as the kernel holds it, the text nft prints about it, and
// how that text is searched for a rule handle (forward/nftables.go).

module NftKernel {
  import opened Text

  datatype Chain = Dnat | Snat | Mark

  datatype Rule = Rule(handle: nat, text: string)

  // next is the handle the next inserted rule gets; header is the handle printed
  // on the table line and the chain line of a listing.
  datatype Table = Table(present: bool, chains: map<Chain, seq<Rule>>, next: nat, header: nat)

  datatype Command =
    | ListTable
    | CreateTable
    | ListChain(chain: Chain)
    | AddMarkChain
    | Insert(chain: Chain, text: string)
    | Delete(chain: Chain, handle: nat)

  // What may go wrong with one command: it has no effect and reports an error,
  // or it takes effect and nft prints nothing.
  datatype Fault = Obey | Refuse | Mute

  datatype Reply = Reply(table: Table, ok: bool, output: seq<string>)

  // The narrowest Go int: strconv.Atoi rejects larger handles.
  const MAX_INT := 0x7fff_ffff

  function ChainName(c: Chain): string {
    match c
    case Dnat => "qnatter_dnat"
    case Snat => "qnatter_snat"
    case Mark => "qnatter_mark"
  }

  // ---- The text nft prints ----

  function HandleSuffix(h: nat): string {
    " # handle " + Dec(h)
  }

  function RuleLine(r: Rule): string {
    "\t\t" + r.text + HandleSuffix(r.handle)
  }

  function RuleLines(rules: seq<Rule>): seq<string> {
    seq(|rules|, i requires 0 <= i < |rules| => RuleLine(rules[i]))
  }

  function Listing(c: Chain, rules: seq<Rule>, header: nat): seq<string> {
    ["table ip qnatter {" + HandleSuffix(header), "\tchain " + ChainName(c) + " {" + HandleSuffix(header)]
    + RuleLines(rules) + ["\t}", "}"]
  }

  function Echo(c: Chain, text: string, h: nat): seq<string> {
    ["insert rule ip qnatter " + ChainName(c) + " " + text + HandleSuffix(h)]
  }

  // ---- Searching it ----

  // The digits of the leftmost match of "# handle ([0-9]+)".
  function MatchHandle(line: string): Option<string> {
    if line == "" then None
    else if StartsWith(line, "# handle ") && Digits(line[9..]) != "" then Some(Digits(line[9..]))
    else MatchHandle(line[1..])
  }

  function Atoi(digits: string): Option<nat>
    requires AllDigits(digits)
  {
    if Value(digits) <= MAX_INT then Some(Value(digits)) else None
  }

  function HandleOf(line: string): Option<nat> {
    match MatchHandle(line)
    case None => None
    case Some(d) => if AllDigits(d) then Atoi(d) else None
  }

  // nft prints one line per inserted rule, or nothing at all.
  function ParseHandle(output: seq<string>): Option<nat> {
    if output == [] then None else HandleOf(output[0])
  }

  // The handle on the first line that contains the spec and carries one.
  function LookupRuleHandle(output: seq<string>, spec: string): Option<nat> {
    if spec == "" || output == [] then None
    else if Contains(output[0], spec) && HandleOf(output[0]).Some? then HandleOf(output[0])
    else LookupRuleHandle(output[1..], spec)
  }

  // ---- What the kernel does ----

  function Without(rules: seq<Rule>, h: nat): seq<Rule> {
    if rules == [] then []
    else if rules[0].handle == h then rules[1..]
    else [rules[0]] + Without(rules[1..], h)
  }

  // A '#' starts a comment in nft syntax, so no rule text contains one.
  predicate Acceptable(t: Table, c: Chain, text: string) {
    c in t.chains && '#' !in text && t.next <= MAX_INT
  }

  function WithChains(t: Table, cs: set<Chain>): Table {
    t.(present := true, chains := map c | c in t.chains.Keys + cs :: if c in t.chains then t.chains[c] else [])
  }

  function Exec(t: Table, cmd: Command, fault: Fault): Reply {
    var failed := Reply(t, false, []);
    if fault.Refuse? then failed
    else match cmd
      case ListTable => if t.present then Reply(t, true, []) else failed
      case CreateTable => Reply(WithChains(t, {Dnat, Snat, Mark}), true, [])
      case ListChain(c) =>
        if c in t.chains then Reply(t, true, if fault.Mute? then [] else Listing(c, t.chains[c], t.header)) else failed
      case AddMarkChain => if t.present then Reply(WithChains(t, {Mark}), true, []) else failed
      case Insert(c, text) =>
        if Acceptable(t, c, text) then
          Reply(t.(chains := t.chains[c := [Rule(t.next, text)] + t.chains[c]], next := t.next + 1), true,
                if fault.Mute? then [] else Echo(c, text, t.next))
        else failed
      case Delete(c, h) =>
        if c in t.chains && h in HandlesOf(t.chains[c]) then
          Reply(t.(chains := t.chains[c := Without(t.chains[c], h)]), true, [])
        else failed
  }

  // A chain that is not there has no rules.
  function View(t: Table, c: Chain): seq<Rule> {
    if c in t.chains then t.chains[c] else []
  }

  function HandlesOf(rules: seq<Rule>): set<nat> {
    set i | 0 <= i < |rules| :: rules[i].handle
  }

  predicate Distinct(rules: seq<Rule>) {
    forall i, j :: 0 <= i < j < |rules| ==> rules[i].handle != rules[j].handle
  }

  // Handles are positive, already handed out, and never shared by two rules.
  ghost predicate Valid(t: Table) {
    && t.next > 0
    && (forall c, h :: c in t.chains && h in HandlesOf(t.chains[c]) ==> 0 < h < t.next)
    && (forall c :: c in t.chains ==> Distinct(t.chains[c]))
    && (forall c, d :: c in t.chains && d in t.chains && c != d ==> HandlesOf(t.chains[c]) !! HandlesOf(t.chains[d]))
  }

  lemma HandlesOfCons(r: Rule, rules: seq<Rule>)
    ensures HandlesOf([r] + rules) == {r.handle} + HandlesOf(rules)
    ensures Distinct([r] + rules) <==> Distinct(rules) && r.handle !in HandlesOf(rules)
  {
    var all := [r] + rules;
    assert all[0] == r;
    forall i | 0 <= i < |rules| ensures rules[i] == all[i + 1] {
    }
    forall h ensures h in HandlesOf(all) <==> h in {r.handle} + HandlesOf(rules) {
      if h in HandlesOf(rules) {
        var i :| 0 <= i < |rules| && rules[i].handle == h;
        assert all[i + 1].handle == h;
      }
    }
    if Distinct(all) {
      forall i, j | 0 <= i < j < |rules| ensures rules[i].handle != rules[j].handle {
        assert all[i + 1].handle != all[j + 1].handle;
      }
      forall i | 0 <= i < |rules| ensures rules[i].handle != r.handle {
        assert all[0].handle != all[i + 1].handle;
      }
    }
  }

  lemma {:induction false} HandlesOfWithout(rules: seq<Rule>, h: nat)
    requires Distinct(rules)
    ensures HandlesOf(Without(rules, h)) == HandlesOf(rules) - {h}
    ensures Distinct(Without(rules, h))
    ensures forall r :: r in Without(rules, h) <==> r in rules && r.handle != h
  {
    if rules != [] {
      var first, rest := rules[0], rules[1..];
      assert rules == [first] + rest;
      HandlesOfCons(first, rest);
      if first.handle == h {
        assert forall r :: r in rest ==> r.handle in HandlesOf(rest);
      } else {
        HandlesOfWithout(rest, h);
        HandlesOfCons(first, Without(rest, h));
      }
    }
  }

  lemma {:induction false} WithoutAbsent(rules: seq<Rule>, h: nat)
    requires h !in HandlesOf(rules)
    ensures Without(rules, h) == rules
  {
    if rules != [] {
      assert rules == [rules[0]] + rules[1..];
      HandlesOfCons(rules[0], rules[1..]);
      WithoutAbsent(rules[1..], h);
    }
  }

  lemma ReplaceKeepsValid(t: Table, c: Chain, rules: seq<Rule>, next: nat)
    requires Valid(t) && c in t.chains && t.next <= next
    requires Distinct(rules)
    requires forall h :: h in HandlesOf(rules) ==> h in HandlesOf(t.chains[c]) || t.next <= h < next
    ensures Valid(t.(chains := t.chains[c := rules], next := next))
  {
  }

  lemma ExecKeepsValid(t: Table, cmd: Command, fault: Fault)
    requires Valid(t)
    ensures Valid(Exec(t, cmd, fault).table)
  {
    if cmd.Delete? {
      if cmd.chain in t.chains {
        HandlesOfWithout(t.chains[cmd.chain], cmd.handle);
        ReplaceKeepsValid(t, cmd.chain, Without(t.chains[cmd.chain], cmd.handle), t.next);
      }
    } else if cmd.Insert? {
      if cmd.chain in t.chains {
        HandlesOfCons(Rule(t.next, cmd.text), t.chains[cmd.chain]);
        ReplaceKeepsValid(t, cmd.chain, [Rule(t.next, cmd.text)] + t.chains[cmd.chain], t.next + 1);
      }
    }
  }

  // ---- First match finds the rule that was inserted last ----

  lemma HandleInSuffix(digits: string)
    requires digits != "" && AllDigits(digits)
    ensures MatchHandle(" # handle " + digits) == Some(digits)
  {
    var line := " # handle " + digits;
    assert line[1..][..9] == "# handle " && line[1..][9..] == digits + "";
    DigitsOfNumeral(digits, "");
  }

  // A match cannot start in front of the '#'.
  lemma {:induction false} HandleBehind(text: string, rest: string)
    requires '#' !in text && rest != "" && rest[0] != '#'
    ensures MatchHandle(text + rest) == MatchHandle(rest)
  {
    if text == "" {
      assert text + rest == rest;
    } else {
      assert (text + rest)[1..] == text[1..] + rest && (text + rest)[0] == text[0];
      assert !StartsWith(text + rest, "# handle ");
      HandleBehind(text[1..], rest);
    }
  }

  lemma HandleAtEnd(text: string, h: nat)
    requires '#' !in text
    ensures MatchHandle(text + HandleSuffix(h)) == Some(Dec(h))
  {
    HandleInSuffix(Dec(h));
    HandleBehind(text, HandleSuffix(h));
  }

  lemma HandleOfPrinted(text: string, h: nat)
    requires '#' !in text && h <= MAX_INT
    ensures HandleOf(text + HandleSuffix(h)) == Some(h)
  {
    HandleAtEnd(text, h);
    ValueOfDec(h);
  }

  lemma EchoIsParsed(c: Chain, text: string, h: nat)
    requires '#' !in text && h <= MAX_INT
    ensures ParseHandle(Echo(c, text, h)) == Some(h)
  {
    HandleOfPrinted("insert rule ip qnatter " + ChainName(c) + " " + text, h);
  }

  // Every rule spec of the program starts with "ip daddr " or "ip saddr ".
  predicate IsSpec(text: string) {
    StartsWith(text, "ip daddr ") || StartsWith(text, "ip saddr ")
  }

  predicate DoubleD(s: string) {
    exists i :: 0 < i < |s| && s[i - 1] == 'd' && s[i] == 'd'
  }

  lemma SpecHasDoubleD(spec: string, line: string)
    requires IsSpec(spec) && Contains(line, spec)
    ensures DoubleD(line)
  {
    var i: nat :| i <= |line| && OccursAt(line, spec, i);
    assert spec[..9][5] == 'd' && spec[..9][6] == 'd';
    assert line[i + 5] == line[i..i + |spec|][5] && line[i + 6] == line[i..i + |spec|][6];
  }

  lemma NoDoubleDInSuffix(prefix: string, h: nat)
    requires !DoubleD(prefix)
    ensures !DoubleD(prefix + HandleSuffix(h))
  {
    var line := prefix + HandleSuffix(h);
    var n := |prefix|;
    assert forall j :: 0 <= j < |Dec(h)| ==> IsDigit(Dec(h)[j]);
    forall i | 0 < i < |line| && line[i] == 'd' ensures line[i - 1] != 'd' {
      assert i < n || i == n + 6 by {
        if i >= n {
          assert line[i] == HandleSuffix(h)[i - n];
        }
      }
      if i >= n {
        assert line[i - 1] == HandleSuffix(h)[5] == 'n';
      } else {
        assert line[i - 1] == prefix[i - 1] && line[i] == prefix[i];
      }
    }
  }

  lemma HeaderHasNoDoubleD(c: Chain, header: nat, k: nat)
    requires k < 2
    ensures !DoubleD(Listing(c, [], header)[k])
  {
    if k == 0 {
      NoDoubleDInSuffix("table ip qnatter {", header);
    } else {
      assert !DoubleD(ChainName(c));
      var prefix := "\tchain " + ChainName(c) + " {";
      forall i | 0 < i < |prefix| && prefix[i] == 'd' ensures prefix[i - 1] != 'd' {
        assert 7 <= i < 7 + |ChainName(c)|;
        assert prefix[i] == ChainName(c)[i - 7];
      }
      NoDoubleDInSuffix(prefix, header);
    }
  }

  lemma HeaderDoesNotMatch(c: Chain, rules: seq<Rule>, header: nat, spec: string, k: nat)
    requires IsSpec(spec) && k < 2
    ensures !Contains(Listing(c, rules, header)[k], spec)
  {
    var line := Listing(c, rules, header)[k];
    HeaderHasNoDoubleD(c, header, k);
    assert line == Listing(c, [], header)[k];
    if Contains(line, spec) {
      SpecHasDoubleD(spec, line);
    }
  }

  lemma RuleMatches(r: Rule, spec: string)
    requires r.text == spec && '#' !in spec && r.handle <= MAX_INT
    ensures Contains(RuleLine(r), spec) && HandleOf(RuleLine(r)) == Some(r.handle)
  {
    assert OccursAt(RuleLine(r), spec, 2);
    HandleOfPrinted("\t\t" + spec, r.handle);
  }

  // Lines that do not contain the spec are passed over.
  lemma {:induction false} LookupPasses(output: seq<string>, spec: string, n: nat)
    requires n <= |output| && spec != "" && forall k :: 0 <= k < n ==> !Contains(output[k], spec)
    ensures LookupRuleHandle(output, spec) == LookupRuleHandle(output[n..], spec)
  {
    if n > 0 {
      LookupPasses(output[1..], spec, n - 1);
      assert output[1..][n - 1..] == output[n..];
    } else {
      assert output[0..] == output;
    }
  }

  // Some rule in front of rule k has the spec in its line.
  predicate Overtaken(rules: seq<Rule>, k: nat, spec: string)
    requires k <= |rules|
  {
    exists j :: 0 <= j < k && Contains(RuleLine(rules[j]), spec)
  }

  lemma ListingLines(c: Chain, rules: seq<Rule>, header: nat)
    ensures |Listing(c, rules, header)| == |rules| + 4
    ensures forall i :: 0 <= i < |rules| ==> Listing(c, rules, header)[i + 2] == RuleLine(rules[i])
  {
  }

  lemma FirstMatchIsFound(c: Chain, rules: seq<Rule>, header: nat, spec: string, k: nat)
    requires IsSpec(spec) && k < |rules| && !Overtaken(rules, k, spec)
    requires Contains(RuleLine(rules[k]), spec) && HandleOf(RuleLine(rules[k])).Some?
    ensures LookupRuleHandle(Listing(c, rules, header), spec) == HandleOf(RuleLine(rules[k]))
  {
    var lines := Listing(c, rules, header);
    ListingLines(c, rules, header);
    forall i | 0 <= i < k + 2 ensures !Contains(lines[i], spec) {
      if i < 2 {
        HeaderDoesNotMatch(c, rules, header, spec, i);
      } else {
        assert lines[i - 2 + 2] == RuleLine(rules[i - 2]);
      }
    }
    LookupPasses(lines, spec, k + 2);
    assert lines[k + 2..][0] == lines[k + 2] == RuleLine(rules[k]);
  }

  // A rule not overtaken is found by its text.
  lemma OwnRuleIsFound(c: Chain, rules: seq<Rule>, header: nat, spec: string, k: nat)
    requires IsSpec(spec) && '#' !in spec && k < |rules| && rules[k].text == spec && rules[k].handle <= MAX_INT
    requires !Overtaken(rules, k, spec)
    ensures LookupRuleHandle(Listing(c, rules, header), spec) == Some(rules[k].handle)
  {
    RuleMatches(rules[k], spec);
    FirstMatchIsFound(c, rules, header, spec, k);
  }

  lemma FirstOvertaking(rules: seq<Rule>, k: nat, spec: string) returns (j: nat)
    requires k <= |rules| && Overtaken(rules, k, spec)
    ensures j < k && Contains(RuleLine(rules[j]), spec) && !Overtaken(rules, j, spec)
  {
    j := 0;
    while !Contains(RuleLine(rules[j]), spec)
      invariant j < k && forall i :: 0 <= i < j ==> !Contains(RuleLine(rules[i]), spec)
      invariant exists i :: j <= i < k && Contains(RuleLine(rules[i]), spec)
      decreases k - j
    {
      j := j + 1;
    }
  }

  // The lookup finds a rule by its text if and only if no rule in front of it has that
  // text in its line; otherwise it finds the first such rule.
  lemma RuleIsFoundExactly(c: Chain, rules: seq<Rule>, header: nat, spec: string, k: nat) returns (j: nat)
    requires IsSpec(spec) && '#' !in spec && k < |rules| && rules[k].text == spec && Distinct(rules)
    requires forall i :: 0 <= i <= k ==> '#' !in rules[i].text && rules[i].handle <= MAX_INT
    ensures j <= k && LookupRuleHandle(Listing(c, rules, header), spec) == Some(rules[j].handle)
    ensures j == k <==> !Overtaken(rules, k, spec)
    ensures LookupRuleHandle(Listing(c, rules, header), spec) == Some(rules[k].handle) <==> !Overtaken(rules, k, spec)
  {
    j := k;
    if Overtaken(rules, k, spec) {
      j := FirstOvertaking(rules, k, spec);
      HandleOfPrinted("\t\t" + rules[j].text, rules[j].handle);
      assert "\t\t" + rules[j].text + HandleSuffix(rules[j].handle) == RuleLine(rules[j]);
    } else {
      RuleMatches(rules[k], spec);
    }
    FirstMatchIsFound(c, rules, header, spec, j);
  }

  // The rule at the head of its chain is always found.
  lemma NewestRuleIsFound(c: Chain, h: nat, spec: string, older: seq<Rule>, header: nat)
    requires IsSpec(spec) && '#' !in spec && h <= MAX_INT
    ensures LookupRuleHandle(Listing(c, [Rule(h, spec)] + older, header), spec) == Some(h)
  {
    var rules := [Rule(h, spec)] + older;
    assert rules[0] == Rule(h, spec);
    OwnRuleIsFound(c, rules, header, spec, 0);
  }

  // The form of an echo and of a listed rule.
  lemma PrintedForms(text: string, h: nat)
    ensures Echo(Dnat, text, h) == ["insert rule ip qnatter qnatter_dnat " + text + " # handle " + Dec(h)]
    ensures Echo(Snat, text, h) == ["insert rule ip qnatter qnatter_snat " + text + " # handle " + Dec(h)]
    ensures Echo(Mark, text, h) == ["insert rule ip qnatter qnatter_mark " + text + " # handle " + Dec(h)]
    ensures RuleLine(Rule(h, text)) == "\t\t" + text + " # handle " + Dec(h)
  {
    EchoForm("insert rule ip qnatter ", "qnatter_dnat", "insert rule ip qnatter qnatter_dnat ", text, Dec(h));
    EchoForm("insert rule ip qnatter ", "qnatter_snat", "insert rule ip qnatter qnatter_snat ", text, Dec(h));
    EchoForm("insert rule ip qnatter ", "qnatter_mark", "insert rule ip qnatter qnatter_mark ", text, Dec(h));
  }

  lemma EchoForm(a: string, b: string, head: string, c: string, d: string)
    requires head == a + b + " "
    ensures a + b + " " + c + (" # handle " + d) == head + c + " # handle " + d
  {
  }
}
