// What the rules of a forwarder do to packets, told from the words of their texts as
// nft reads them (forward/nftables.go:55-97).

module RuleMeaning {
  import opened Text
  import opened Splitting
  import opened NftKernel
  import opened NftAutomaton
  import opened NftForwarder

  // A packet at a hook: ctMark is the mark of its connection, mark its own.
  datatype Packet = Packet(udp: bool, src: string, sport: nat, dst: string, dport: nat, ctMark: string, mark: string)

  // Unread: the rule is in a form not described here.
  datatype Outcome = Unread | NoMatch | Done(packet: Packet)

  // ---- Reading a rule ----

  predicate IsNumber(word: string) {
    word != "" && AllDigits(word)
  }

  function Address(target: string, p: Packet): Outcome {
    var parts := Split(target, ':');
    if |parts| == 2 && IsNumber(parts[1]) then Done(p.(dst := parts[0], dport := Value(parts[1]))) else Unread
  }

  // Matches are tried and statements carried out from left to right.
  function Perform(words: seq<string>, p: Packet): Outcome {
    if words == [] then Done(p)
    else if |words| < 3 then Unread
    else
      var a, b, v, rest := words[0], words[1], words[2], words[3..];
      if a == "ip" && b == "daddr" then if p.dst == v then Perform(rest, p) else NoMatch
      else if a == "ip" && b == "saddr" then if p.src == v then Perform(rest, p) else NoMatch
      else if (a == "tcp" || a == "udp") && (b == "dport" || b == "sport") then
        if !IsNumber(v) then Unread
        else if p.udp == (a == "udp") && Value(v) == (if b == "dport" then p.dport else p.sport) then Perform(rest, p)
        else NoMatch
      else if a == "ct" && b == "mark" && v == "set" then
        if rest == [] then Unread else Perform(rest[1..], p.(ctMark := rest[0]))
      else if a == "ct" && b == "mark" then if p.ctMark == v then Perform(rest, p) else NoMatch
      else if a == "meta" && b == "mark" && v == "set" then
        if rest == [] then Unread else Perform(rest[1..], p.(mark := rest[0]))
      else if a == "dnat" && b == "to" && rest == [] then Address(v, p)
      else if a == "snat" && b == "to" && rest == [] then Done(p.(src := v))
      else Unread
  }

  function Effect(text: string, p: Packet): Outcome {
    Perform(Split(text, ' '), p)
  }

  // ---- The texts, word by word ----

  predicate IsWord(s: string) {
    s != "" && ' ' !in s
  }

  // An IPv4 address in dotted form.
  predicate IsAddress(a: string) {
    a != "" && forall i :: 0 <= i < |a| ==> IsDigit(a[i]) || a[i] == '.'
  }

  // A mark is written as a number.
  predicate IsMark(m: string) {
    IsWord(m) && IsDigit(m[0])
  }

  lemma NextWord(w: string, rest: string)
    requires ' ' !in w
    ensures Split(w + " " + rest, ' ') == [w] + Split(rest, ' ')
  {
    SplitFirst(w, rest, ' ');
  }

  lemma NumeralIsWord(n: nat)
    ensures IsWord(Dec(n)) && ':' !in Dec(n)
  {
  }

  lemma FirstTwo(first: string, second: string, rest: string)
    requires ' ' !in first && ' ' !in second
    ensures Split(first + " " + second + " " + rest, ' ') == [first, second] + Split(rest, ' ')
  {
    NextWord(first, second + " " + rest);
    NextWord(second, rest);
    assert first + " " + second + " " + rest == first + " " + (second + " " + rest);
  }

  lemma MatchRegroups(a: string, b: string, c: string, d: string, e: string)
    ensures a + " " + b + " " + c + " " + d + " " + e == a + " " + b + " " + (c + " " + d + " " + e)
  {
  }

  lemma WordsRegroup(a: string, b: string, c: string, d: string, e: string, f: string, words: seq<string>)
    ensures [a, b] + ([c, d] + ([e, f] + words)) == [a, b, c] + ([d, e, f] + words)
  {
  }

  // The words of a match on an address, a protocol and a port, and of what follows.
  lemma MatchWords(side: string, addr: string, proto: string, port: string, number: string, tail: string)
    requires ' ' !in side && ' ' !in addr && ' ' !in proto && ' ' !in port && ' ' !in number
    ensures Split("ip " + side + " " + (addr + " " + proto + " " + port + " " + number + " " + tail), ' ')
         == ["ip", side, addr] + ([proto, port, number] + Split(tail, ' '))
  {
    FirstTwo("ip", side, addr + " " + proto + " " + port + " " + number + " " + tail);
    assert "ip" + " " == "ip ";
    FirstTwo(addr, proto, port + " " + number + " " + tail);
    FirstTwo(port, number, tail);
    MatchRegroups(addr, proto, port, number, tail);
    WordsRegroup("ip", side, addr, proto, port, number, Split(tail, ' '));
  }

  lemma PerformAddress(side: string, addr: string, rest: seq<string>, p: Packet)
    requires side == "daddr" || side == "saddr"
    ensures Perform(["ip", side, addr] + rest, p)
         == if (if side == "daddr" then p.dst else p.src) == addr then Perform(rest, p) else NoMatch
  {
    var words := ["ip", side, addr] + rest;
    assert words[3..] == rest;
  }

  lemma PerformPort(udp: bool, side: string, n: nat, rest: seq<string>, p: Packet)
    requires side == "dport" || side == "sport"
    ensures Perform([if udp then "udp" else "tcp", side, Dec(n)] + rest, p)
         == if p.udp == udp && (if side == "dport" then p.dport else p.sport) == n then Perform(rest, p) else NoMatch
  {
    var words := [if udp then "udp" else "tcp", side, Dec(n)] + rest;
    assert words[3..] == rest;
    ValueOfDec(n);
  }

  // A rule that matches an address, a protocol and a port, and goes on with tail.
  lemma MatchingRule(o: Options, to: bool, addr: string, n: nat, tail: string, p: Packet)
    requires IsAddress(addr)
    ensures Effect("ip " + (if to then "daddr" else "saddr") + " "
                   + (addr + " " + Protocol(o) + " " + (if to then "dport" else "sport") + " " + Dec(n) + " " + tail), p)
         == if p.udp == o.udp && (if to then p.dst == addr && p.dport == n else p.src == addr && p.sport == n)
            then Effect(tail, p) else NoMatch
  {
    var side, port := if to then "daddr" else "saddr", if to then "dport" else "sport";
    AddressIsWord(addr);
    NumeralIsWord(n);
    MatchWords(side, addr, Protocol(o), port, Dec(n), tail);
    PerformAddress(side, addr, [Protocol(o), port, Dec(n)] + Split(tail, ' '), p);
    PerformPort(o.udp, port, n, Split(tail, ' '), p);
  }

  lemma AddressIsWord(a: string)
    requires IsAddress(a)
    ensures IsWord(a) && ':' !in a
  {
  }

  // ---- What follows a match ----

  lemma LastWords(first: string, second: string, v: string)
    requires ' ' !in first && ' ' !in second && ' ' !in v
    ensures Split(first + " " + second + " " + v, ' ') == [first, second, v]
  {
    FirstTwo(first, second, v);
    SplitNone(v, ' ');
  }

  lemma DnatTo(addr: string, n: nat, p: Packet)
    requires IsAddress(addr)
    ensures Effect("dnat to " + (addr + ":" + Dec(n)), p) == Done(p.(dst := addr, dport := n))
  {
    var target := addr + ":" + Dec(n);
    AddressIsWord(addr);
    NumeralIsWord(n);
    LastWords("dnat", "to", target);
    assert "dnat" + " " + "to" + " " + target == "dnat to " + target;
    SplitFirst(addr, Dec(n), ':');
    SplitNone(Dec(n), ':');
    ValueOfDec(n);
  }

  lemma SnatTo(addr: string, p: Packet)
    requires IsAddress(addr)
    ensures Effect("snat to " + addr, p) == Done(p.(src := addr))
  {
    AddressIsWord(addr);
    LastWords("snat", "to", addr);
    assert "snat" + " " + "to" + " " + addr == "snat to " + addr;
  }

  lemma SetWords(subject: string, m: string)
    requires ' ' !in subject && ' ' !in m
    ensures Split(subject + " mark set " + m, ' ') == [subject, "mark", "set", m]
  {
    FirstTwo(subject, "mark", "set " + m);
    NextWord("set", m);
    SplitNone(m, ' ');
    assert subject + " " + "mark" + " " + ("set " + m) == subject + " mark set " + m;
    assert "set" + " " + m == "set " + m;
  }

  lemma SetIsLast(subject: string, m: string)
    ensures [subject, "mark", "set", m][3..] == [m] && [m][1..] == []
  {
  }

  lemma CtMarkSet(m: string, p: Packet)
    requires IsMark(m)
    ensures Effect("ct mark set " + m, p) == Done(p.(ctMark := m))
  {
    SetWords("ct", m);
    SetIsLast("ct", m);
    assert Perform([], p.(ctMark := m)) == Done(p.(ctMark := m));
    assert "ct" + " mark set " + m == "ct mark set " + m;
  }

  lemma MetaMarkSet(m: string, p: Packet)
    requires IsMark(m)
    ensures Effect("meta mark set " + m, p) == Done(p.(mark := m))
  {
    SetWords("meta", m);
    SetIsLast("meta", m);
    assert Perform([], p.(mark := m)) == Done(p.(mark := m));
    assert "meta" + " mark set " + m == "meta mark set " + m;
  }

  lemma CtMarkIs(m: string, tail: string, p: Packet)
    requires IsMark(m)
    ensures Effect("ct mark " + m + " " + tail, p) == if p.ctMark == m then Effect(tail, p) else NoMatch
  {
    var words := Split(tail, ' ');
    FirstTwo("ct", "mark", m + " " + tail);
    NextWord(m, tail);
    assert "ct" + " " + "mark" + " " + (m + " " + tail) == "ct mark " + m + " " + tail;
    assert (["ct", "mark"] + ([m] + words))[3..] == words;
    assert m != "set" by {
      assert !IsDigit("set"[0]);
    }
  }

  // ---- The four rules ----

  // The texts the rules are made of are as nft reads them.
  predicate Written(o: Options, routeSource: Option<string>) {
    && IsAddress(o.ip) && IsAddress(o.targetIp)
    && (o.snatIp == "" || IsAddress(o.snatIp))
    && (routeSource.None? || routeSource.value == "" || IsAddress(routeSource.value))
  }

  // A packet for the address and port that is opened, and one for the target.
  predicate Incoming(o: Options, p: Packet) {
    p.udp == o.udp && p.dst == o.ip && p.dport == o.port
  }

  predicate ForTarget(o: Options, p: Packet) {
    p.udp == o.udp && p.dst == o.targetIp && p.dport == o.targetPort
  }

  predicate FromTarget(o: Options, p: Packet) {
    p.udp == o.udp && p.src == o.targetIp && p.sport == o.targetPort
  }

  // Exactly the packets for the opened port are sent to the target.
  lemma DnatRule(o: Options, useSnat: bool, routeSource: Option<string>, policyOk: bool, p: Packet)
    requires Written(o, routeSource)
    ensures Effect(SpecOf(PlanFor(o, useSnat, routeSource, policyOk), DnatSlot), p)
         == if Incoming(o, p) then Done(p.(dst := o.targetIp, dport := o.targetPort)) else NoMatch
  {
    var target := o.targetIp + ":" + Dec(o.targetPort);
    MatchingRule(o, true, o.ip, o.port, "dnat to " + target, p);
    DnatTo(o.targetIp, o.targetPort, p);
    DnatText(o.ip, Protocol(o), Dec(o.port), o.targetIp, Dec(o.targetPort));
  }

  // Exactly the packets for the target are given another source: the configured address,
  // else the one the route to the target reports, else the opened one.
  lemma SnatRule(o: Options, useSnat: bool, routeSource: Option<string>, policyOk: bool, p: Packet) returns (source: string)
    requires Written(o, routeSource)
    ensures Effect(SpecOf(PlanFor(o, useSnat, routeSource, policyOk), SnatSlot), p)
         == if ForTarget(o, p) then Done(p.(src := source)) else NoMatch
    ensures o.snatIp != "" ==> source == o.snatIp
    ensures o.snatIp == "" && routeSource.Some? && routeSource.value != "" ==> source == routeSource.value
    ensures o.snatIp == "" && (routeSource.None? || routeSource.value == "") ==> source == o.ip
  {
    source := SnatAddress(o, routeSource);
    MatchingRule(o, true, o.targetIp, o.targetPort, "snat to " + source, p);
    SnatTo(source, p);
    SnatText(o.targetIp, Protocol(o), Dec(o.targetPort), source);
  }

  // The connections of exactly the packets for the opened port are marked.
  lemma ConnMarkRule(o: Options, useSnat: bool, routeSource: Option<string>, policyOk: bool, p: Packet)
    requires Written(o, routeSource) && IsMark(MarkOf(o))
    ensures Effect(SpecOf(PlanFor(o, useSnat, routeSource, policyOk), ConnSlot), p)
         == if Incoming(o, p) then Done(p.(ctMark := MarkOf(o))) else NoMatch
  {
    MatchingRule(o, true, o.ip, o.port, "ct mark set " + MarkOf(o), p);
    CtMarkSet(MarkOf(o), p);
    ConnText(o.ip, Protocol(o), Dec(o.port), MarkOf(o));
  }

  // Exactly the target's replies on such connections are marked for routing.
  lemma RouteMarkRule(o: Options, useSnat: bool, routeSource: Option<string>, policyOk: bool, p: Packet)
    requires Written(o, routeSource) && IsMark(MarkOf(o))
    ensures Effect(SpecOf(PlanFor(o, useSnat, routeSource, policyOk), RouteSlot), p)
         == if FromTarget(o, p) && p.ctMark == MarkOf(o) then Done(p.(mark := MarkOf(o))) else NoMatch
  {
    var m, last := MarkOf(o), "meta mark set " + MarkOf(o);
    MatchingRule(o, false, o.targetIp, o.targetPort, "ct mark " + m + " " + last, p);
    CtMarkIs(m, last, p);
    MetaMarkSet(m, p);
    RouteText(o.targetIp, Protocol(o), Dec(o.targetPort), m);
  }

  // The texts, regrouped word by word.
  lemma DnatText(addr: string, proto: string, n: string, target: string, k: string)
    ensures "ip daddr " + (addr + " " + proto + " dport " + n + " dnat to " + target + ":" + k)
         == "ip " + "daddr" + " " + (addr + " " + proto + " " + "dport" + " " + n + " " + ("dnat to " + (target + ":" + k)))
  {
  }

  lemma SnatText(addr: string, proto: string, n: string, source: string)
    ensures "ip daddr " + (addr + " " + proto + " dport " + n + " snat to " + source)
         == "ip " + "daddr" + " " + (addr + " " + proto + " " + "dport" + " " + n + " " + ("snat to " + source))
  {
  }

  lemma ConnText(addr: string, proto: string, n: string, m: string)
    ensures "ip daddr " + (addr + " " + proto + " dport " + n + " ct mark set " + m)
         == "ip " + "daddr" + " " + (addr + " " + proto + " " + "dport" + " " + n + " " + ("ct mark set " + m))
  {
  }

  lemma RouteText(addr: string, proto: string, n: string, m: string)
    ensures "ip saddr " + (addr + " " + proto + " sport " + n + " ct mark " + m + " meta mark set " + m)
         == "ip " + "saddr" + " " + (addr + " " + proto + " " + "sport" + " " + n + " " + ("ct mark " + m + " " + ("meta mark set " + m)))
  {
    var tail := "ct mark " + m + " " + ("meta mark set " + m);
    assert " ct mark " + m + " meta mark set " + m == " " + tail;
    assert addr + " " + proto + " sport " + n + " ct mark " + m + " meta mark set " + m
        == addr + " " + proto + " sport " + n + (" ct mark " + m + " meta mark set " + m);
  }

  // The mark is the configured one if the policy is complete, and that of slot 0 otherwise.
  lemma MarkIs(o: Options)
    ensures o.routeMark != "" && o.routeTable != "" && o.routePriority != "" ==> MarkOf(o) == o.routeMark
    ensures o.routeMark == "" || o.routeTable == "" || o.routePriority == "" ==> MarkOf(o) == "0x4e000000" && IsMark(MarkOf(o))
  {
  }

  // ---- The chains after Start ----

  // What one rule makes of a packet; None if it does not match. Rules in other forms do
  // whatever other says.
  function Does(other: (string, Packet) -> Option<Packet>, text: string, p: Packet): Option<Packet> {
    match Effect(text, p)
    case Unread => other(text, p)
    case NoMatch => None
    case Done(q) => Some(q)
  }

  // In a chain of translations the first rule that matches decides.
  function First(other: (string, Packet) -> Option<Packet>, rules: seq<Rule>, p: Packet): Option<Packet> {
    if rules == [] then None
    else if Does(other, rules[0].text, p).Some? then Does(other, rules[0].text, p)
    else First(other, rules[1..], p)
  }

  // In a chain of marks every rule has its turn.
  function Through(other: (string, Packet) -> Option<Packet>, rules: seq<Rule>, p: Packet): Packet {
    if rules == [] then p
    else
      var q := Does(other, rules[0].text, p);
      Through(other, rules[1..], if q.Some? then q.value else p)
  }

  lemma InFront(other: (string, Packet) -> Option<Packet>, r: Rule, older: seq<Rule>, p: Packet)
    ensures First(other, [r] + older, p) == if Does(other, r.text, p).Some? then Does(other, r.text, p) else First(other, older, p)
    ensures Through(other, [r] + older, p)
         == Through(other, older, if Does(other, r.text, p).Some? then Does(other, r.text, p).value else p)
  {
    assert ([r] + older)[1..] == older;
  }

  // What Start has built.
  ghost predicate Installed(t0: Table, t: Table, o: Options, useSnat: bool, routeSource: Option<string>, policyOk: bool, h: Handles) {
    Built(t0, t, PlanFor(o, useSnat, routeSource, policyOk), h, NothingLost) && Complete(h, useSnat, o.iface != "")
  }

  // After Start, packets for the opened port go to the target whatever other rules there
  // are, and all other packets fare as before.
  lemma OpenedPortIsForwarded(other: (string, Packet) -> Option<Packet>, t0: Table, t: Table, o: Options, useSnat: bool,
                              routeSource: Option<string>, policyOk: bool, h: Handles, p: Packet)
    requires Installed(t0, t, o, useSnat, routeSource, policyOk, h) && Written(o, routeSource)
    ensures First(other, View(t, Dnat), p)
         == if Incoming(o, p) then Some(p.(dst := o.targetIp, dport := o.targetPort)) else First(other, View(t0, Dnat), p)
  {
    var r := Rule(h.dnat, SpecOf(PlanFor(o, useSnat, routeSource, policyOk), DnatSlot));
    DnatRule(o, useSnat, routeSource, policyOk, p);
    InFront(other, r, View(t0, Dnat), p);
    assert View(t, Dnat) == [] + [r] + View(t0, Dnat) == [r] + View(t0, Dnat);
  }

  lemma SnatChain(t0: Table, t: Table, plan: Plan, h: Handles, r: Rule)
    requires Built(t0, t, plan, h, NothingLost) && r == Rule(h.snat, SpecOf(plan, SnatSlot))
    ensures View(t, Snat) == if h.snat > 0 then [r] + View(t0, Snat) else View(t0, Snat)
  {
    assert View(t, Snat) == [] + RuleOf(plan, h, SnatSlot) + View(t0, Snat);
  }

  // Packets for the target get their new source if source translation is on, and fare
  // as before if it is not.
  lemma TargetSeesSource(other: (string, Packet) -> Option<Packet>, t0: Table, t: Table, o: Options, useSnat: bool,
                         routeSource: Option<string>, policyOk: bool, h: Handles, p: Packet) returns (source: string)
    requires Installed(t0, t, o, useSnat, routeSource, policyOk, h) && Written(o, routeSource)
    ensures First(other, View(t, Snat), p)
         == if useSnat && ForTarget(o, p) then Some(p.(src := source)) else First(other, View(t0, Snat), p)
    ensures o.snatIp != "" ==> source == o.snatIp
    ensures o.snatIp == "" && routeSource.Some? && routeSource.value != "" ==> source == routeSource.value
    ensures o.snatIp == "" && (routeSource.None? || routeSource.value == "") ==> source == o.ip
  {
    source := SnatRule(o, useSnat, routeSource, policyOk, p);
    var r := Rule(h.snat, SpecOf(PlanFor(o, useSnat, routeSource, policyOk), SnatSlot));
    SnatChain(t0, t, PlanFor(o, useSnat, routeSource, policyOk), h, r);
    InFront(other, r, View(t0, Snat), p);
  }

  lemma MarkChain(t0: Table, t: Table, plan: Plan, h: Handles, route: Rule, conn: Rule)
    requires Built(t0, t, plan, h, NothingLost) && (h.conn > 0 <==> h.route > 0)
    requires route == Rule(h.route, SpecOf(plan, RouteSlot)) && conn == Rule(h.conn, SpecOf(plan, ConnSlot))
    ensures View(t, Mark) == if h.conn > 0 then [route] + ([conn] + View(t0, Mark)) else View(t0, Mark)
  {
    assert View(t, Mark) == [] + (RuleOf(plan, h, RouteSlot) + RuleOf(plan, h, ConnSlot)) + View(t0, Mark);
  }

  // With a routing policy, the connections to the opened port are marked, and so are the
  // target's packets on them; nothing else changes.
  lemma RepliesAreMarked(other: (string, Packet) -> Option<Packet>, t0: Table, t: Table, o: Options, useSnat: bool,
                         routeSource: Option<string>, policyOk: bool, h: Handles, p: Packet)
    requires Installed(t0, t, o, useSnat, routeSource, policyOk, h) && Written(o, routeSource)
    requires o.iface != "" ==> IsMark(MarkOf(o))
    ensures o.iface == "" ==> Through(other, View(t, Mark), p) == Through(other, View(t0, Mark), p)
    ensures o.iface != "" ==>
              var q := if FromTarget(o, p) && p.ctMark == MarkOf(o) then p.(mark := MarkOf(o)) else p;
              Through(other, View(t, Mark), p)
              == Through(other, View(t0, Mark), if Incoming(o, q) then q.(ctMark := MarkOf(o)) else q)
  {
    var plan := PlanFor(o, useSnat, routeSource, policyOk);
    var route, conn := Rule(h.route, SpecOf(plan, RouteSlot)), Rule(h.conn, SpecOf(plan, ConnSlot));
    MarkChain(t0, t, plan, h, route, conn);
    if o.iface != "" {
      var q := if FromTarget(o, p) && p.ctMark == MarkOf(o) then p.(mark := MarkOf(o)) else p;
      RouteMarkRule(o, useSnat, routeSource, policyOk, p);
      ConnMarkRule(o, useSnat, routeSource, policyOk, q);
      InFront(other, route, [conn] + View(t0, Mark), p);
      InFront(other, conn, View(t0, Mark), q);
    }
  }
}
