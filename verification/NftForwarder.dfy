// The nftables forwarder (forward/nftables_executor.go): Start inserts up to four
// rules and records their handles, Stop deletes by handle.

// The order in which one forwarder issues its commands, as an automaton. The class
// below is held to it command by command; NftInterleaving runs many of them at once.
module NftAutomaton {
  import opened Text
  import opened NftKernel

  datatype Slot = DnatSlot | SnatSlot | ConnSlot | RouteSlot

  datatype Options = Options(ip: string, port: nat, targetIp: string, targetPort: nat, snatIp: string, udp: bool, iface: string,
                             routeMark: string, routeTable: string, routePriority: string)

  // What one Start will do: the four rule texts, whether source NAT and the routing
  // policy are wanted, and whether the "ip" commands that set the policy up succeed.
  datatype Plan = Plan(dnat: string, snat: string, conn: string, route: string, useSnat: bool, usePolicy: bool, policyOk: bool)

  datatype Handles = Handles(dnat: nat, snat: nat, conn: nat, route: nat)

  datatype Pc =
    | Idle | Live
    | ProbeTable | MakeTable
    | Adding(slot: Slot)
    | Finding(slot: Slot) | Undoing(slot: Slot, handle: nat)
    | ProbeMark | MakeMark
    | Removing(slot: Slot)

  datatype Forwarder = Forwarder(pc: Pc, plan: Plan, h: Handles)

  const NO_HANDLES := Handles(0, 0, 0, 0)

  function ChainOf(s: Slot): Chain {
    match s
    case DnatSlot => Dnat
    case SnatSlot => Snat
    case ConnSlot => Mark
    case RouteSlot => Mark
  }

  function Get(h: Handles, s: Slot): nat {
    match s
    case DnatSlot => h.dnat
    case SnatSlot => h.snat
    case ConnSlot => h.conn
    case RouteSlot => h.route
  }

  function Set(h: Handles, s: Slot, v: nat): (r: Handles)
    ensures forall t :: Get(r, t) == if t == s then v else Get(h, t)
  {
    match s
    case DnatSlot => h.(dnat := v)
    case SnatSlot => h.(snat := v)
    case ConnSlot => h.(conn := v)
    case RouteSlot => h.(route := v)
  }

  // ---- Rule texts ----

  function SpecOf(p: Plan, s: Slot): string {
    match s
    case DnatSlot => p.dnat
    case SnatSlot => p.snat
    case ConnSlot => p.conn
    case RouteSlot => p.route
  }

  predicate WellWritten(p: Plan) {
    forall s :: IsSpec(SpecOf(p, s))
  }

  function Protocol(o: Options): string {
    if o.udp then "udp" else "tcp"
  }

  function SnatAddress(o: Options, routeSource: Option<string>): string {
    if o.snatIp != "" then o.snatIp
    else if routeSource.Some? && routeSource.value != "" then routeSource.value
    else o.ip
  }

  // The mark of slot 0 stands in for an incomplete policy.
  function MarkOf(o: Options): string {
    if o.routeMark != "" && o.routeTable != "" && o.routePriority != "" then o.routeMark else "0x4e000000"
  }

  // routeSource is what "ip route get" reports for the target.
  function PlanFor(o: Options, useSnat: bool, routeSource: Option<string>, policyOk: bool): (p: Plan)
    ensures WellWritten(p)
  {
    Plan("ip daddr " + (o.ip + " " + Protocol(o) + " dport " + Dec(o.port) + " dnat to " + o.targetIp + ":" + Dec(o.targetPort)),
         "ip daddr " + (o.targetIp + " " + Protocol(o) + " dport " + Dec(o.targetPort) + " snat to " + SnatAddress(o, routeSource)),
         "ip daddr " + (o.ip + " " + Protocol(o) + " dport " + Dec(o.port) + " ct mark set " + MarkOf(o)),
         "ip saddr " + (o.targetIp + " " + Protocol(o) + " sport " + Dec(o.targetPort) + " ct mark " + MarkOf(o) + " meta mark set " + MarkOf(o)),
         useSnat, o.iface != "", policyOk)
  }

  // ---- Command order ----

  function CommandOf(f: Forwarder): Option<Command> {
    match f.pc
    case Idle => None
    case Live => None
    case ProbeTable => Some(ListTable)
    case MakeTable => Some(CreateTable)
    case Adding(s) => Some(Insert(ChainOf(s), SpecOf(f.plan, s)))
    case Finding(s) => Some(ListChain(ChainOf(s)))
    case Undoing(s, h) => Some(Delete(ChainOf(s), h))
    case ProbeMark => Some(ListChain(Mark))
    case MakeMark => Some(AddMarkChain)
    case Removing(s) => Some(Delete(ChainOf(s), Get(f.h, s)))
  }

  // Stop visits the four handles in this order and skips those that are zero.
  function StopFrom(f: Forwarder): Forwarder {
    f.(pc := if f.h.dnat > 0 then Removing(DnatSlot)
             else if f.h.snat > 0 then Removing(SnatSlot)
             else if f.h.conn > 0 then Removing(ConnSlot)
             else if f.h.route > 0 then Removing(RouteSlot)
             else Idle)
  }

  function AfterRule(f: Forwarder, s: Slot): Forwarder {
    if s == DnatSlot && f.plan.useSnat then f.(pc := Adding(SnatSlot))
    else if s == DnatSlot || s == SnatSlot then
      if !f.plan.usePolicy then f.(pc := Live)
      else if f.plan.policyOk then f.(pc := ProbeMark)
      else StopFrom(f)
    else if s == ConnSlot then f.(pc := Adding(RouteSlot))
    else f.(pc := Live)
  }

  function Resume(f: Forwarder, ok: bool, output: seq<string>): Forwarder {
    match f.pc
    case Idle => f
    case Live => f
    case ProbeTable => f.(pc := if ok then Adding(DnatSlot) else MakeTable)
    case MakeTable => f.(pc := if ok then Adding(DnatSlot) else Idle)
    case Adding(s) =>
      if !ok then StopFrom(f)
      else if ParseHandle(output).Some? then AfterRule(f.(h := Set(f.h, s, ParseHandle(output).value)), s)
      else f.(pc := Finding(s))
    case Finding(s) =>
      var found := LookupRuleHandle(output, SpecOf(f.plan, s));
      if ok && found.Some? then f.(pc := Undoing(s, found.value)) else StopFrom(f)
    case Undoing(s, h) => StopFrom(f)
    case ProbeMark => f.(pc := if ok then Adding(ConnSlot) else MakeMark)
    case MakeMark => if ok then f.(pc := Adding(ConnSlot)) else StopFrom(f)
    case Removing(s) => StopFrom(f.(h := Set(f.h, s, 0)))
  }

  function Begin(p: Plan): Forwarder {
    Forwarder(ProbeTable, p, NO_HANDLES)
  }
}

module NftForwarder {
  import opened Text
  import opened NftKernel
  import opened NftAutomaton

  // A command, what went wrong with it, and whether nft reported success.
  datatype Event = Event(cmd: Command, fault: Fault, ok: bool)

  ghost predicate SameRules(t: Table, u: Table) {
    && t.chains.Keys <= u.chains.Keys
    && forall c :: View(t, c) == View(u, c)
  }

  // A command that takes a rule back: every delete, and the listing that looks
  // for a rule whose insertion printed no handle.
  predicate IsCleanup(log: seq<Event>, from: nat, i: nat)
    requires i < |log|
  {
    || log[i].cmd.Delete?
    || (log[i].cmd.ListChain? && i > from && log[i - 1].cmd.Insert? && log[i - 1].fault.Mute?)
  }

  // A command that does not do its work: refused, or a listing that prints nothing.
  predicate Fails(e: Event) {
    e.fault.Refuse? || (e.cmd.ListChain? && e.fault.Mute?)
  }

  // Some command that takes a rule back failed since position from.
  predicate CleanupFailed(log: seq<Event>, from: nat) {
    && |log| > from
    && (|| CleanupFailed(log[..|log| - 1], from)
        || (IsCleanup(log, from, |log| - 1) && Fails(log[|log| - 1])))
  }

  // A command that Start cannot do without, and that did not succeed: an insertion
  // without an echo, or the creation of what a probe did not find.
  predicate Blocks(e: Event) {
    || (e.cmd.Insert? && (!e.ok || e.fault.Mute?))
    || ((e.cmd.CreateTable? || e.cmd.AddMarkChain?) && !e.ok)
  }

  // No such command since position from.
  predicate Smooth(log: seq<Event>, from: nat) {
    |log| <= from || (Smooth(log[..|log| - 1], from) && !Blocks(log[|log| - 1]))
  }

  lemma FailedStep(log: seq<Event>, e: Event, from: nat)
    requires from <= |log|
    ensures CleanupFailed(log + [e], from) <==>
            CleanupFailed(log, from) || (IsCleanup(log + [e], from, |log|) && Fails(e))
    ensures Smooth(log + [e], from) <==> Smooth(log, from) && !Blocks(e)
  {
    assert (log + [e])[..|log|] == log;
  }

  // Only the rules of chain c may differ.
  ghost predicate OnlyChain(t: Table, u: Table, c: Chain) {
    && t.chains.Keys == u.chains.Keys
    && forall d :: d != c ==> View(t, d) == View(u, d)
  }

  lemma WithoutNewest(r: Rule, older: seq<Rule>)
    ensures Without([r] + older, r.handle) == older
    ensures r.handle in HandlesOf([r] + older)
  {
    HandlesOfCons(r, older);
    assert ([r] + older)[1..] == older;
  }

  // The rule with handle h taken out, unless there is none to take out or it was kept.
  function Dropped(rules: seq<Rule>, h: nat, kept: bool): seq<Rule> {
    if h == 0 || kept then rules else Without(rules, h)
  }

  datatype Kept = Kept(dnat: bool, snat: bool, conn: bool, route: bool)

  const NOTHING_KEPT := Kept(false, false, false, false)

  ghost predicate Removed(t: Table, u: Table, slot: Slot, h: nat, kept: bool) {
    && OnlyChain(t, u, ChainOf(slot)) && t.next == u.next
    && View(u, ChainOf(slot)) == Dropped(View(t, ChainOf(slot)), h, kept)
  }

  // u is t without the four rules, except those that were kept.
  ghost predicate Stopped(t: Table, u: Table, h: Handles, kept: Kept) {
    && t.chains.Keys == u.chains.Keys && t.next == u.next
    && (kept.dnat ==> h.dnat > 0) && (kept.snat ==> h.snat > 0) && (kept.conn ==> h.conn > 0) && (kept.route ==> h.route > 0)
    && View(u, Dnat) == Dropped(View(t, Dnat), h.dnat, kept.dnat)
    && View(u, Snat) == Dropped(View(t, Snat), h.snat, kept.snat)
    && View(u, Mark) == Dropped(Dropped(View(t, Mark), h.conn, kept.conn), h.route, kept.route)
  }

  lemma RemovedFour(t0: Table, t1: Table, t2: Table, t3: Table, t4: Table, h: Handles, kept: Kept)
    requires Removed(t0, t1, DnatSlot, h.dnat, kept.dnat) && Removed(t1, t2, SnatSlot, h.snat, kept.snat)
    requires Removed(t2, t3, ConnSlot, h.conn, kept.conn) && Removed(t3, t4, RouteSlot, h.route, kept.route)
    requires (kept.dnat ==> h.dnat > 0) && (kept.snat ==> h.snat > 0) && (kept.conn ==> h.conn > 0) && (kept.route ==> h.route > 0)
    ensures Stopped(t0, t4, h, kept)
  {
  }

  // Chains that did not exist may have been created empty; nothing else changed.
  ghost predicate Created(t: Table, u: Table) {
    SameRules(t, u) && u.next == t.next
  }

  // The rule whose insertion succeeded without a handle and could not be taken back.
  datatype Lost = NothingLost | LostRule(slot: Slot, handle: nat)

  function LostRules(p: Plan, lost: Lost, c: Chain): seq<Rule> {
    if lost.LostRule? && ChainOf(lost.slot) == c then [Rule(lost.handle, SpecOf(p, lost.slot))] else []
  }

  function RuleOf(p: Plan, h: Handles, s: Slot): seq<Rule> {
    if Get(h, s) > 0 then [Rule(Get(h, s), SpecOf(p, s))] else []
  }

  function OwnRules(p: Plan, h: Handles, c: Chain): seq<Rule> {
    match c
    case Dnat => RuleOf(p, h, DnatSlot)
    case Snat => RuleOf(p, h, SnatSlot)
    case Mark => RuleOf(p, h, RouteSlot) + RuleOf(p, h, ConnSlot)
  }

  // u is t with the forwarder's own rules, and any lost one, in front.
  ghost predicate Built(t: Table, u: Table, p: Plan, h: Handles, lost: Lost) {
    && t.chains.Keys <= u.chains.Keys && t.next <= u.next
    && (forall c :: View(u, c) == LostRules(p, lost, c) + OwnRules(p, h, c) + View(t, c))
    && (forall s :: Get(h, s) == 0 || t.next <= Get(h, s) < u.next)
    && (h.conn > 0 && h.route > 0 ==> h.conn < h.route)
    && (lost.LostRule? ==> t.next <= lost.handle < u.next && forall s :: Get(h, s) < lost.handle)
  }

  class Kernel {
    var table: Table
    ghost var log: seq<Event>

    constructor (t: Table)
      ensures table == t && log == []
    {
      table := t;
      log := [];
    }

    // One nft invocation; which fault it meets is the environment's choice.
    method Run(cmd: Command) returns (ok: bool, output: seq<string>, ghost fault: Fault)
      requires table.next > 0
      modifies this
      ensures table.next > 0 && log == old(log) + [Event(cmd, fault, ok)]
      ensures Reply(table, ok, output) == Exec(old(table), cmd, fault)
    {
      var chosen: Fault := *;
      var reply := Exec(table, cmd, chosen);
      log := log + [Event(cmd, chosen, reply.ok)];
      table, ok, output, fault := reply.table, reply.ok, reply.output, chosen;
    }
  }

  // One insertion, seen from the state before Start.
  lemma BuiltStep(t0: Table, t: Table, u: Table, p: Plan, h: Handles, s: Slot, handle: Option<nat>, lost: Lost)
    requires Built(t0, t, p, h, NothingLost) && t.next > 0
    requires Get(h, s) == 0 && (s == ConnSlot ==> h.route == 0)
    requires OnlyChain(t, u, ChainOf(s)) && t.next <= u.next
    requires handle.Some? ==> handle.value == t.next < u.next && lost == NothingLost
                              && View(u, ChainOf(s)) == [Rule(t.next, SpecOf(p, s))] + View(t, ChainOf(s))
    requires handle.None? ==> (lost == NothingLost || lost == LostRule(s, t.next)) && (lost != NothingLost ==> t.next < u.next)
                              && View(u, ChainOf(s)) == LostRules(p, lost, ChainOf(s)) + View(t, ChainOf(s))
    ensures Built(t0, u, p, if handle.Some? then Set(h, s, handle.value) else h, lost)
  {
    if handle.Some? {
      BuiltAdded(t0, t, u, p, h, s);
    } else {
      BuiltLost(t0, t, u, p, h, s, lost);
    }
  }

  lemma Regroup(a: seq<Rule>, b: seq<Rule>, c: seq<Rule>)
    ensures a + (b + c) == a + b + c && (a == [] ==> a + b == b)
  {
  }

  lemma BuiltChain(t0: Table, t: Table, p: Plan, h: Handles, c: Chain)
    requires Built(t0, t, p, h, NothingLost)
    ensures View(t, c) == OwnRules(p, h, c) + View(t0, c)
  {
    Regroup(LostRules(p, NothingLost, c), OwnRules(p, h, c), View(t0, c));
  }

  // A new rule goes in front of the forwarder's rules in its chain.
  lemma OwnAdded(p: Plan, h: Handles, s: Slot, handle: nat, c: Chain)
    requires Get(h, s) == 0 && handle > 0 && (s == ConnSlot ==> h.route == 0)
    ensures OwnRules(p, Set(h, s, handle), c)
         == if c == ChainOf(s) then [Rule(handle, SpecOf(p, s))] + OwnRules(p, h, c) else OwnRules(p, h, c)
  {
    assert forall r :: r != s ==> RuleOf(p, Set(h, s, handle), r) == RuleOf(p, h, r);
    assert RuleOf(p, Set(h, s, handle), s) == [Rule(handle, SpecOf(p, s))];
  }

  lemma BuiltAdded(t0: Table, t: Table, u: Table, p: Plan, h: Handles, s: Slot)
    requires Built(t0, t, p, h, NothingLost) && t.next > 0
    requires Get(h, s) == 0 && (s == ConnSlot ==> h.route == 0)
    requires OnlyChain(t, u, ChainOf(s)) && t.next < u.next
    requires View(u, ChainOf(s)) == [Rule(t.next, SpecOf(p, s))] + View(t, ChainOf(s))
    ensures Built(t0, u, p, Set(h, s, t.next), NothingLost)
  {
    var h' := Set(h, s, t.next);
    forall c ensures View(u, c) == LostRules(p, NothingLost, c) + OwnRules(p, h', c) + View(t0, c) {
      BuiltChain(t0, t, p, h, c);
      OwnAdded(p, h, s, t.next, c);
      Regroup([Rule(t.next, SpecOf(p, s))], OwnRules(p, h, c), View(t0, c));
      Regroup(LostRules(p, NothingLost, c), OwnRules(p, h', c), View(t0, c));
    }
  }

  lemma BuiltLost(t0: Table, t: Table, u: Table, p: Plan, h: Handles, s: Slot, lost: Lost)
    requires Built(t0, t, p, h, NothingLost) && t.next > 0
    requires OnlyChain(t, u, ChainOf(s)) && t.next <= u.next
    requires lost == NothingLost || (lost == LostRule(s, t.next) && t.next < u.next)
    requires View(u, ChainOf(s)) == LostRules(p, lost, ChainOf(s)) + View(t, ChainOf(s))
    ensures Built(t0, u, p, h, lost)
  {
    forall c ensures View(u, c) == LostRules(p, lost, c) + OwnRules(p, h, c) + View(t0, c) {
      BuiltChain(t0, t, p, h, c);
      Regroup(LostRules(p, lost, c), OwnRules(p, h, c), View(t0, c));
      assert c != ChainOf(s) ==> LostRules(p, lost, c) == [];
    }
  }

  lemma BuiltNothing(t0: Table, t: Table, p: Plan)
    requires Created(t0, t)
    ensures Built(t0, t, p, NO_HANDLES, NothingLost)
  {
    forall c ensures View(t, c) == LostRules(p, NothingLost, c) + OwnRules(p, NO_HANDLES, c) + View(t0, c) {
      assert OwnRules(p, NO_HANDLES, c) == [];
    }
  }

  lemma BuiltCreated(t0: Table, t: Table, u: Table, p: Plan, h: Handles)
    requires Built(t0, t, p, h, NothingLost) && Created(t, u)
    ensures Built(t0, u, p, h, NothingLost)
  {
  }

  ghost predicate Complete(h: Handles, useSnat: bool, usePolicy: bool) {
    h.dnat > 0 && (h.snat > 0 <==> useSnat) && (h.conn > 0 <==> usePolicy) && (h.route > 0 <==> usePolicy)
  }

  predicate IsSpace(c: char) {
    '\t' <= c <= '\r' || c == ' ' || c as int in {0x85, 0xA0, 0x1680, 0x2028, 0x2029, 0x202F, 0x205F, 0x3000} || 0x2000 <= c as int <= 0x200A
  }

  // strings.TrimSpace
  function Trim(s: string): (r: string)
    ensures r == "" || (!IsSpace(r[0]) && !IsSpace(r[|r| - 1]))
  {
    if s == "" then s
    else if IsSpace(s[0]) then Trim(s[1..])
    else if IsSpace(s[|s| - 1]) then Trim(s[..|s| - 1])
    else s
  }

  // The checks Start makes before it issues any command. ipForward is the text of the
  // system's switch, None if it cannot be read.
  predicate Refused(o: Options, versionOk: bool, ipForward: Option<string>) {
    || (o.ip == o.targetIp && o.port == o.targetPort)
    || !versionOk
    || (o.ip != o.targetIp && ipForward.Some? && Trim(ipForward.value) != "1")
  }

  lemma {:induction false} WithoutLength(rules: seq<Rule>, h: nat)
    ensures |Without(rules, h)| == |rules| - (if h in HandlesOf(rules) then 1 else 0)
  {
    if rules != [] {
      assert rules == [rules[0]] + rules[1..];
      HandlesOfCons(rules[0], rules[1..]);
      if rules[0].handle != h {
        WithoutLength(rules[1..], h);
      }
    }
  }

  // Dropping the forwarder's rule in front of others.
  lemma DroppedFront(rule: seq<Rule>, rest: seq<Rule>, h: nat, kept: bool)
    requires rule == [] <==> h == 0
    requires rule != [] ==> |rule| == 1 && rule[0].handle == h
    ensures Dropped(rule + rest, h, kept) == if kept then rule + rest else rest
  {
    if h > 0 {
      WithoutNewest(rule[0], rest);
    } else {
      assert rule + rest == rest;
    }
  }

  predicate LostIn(lost: Lost, c: Chain) {
    lost.LostRule? && ChainOf(lost.slot) == c
  }

  predicate KeptIn(kept: Kept, c: Chain) {
    match c
    case Dnat => kept.dnat
    case Snat => kept.snat
    case Mark => kept.conn || kept.route
  }

  lemma AbortInNatChain(t0: Table, t: Table, u: Table, p: Plan, h: Handles, lost: Lost, kept: Kept, c: Chain, s: Slot, keptHere: bool)
    requires Built(t0, t, p, h, lost) && Stopped(t, u, h, kept)
    requires (c == Dnat && s == DnatSlot && keptHere == kept.dnat) || (c == Snat && s == SnatSlot && keptHere == kept.snat)
    ensures View(u, c) == View(t0, c) <==> !LostIn(lost, c) && !keptHere
  {
    var extra := LostRules(p, lost, c);
    assert View(t, c) == extra + OwnRules(p, h, c) + View(t0, c);
    AbortOneRule(extra, RuleOf(p, h, s), View(t0, c), Get(h, s), keptHere);
  }

  lemma AbortOneRule(extra: seq<Rule>, own: seq<Rule>, older: seq<Rule>, handle: nat, kept: bool)
    requires own == [] <==> handle == 0
    requires own != [] ==> |own| == 1 && own[0].handle == handle
    requires |extra| <= 1 && (extra != [] ==> extra[0].handle > handle)
    requires kept ==> handle > 0
    ensures Dropped(extra + own + older, handle, kept) == older <==> extra == [] && !kept
  {
    assert own + [] == own;
    StopInChain(extra, own, [], older, handle, 0, kept, false);
  }

  lemma AbortInChain(t0: Table, t: Table, u: Table, p: Plan, h: Handles, lost: Lost, kept: Kept, c: Chain)
    requires Built(t0, t, p, h, lost) && Stopped(t, u, h, kept)
    ensures View(u, c) == View(t0, c) <==> !LostIn(lost, c) && !KeptIn(kept, c)
  {
    match c
    case Dnat => AbortInNatChain(t0, t, u, p, h, lost, kept, Dnat, DnatSlot, kept.dnat);
    case Snat => AbortInNatChain(t0, t, u, p, h, lost, kept, Snat, SnatSlot, kept.snat);
    case Mark =>
      var extra := LostRules(p, lost, c);
      assert View(t, c) == extra + OwnRules(p, h, c) + View(t0, c);
      StopInChain(extra, RuleOf(p, h, RouteSlot), RuleOf(p, h, ConnSlot), View(t0, c), h.route, h.conn, kept.route, kept.conn);
  }

  // Deleting the rules Start added restores the chains exactly when nothing was kept or lost.
  lemma AbortEffect(t0: Table, t: Table, u: Table, p: Plan, h: Handles, lost: Lost, kept: Kept)
    requires Built(t0, t, p, h, lost) && Stopped(t, u, h, kept)
    ensures SameRules(t0, u) <==> lost == NothingLost && kept == NOTHING_KEPT
  {
    forall c ensures View(u, c) == View(t0, c) <==> !LostIn(lost, c) && !KeptIn(kept, c) {
      AbortInChain(t0, t, u, p, h, lost, kept, c);
    }
    if lost.LostRule? {
      assert LostIn(lost, ChainOf(lost.slot));
    }
    assert kept != NOTHING_KEPT ==> KeptIn(kept, Dnat) || KeptIn(kept, Snat) || KeptIn(kept, Mark);
  }

  // One chain: extra, route and conn hold at most one rule each, in front of the older ones.
  lemma StopInChain(extra: seq<Rule>, route: seq<Rule>, conn: seq<Rule>, older: seq<Rule>, hr: nat, hc: nat, keptRoute: bool, keptConn: bool)
    requires route == [] <==> hr == 0
    requires route != [] ==> |route| == 1 && route[0].handle == hr
    requires conn == [] <==> hc == 0
    requires conn != [] ==> |conn| == 1 && conn[0].handle == hc
    requires hr > 0 && hc > 0 ==> hr != hc
    requires |extra| <= 1 && (extra != [] ==> extra[0].handle > hr && extra[0].handle > hc)
    requires (keptRoute ==> hr > 0) && (keptConn ==> hc > 0)
    ensures var left := Dropped(Dropped(extra + (route + conn) + older, hc, keptConn), hr, keptRoute);
            left == older <==> extra == [] && !keptRoute && !keptConn
  {
    var all := extra + (route + conn) + older;
    if extra == [] && !keptRoute && !keptConn {
      assert all == route + (conn + older);
      if route == [] {
        assert all == conn + older;
      } else {
        assert route + (conn + older) == [route[0]] + (conn + older);
        assert (route + (conn + older))[1..] == conn + older;
      }
      DroppedFront(conn, older, hc, false);
      assert Dropped(all, hc, false) == route + older;
      DroppedFront(route, older, hr, false);
    } else {
      WithoutLength(all, hc);
      WithoutLength(Dropped(all, hc, keptConn), hr);
    }
  }

  class NftablesForwarder {
    const snat: bool
    var dnatHandle: nat
    var snatHandle: nat
    var connMarkHandle: nat
    var routeMarkHandle: nat
    // Where the automaton stands; every command issued must be the one it names.
    ghost var auto: Forwarder

    constructor (snat: bool, ghost p: Plan)
      ensures this.snat == snat && Held() == NO_HANDLES && auto == Forwarder(Idle, p, NO_HANDLES)
    {
      this.snat := snat;
      dnatHandle, snatHandle, connMarkHandle, routeMarkHandle := 0, 0, 0, 0;
      auto := Forwarder(Idle, p, NO_HANDLES);
    }

    function Held(): Handles
      reads this
    {
      Handles(dnatHandle, snatHandle, connMarkHandle, routeMarkHandle)
    }

    method Issue(kernel: Kernel, cmd: Command) returns (ok: bool, output: seq<string>, ghost fault: Fault)
      requires kernel.table.next > 0 && CommandOf(auto) == Some(cmd)
      modifies kernel, this`auto
      ensures kernel.table.next > 0 && kernel.log == old(kernel.log) + [Event(cmd, fault, ok)]
      ensures Reply(kernel.table, ok, output) == Exec(old(kernel.table), cmd, fault)
      ensures auto == Resume(old(auto), ok, output)
    {
      ok, output, fault := kernel.Run(cmd);
      auto := Resume(auto, ok, output);
    }

    // Inserts one rule. Without an echoed handle the rule is looked up and deleted again.
    method InsertRule(kernel: Kernel, chain: Chain, spec: string, ghost slot: Slot, ghost from: nat) returns (handle: Option<nat>)
      requires kernel.table.next > 0 && from <= |kernel.log| && !CleanupFailed(kernel.log, from) && Smooth(kernel.log, from)
      requires auto.pc == Adding(slot) && chain == ChainOf(slot) && spec == SpecOf(auto.plan, slot) && IsSpec(spec)
      modifies kernel, this`auto
      ensures kernel.table.next > 0 && |kernel.log| > |old(kernel.log)|
      ensures OnlyChain(old(kernel.table), kernel.table, chain) && old(kernel.table.next) <= kernel.table.next
      ensures handle.Some? <==> Smooth(kernel.log, from)
      ensures handle.Some? ==>
                && handle.value == old(kernel.table.next) < kernel.table.next
                && View(kernel.table, chain) == [Rule(handle.value, spec)] + old(View(kernel.table, chain))
                && auto == AfterRule(old(auto).(h := Set(old(auto).h, slot, handle.value)), slot)
                && !CleanupFailed(kernel.log, from)
                && !kernel.log[|kernel.log| - 1].fault.Mute?
      ensures handle.None? ==>
                && auto == StopFrom(old(auto))
                && (CleanupFailed(kernel.log, from) ==> old(kernel.table.next) < kernel.table.next)
                && View(kernel.table, chain)
                   == (if CleanupFailed(kernel.log, from) then [Rule(old(kernel.table.next), spec)] else []) + old(View(kernel.table, chain))
    {
      ghost var table0, log0 := kernel.table, kernel.log;
      var ok, output, fault := Issue(kernel, Insert(chain, spec));
      FailedStep(log0, Event(Insert(chain, spec), fault, ok), from);
      if !ok {
        return None;
      }
      EchoIsParsed(chain, spec, table0.next);
      var parsed := ParseHandle(output);
      if parsed.None? {
        DeleteRuleBySpec(kernel, chain, spec, slot, from, View(table0, chain), table0.next);
        return None;
      }
      handle := parsed;
    }

    // The rule just inserted stands at the head of its chain, so it is the first match.
    method DeleteRuleBySpec(kernel: Kernel, chain: Chain, spec: string,
                            ghost slot: Slot, ghost from: nat, ghost older: seq<Rule>, ghost newest: nat)
      requires kernel.table.next > 0 && from < |kernel.log| && !CleanupFailed(kernel.log, from)
      requires kernel.log[|kernel.log| - 1].cmd.Insert? && kernel.log[|kernel.log| - 1].fault.Mute?
      requires auto.pc == Finding(slot) && chain == ChainOf(slot) && spec == SpecOf(auto.plan, slot)
      requires chain in kernel.table.chains && kernel.table.chains[chain] == [Rule(newest, spec)] + older
      requires IsSpec(spec) && '#' !in spec && newest <= MAX_INT
      modifies kernel, this`auto
      ensures kernel.table.next > 0 && |kernel.log| > |old(kernel.log)|
      ensures OnlyChain(old(kernel.table), kernel.table, chain) && kernel.table.next == old(kernel.table.next)
      ensures Smooth(kernel.log, from) <==> old(Smooth(kernel.log, from))
      ensures auto == StopFrom(old(auto))
      ensures View(kernel.table, chain) == (if CleanupFailed(kernel.log, from) then [Rule(newest, spec)] else []) + older
    {
      ghost var log0 := kernel.log;
      var ok, output, fault := Issue(kernel, ListChain(chain));
      FailedStep(log0, Event(ListChain(chain), fault, ok), from);
      if !ok {
        return;
      }
      NewestRuleIsFound(chain, newest, spec, older, kernel.table.header);
      var handle := LookupRuleHandle(output, spec);
      if handle.None? {
        return;
      }
      ghost var log1 := kernel.log;
      WithoutNewest(Rule(newest, spec), older);
      ok, output, fault := Issue(kernel, Delete(chain, handle.value));
      FailedStep(log1, Event(Delete(chain, newest), fault, ok), from);
    }

    // Deletes the rule of one slot if there is a handle for it; slots are taken in order.
    method RemoveRule(kernel: Kernel, slot: Slot, handle: nat, ghost from: nat) returns (ok: bool, ghost kept: bool)
      requires kernel.table.next > 0 && from <= |kernel.log|
      requires auto == StopFrom(auto) && Get(auto.h, slot) == handle
      requires handle > 0 ==> auto.pc == Removing(slot)
      modifies kernel, this`auto
      ensures kernel.table.next > 0 && |kernel.log| >= |old(kernel.log)|
      ensures Removed(old(kernel.table), kernel.table, slot, handle, kept)
      ensures Smooth(kernel.log, from) <==> old(Smooth(kernel.log, from))
      ensures CleanupFailed(kernel.log, from) <==> old(CleanupFailed(kernel.log, from)) || kept
      ensures auto == StopFrom(old(auto).(h := Set(old(auto).h, slot, 0)))
      ensures kept ==> !ok && handle > 0
      ensures handle == 0 ==> ok && kernel.log == old(kernel.log) && kernel.table == old(kernel.table)
    {
      ok, kept := true, false;
      if handle > 0 {
        ghost var log0, rules0 := kernel.log, View(kernel.table, ChainOf(slot));
        ghost var fault: Fault;
        var output: seq<string>;
        ok, output, fault := Issue(kernel, Delete(ChainOf(slot), handle));
        kept := fault.Refuse?;
        FailedStep(log0, Event(Delete(ChainOf(slot), handle), fault, ok), from);
        if handle !in HandlesOf(rules0) {
          WithoutAbsent(rules0, handle);
        }
      } else {
        assert auto.h == Set(auto.h, slot, 0);
      }
    }

    // Deletes by handle, in order, and forgets every handle whether or not nft obeyed.
    method Stop(kernel: Kernel, ghost from: nat) returns (err: bool, ghost kept: Kept)
      requires kernel.table.next > 0 && from <= |kernel.log| && Held() == auto.h
      requires auto.pc.Idle? || auto.pc.Live? || auto == StopFrom(auto)
      modifies kernel, this
      ensures kernel.table.next > 0 && |kernel.log| >= |old(kernel.log)|
      ensures Held() == NO_HANDLES && auto == old(auto).(pc := Idle, h := NO_HANDLES)
      ensures Stopped(old(kernel.table), kernel.table, old(Held()), kept)
      ensures Smooth(kernel.log, from) <==> old(Smooth(kernel.log, from))
      ensures CleanupFailed(kernel.log, from) <==> old(CleanupFailed(kernel.log, from)) || kept != NOTHING_KEPT
      ensures kept != NOTHING_KEPT ==> err
      ensures old(Held()) == NO_HANDLES ==> kernel.log == old(kernel.log) && kernel.table == old(kernel.table) && !err
    {
      auto := StopFrom(auto);
      ghost var t0, h := kernel.table, auto.h;
      var ok0, k0, k1, t1 := StopNat(kernel, from);
      ghost var t2 := kernel.table;
      var ok1, k2, k3, t3 := StopMarks(kernel, from);
      err := !(ok0 && ok1);
      kept := Kept(k0, k1, k2, k3);
      RemovedFour(t0, t1, t2, t3, kernel.table, h, kept);
    }

    // The first two handles; between is the table between the two deletes.
    method StopNat(kernel: Kernel, ghost from: nat) returns (ok: bool, ghost k0: bool, ghost k1: bool, ghost between: Table)
      requires kernel.table.next > 0 && from <= |kernel.log| && Held() == auto.h && auto == StopFrom(auto)
      modifies kernel, this`auto, this`dnatHandle, this`snatHandle
      ensures kernel.table.next > 0 && |kernel.log| >= |old(kernel.log)|
      ensures dnatHandle == 0 && snatHandle == 0
      ensures auto == StopFrom(old(auto).(h := Handles(0, 0, connMarkHandle, routeMarkHandle)))
      ensures Removed(old(kernel.table), between, DnatSlot, old(dnatHandle), k0)
      ensures Removed(between, kernel.table, SnatSlot, old(snatHandle), k1)
      ensures Smooth(kernel.log, from) <==> old(Smooth(kernel.log, from))
      ensures CleanupFailed(kernel.log, from) <==> old(CleanupFailed(kernel.log, from)) || k0 || k1
      ensures (k0 || k1 ==> !ok) && (k0 ==> old(dnatHandle) > 0) && (k1 ==> old(snatHandle) > 0)
      ensures old(Held()) == NO_HANDLES ==> kernel.log == old(kernel.log) && kernel.table == old(kernel.table) && ok
    {
      var ok0, ok1;
      ok0, k0 := RemoveRule(kernel, DnatSlot, dnatHandle, from);
      dnatHandle := 0;
      between := kernel.table;
      assert auto == StopFrom(old(auto).(h := Handles(0, snatHandle, connMarkHandle, routeMarkHandle)));
      ok1, k1 := RemoveRule(kernel, SnatSlot, snatHandle, from);
      snatHandle := 0;
      ok := ok0 && ok1;
    }

    // The other two.
    method StopMarks(kernel: Kernel, ghost from: nat) returns (ok: bool, ghost k2: bool, ghost k3: bool, ghost between: Table)
      requires kernel.table.next > 0 && from <= |kernel.log|
      requires auto == StopFrom(auto) && auto.h == Handles(0, 0, connMarkHandle, routeMarkHandle)
      modifies kernel, this`auto, this`connMarkHandle, this`routeMarkHandle
      ensures kernel.table.next > 0 && |kernel.log| >= |old(kernel.log)|
      ensures connMarkHandle == 0 && routeMarkHandle == 0
      ensures auto == StopFrom(old(auto).(h := NO_HANDLES))
      ensures Removed(old(kernel.table), between, ConnSlot, old(connMarkHandle), k2)
      ensures Removed(between, kernel.table, RouteSlot, old(routeMarkHandle), k3)
      ensures Smooth(kernel.log, from) <==> old(Smooth(kernel.log, from))
      ensures CleanupFailed(kernel.log, from) <==> old(CleanupFailed(kernel.log, from)) || k2 || k3
      ensures (k2 || k3 ==> !ok) && (k2 ==> old(connMarkHandle) > 0) && (k3 ==> old(routeMarkHandle) > 0)
      ensures old(connMarkHandle) == old(routeMarkHandle) == 0 ==>
                kernel.log == old(kernel.log) && kernel.table == old(kernel.table) && ok
    {
      var ok2, ok3;
      ok2, k2 := RemoveRule(kernel, ConnSlot, connMarkHandle, from);
      connMarkHandle := 0;
      between := kernel.table;
      assert auto == StopFrom(old(auto).(h := Handles(0, 0, 0, routeMarkHandle)));
      ok3, k3 := RemoveRule(kernel, RouteSlot, routeMarkHandle, from);
      routeMarkHandle := 0;
      ok := ok2 && ok3;
    }

    // Without an answer from "list table" the whole skeleton is declared; existing chains keep their rules.
    method EnsureTable(kernel: Kernel, ghost from: nat) returns (ok: bool)
      requires kernel.table.next > 0 && auto.pc.ProbeTable? && from == |kernel.log|
      modifies kernel, this`auto
      ensures Created(old(kernel.table), kernel.table) && |kernel.log| > from && !CleanupFailed(kernel.log, from)
      ensures ok <==> Smooth(kernel.log, from)
      ensures !kernel.log[|kernel.log| - 1].cmd.Insert?
      ensures auto == old(auto).(pc := if ok then Adding(DnatSlot) else Idle)
    {
      ghost var log0 := kernel.log;
      var listed, output, fault := Issue(kernel, ListTable);
      FailedStep(log0, Event(ListTable, fault, listed), from);
      if listed {
        return true;
      }
      ghost var log1 := kernel.log;
      ok, output, fault := Issue(kernel, CreateTable);
      FailedStep(log1, Event(CreateTable, fault, ok), from);
    }

    method EnsureRouteMarkChain(kernel: Kernel, ghost from: nat) returns (ok: bool)
      requires kernel.table.next > 0 && auto.pc.ProbeMark? && from < |kernel.log| && !CleanupFailed(kernel.log, from) && Smooth(kernel.log, from)
      requires !kernel.log[|kernel.log| - 1].fault.Mute?
      modifies kernel, this`auto
      ensures Created(old(kernel.table), kernel.table) && |kernel.log| > |old(kernel.log)| && !CleanupFailed(kernel.log, from)
      ensures ok <==> Smooth(kernel.log, from)
      ensures auto == if ok then old(auto).(pc := Adding(ConnSlot)) else StopFrom(old(auto))
    {
      ghost var log0 := kernel.log;
      var listed, output, fault := Issue(kernel, ListChain(Mark));
      FailedStep(log0, Event(ListChain(Mark), fault, listed), from);
      if listed {
        return true;
      }
      ghost var log1 := kernel.log;
      ok, output, fault := Issue(kernel, AddMarkChain);
      FailedStep(log1, Event(AddMarkChain, fault, ok), from);
    }

    method AddSnat(kernel: Kernel, p: Plan, ghost from: nat, ghost t0: Table) returns (ok: bool, ghost lost: Lost)
      requires WellWritten(p)
      requires kernel.table.next > 0 && from < |kernel.log| && !CleanupFailed(kernel.log, from) && Smooth(kernel.log, from)
      requires auto == Forwarder(Adding(SnatSlot), p, Held()) && Get(Held(), SnatSlot) == 0
      requires Built(t0, kernel.table, p, Held(), NothingLost)
      modifies kernel, this
      ensures |kernel.log| > from && Built(t0, kernel.table, p, Held(), lost) && kernel.table.next > 0
      ensures CleanupFailed(kernel.log, from) <==> lost != NothingLost
      ensures ok <==> Smooth(kernel.log, from)
      ensures ok ==> snatHandle > 0 && Held() == Set(old(Held()), SnatSlot, snatHandle)
                     && auto == AfterRule(old(auto).(h := Held()), SnatSlot) && !kernel.log[|kernel.log| - 1].fault.Mute?
      ensures ok ==> lost == NothingLost
      ensures !ok ==> Held() == old(Held()) && auto == StopFrom(old(auto))
    {
      ghost var t1 := kernel.table;
      var handle := InsertRule(kernel, Snat, SpecOf(p, SnatSlot), SnatSlot, from);
      lost := if handle.None? && CleanupFailed(kernel.log, from) then LostRule(SnatSlot, t1.next) else NothingLost;
      BuiltStep(t0, t1, kernel.table, p, Held(), SnatSlot, handle, lost);
      ok := handle.Some?;
      if ok {
        snatHandle := handle.value;
      }
    }

    method AddMarkRule(kernel: Kernel, slot: Slot, p: Plan, ghost from: nat, ghost t0: Table) returns (handle: Option<nat>, ghost lost: Lost)
      requires WellWritten(p) && (slot == ConnSlot || slot == RouteSlot)
      requires kernel.table.next > 0 && from < |kernel.log| && !CleanupFailed(kernel.log, from) && Smooth(kernel.log, from)
      requires auto == Forwarder(Adding(slot), p, Held()) && Get(Held(), slot) == 0 && Held().route == 0
      requires Built(t0, kernel.table, p, Held(), NothingLost)
      modifies kernel, this`auto
      ensures |kernel.log| > from && kernel.table.next > 0
      ensures Built(t0, kernel.table, p, if handle.Some? then Set(Held(), slot, handle.value) else Held(), lost)
      ensures CleanupFailed(kernel.log, from) <==> lost != NothingLost
      ensures handle.Some? <==> Smooth(kernel.log, from)
      ensures handle.Some? ==> handle.value > 0 && lost == NothingLost
                               && auto == AfterRule(old(auto).(h := Set(Held(), slot, handle.value)), slot)
      ensures handle.None? ==> auto == StopFrom(old(auto))
    {
      ghost var t1 := kernel.table;
      handle := InsertRule(kernel, Mark, SpecOf(p, slot), slot, from);
      lost := if handle.None? && CleanupFailed(kernel.log, from) then LostRule(slot, t1.next) else NothingLost;
      BuiltStep(t0, t1, kernel.table, p, Held(), slot, handle, lost);
    }

    // The routing policy ("ip" commands, answered by p.policyOk), then the two mark rules.
    method AddMarks(kernel: Kernel, p: Plan, ghost from: nat, ghost t0: Table) returns (ok: bool, ghost lost: Lost)
      requires WellWritten(p) && Held().conn == 0 && Held().route == 0
      requires kernel.table.next > 0 && from < |kernel.log| && !CleanupFailed(kernel.log, from) && Smooth(kernel.log, from)
      requires !kernel.log[|kernel.log| - 1].fault.Mute?
      requires p.usePolicy && auto == (if p.policyOk then Forwarder(ProbeMark, p, Held()) else StopFrom(Forwarder(Live, p, Held())))
      requires Built(t0, kernel.table, p, Held(), NothingLost)
      modifies kernel, this`auto, this`connMarkHandle, this`routeMarkHandle
      ensures |kernel.log| > from && kernel.table.next > 0
      ensures Built(t0, kernel.table, p, Held(), lost)
      ensures CleanupFailed(kernel.log, from) <==> lost != NothingLost
      ensures ok <==> p.policyOk && Smooth(kernel.log, from)
      ensures ok ==> lost == NothingLost && connMarkHandle > 0 && routeMarkHandle > 0 && auto == Forwarder(Live, p, Held())
      ensures !ok ==> auto == StopFrom(Forwarder(Live, p, Held()))
    {
      lost := NothingLost;
      if !p.policyOk {
        return false, lost;
      }
      ghost var t1 := kernel.table;
      ok := EnsureRouteMarkChain(kernel, from);
      BuiltCreated(t0, t1, kernel.table, p, Held());
      if !ok {
        return;
      }
      var handle;
      handle, lost := AddMarkRule(kernel, ConnSlot, p, from, t0);
      if handle.None? {
        return false, lost;
      }
      connMarkHandle := handle.value;
      handle, lost := AddMarkRule(kernel, RouteSlot, p, from, t0);
      if handle.None? {
        return false, lost;
      }
      routeMarkHandle := handle.value;
    }

    // versionOk and ipForward stand for "nft --version" and for the contents of
    // /proc/sys/net/ipv4/ip_forward, if it can be read; routeSource and policyOk as in PlanFor.
    method Start(kernel: Kernel, o: Options, versionOk: bool, ipForward: Option<string>, routeSource: Option<string>, policyOk: bool)
      returns (ok: bool)
      requires kernel.table.next > 0 && auto.pc.Idle? && Held() == auto.h == NO_HANDLES
      modifies kernel, this
      ensures ok <==> !Refused(o, versionOk, ipForward) && (o.iface != "" ==> policyOk) && Smooth(kernel.log, |old(kernel.log)|)
      ensures ok ==> Built(old(kernel.table), kernel.table, PlanFor(o, snat, routeSource, policyOk), Held(), NothingLost)
      ensures ok ==> Complete(Held(), snat, o.iface != "")
      ensures ok ==> auto == Forwarder(Live, PlanFor(o, snat, routeSource, policyOk), Held())
      ensures !ok ==> Held() == NO_HANDLES && auto.pc.Idle? && auto.h == NO_HANDLES
      ensures !ok ==> (SameRules(old(kernel.table), kernel.table) <==> !CleanupFailed(kernel.log, |old(kernel.log)|))
      ensures Refused(o, versionOk, ipForward) ==> !ok && kernel.log == old(kernel.log)
    {
      if o.ip == o.targetIp && o.port == o.targetPort {
        return false;
      }
      if !versionOk {
        return false;
      }
      if o.ip != o.targetIp && ipForward.Some? && Trim(ipForward.value) != "1" {
        return false;
      }
      ok := StartRules(kernel, PlanFor(o, snat, routeSource, policyOk));
    }

    method StartRules(kernel: Kernel, p: Plan) returns (ok: bool)
      requires WellWritten(p) && p.useSnat == snat
      requires kernel.table.next > 0 && auto.pc.Idle? && Held() == auto.h == NO_HANDLES
      modifies kernel, this
      ensures ok <==> (p.usePolicy ==> p.policyOk) && Smooth(kernel.log, |old(kernel.log)|)
      ensures ok ==> Built(old(kernel.table), kernel.table, p, Held(), NothingLost)
      ensures ok ==> Complete(Held(), snat, p.usePolicy) && auto == Forwarder(Live, p, Held())
      ensures !ok ==> auto.pc.Idle? && Held() == auto.h == NO_HANDLES
      ensures !ok ==> (SameRules(old(kernel.table), kernel.table) <==> !CleanupFailed(kernel.log, |old(kernel.log)|))
    {
      ghost var t0, from := kernel.table, |kernel.log|;
      auto := Begin(p);
      ok := EnsureTable(kernel, from);
      if !ok {
        return;
      }
      ghost var t1 := kernel.table;
      BuiltNothing(t0, t1, p);
      var handle := InsertRule(kernel, Dnat, SpecOf(p, DnatSlot), DnatSlot, from);
      ghost var lost := if handle.None? && CleanupFailed(kernel.log, from) then LostRule(DnatSlot, t1.next) else NothingLost;
      BuiltStep(t0, t1, kernel.table, p, NO_HANDLES, DnatSlot, handle, lost);
      if handle.None? {
        AbortEffect(t0, kernel.table, kernel.table, p, NO_HANDLES, lost, NOTHING_KEPT);
        return false;
      }
      dnatHandle := handle.value;
      ok, lost := AddRest(kernel, p, from, t0);
      if !ok {
        ghost var t2, h := kernel.table, Held();
        var err, kept := Stop(kernel, from);
        AbortEffect(t0, t2, kernel.table, p, h, lost, kept);
      }
    }

    // What follows the DNAT rule; every failure here makes Start call Stop.
    method AddRest(kernel: Kernel, p: Plan, ghost from: nat, ghost t0: Table) returns (ok: bool, ghost lost: Lost)
      requires WellWritten(p) && Held() == Handles(dnatHandle, 0, 0, 0) && dnatHandle > 0 && p.useSnat == snat
      requires kernel.table.next > 0 && from < |kernel.log| && !CleanupFailed(kernel.log, from) && Smooth(kernel.log, from)
      requires !kernel.log[|kernel.log| - 1].fault.Mute?
      requires auto == AfterRule(Forwarder(Adding(DnatSlot), p, Held()), DnatSlot)
      requires Built(t0, kernel.table, p, Held(), NothingLost)
      modifies kernel, this
      ensures |kernel.log| > from && kernel.table.next > 0
      ensures Built(t0, kernel.table, p, Held(), lost)
      ensures CleanupFailed(kernel.log, from) <==> lost != NothingLost
      ensures ok <==> (p.usePolicy ==> p.policyOk) && Smooth(kernel.log, from)
      ensures ok ==> lost == NothingLost && Complete(Held(), snat, p.usePolicy) && auto == Forwarder(Live, p, Held())
      ensures !ok ==> auto == StopFrom(Forwarder(Live, p, Held()))
    {
      lost, ok := NothingLost, true;
      if snat {
        ok, lost := AddSnat(kernel, p, from, t0);
        if !ok {
          return;
        }
      }
      if p.usePolicy {
        ok, lost := AddMarks(kernel, p, from, t0);
      }
    }
  }
}
