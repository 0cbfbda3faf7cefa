// Any number of forwarders, and other programs, issuing commands to the shared table
// in any order. One step is one nft command.

module NftInterleaving {
  import opened Text
  import opened NftKernel
  import opened NftAutomaton

  // Who answers for a rule: another program, nobody any more (its delete was refused or
  // it could not be found again), one slot of one forwarder, or a forwarder that has
  // inserted it without learning its handle and is looking for it.
  datatype Owner = Foreign(chain: Chain) | Stuck(chain: Chain) | Held(id: nat, slot: Slot) | Sought(id: nat, slot: Slot)

  // sought has the handle each such forwarder is looking for.
  datatype World = World(table: Table, fwds: map<nat, Forwarder>, ledger: map<nat, Owner>, sought: map<nat, nat>)

  datatype Action =
    | StartCall(id: nat, plan: Plan)
    | StopCall(id: nat)
    | Issue(id: nat, fault: Fault)
    | ForeignInsert(chain: Chain, at: nat, text: string)
    | ForeignDelete(chain: Chain, handle: nat)

  function OwnerChain(o: Owner): Chain {
    if o.Held? || o.Sought? then ChainOf(o.slot) else o.chain
  }

  predicate Enabled(w: World, a: Action) {
    match a
    case StartCall(i, p) => WellWritten(p) && (i in w.fwds ==> w.fwds[i].pc.Idle?)
    case StopCall(i) => i in w.fwds && (w.fwds[i].pc.Live? || w.fwds[i].pc.Idle?)
    case Issue(i, fault) => i in w.fwds && CommandOf(w.fwds[i]).Some?
    case ForeignInsert(c, at, text) => Acceptable(w.table, c, text) && at <= |w.table.chains[c]|
    case ForeignDelete(c, h) => h in w.ledger && w.ledger[h] == Foreign(c) && c in w.table.chains
  }

  predicate Seeks(f: Forwarder) {
    f.pc.Finding? || f.pc.Undoing?
  }

  // Nobody answers any more for what forwarder i was looking for.
  function GivenUp(ledger: map<nat, Owner>, sought: map<nat, nat>, i: nat): map<nat, Owner> {
    if i in sought && sought[i] in ledger then ledger[sought[i] := Stuck(OwnerChain(ledger[sought[i]]))] else ledger
  }

  // What one command of forwarder i does to the ledger.
  function Record(w: World, i: nat, f': Forwarder, ok: bool): map<nat, Owner>
    requires i in w.fwds
  {
    var f := w.fwds[i];
    match f.pc
    case Adding(s) =>
      if !ok then w.ledger
      else if f'.pc.Finding? then w.ledger[w.table.next := Sought(i, s)]
      else w.ledger[w.table.next := Held(i, s)]
    case Finding(s) => if f'.pc.Undoing? then w.ledger else GivenUp(w.ledger, w.sought, i)
    case Undoing(s, h) => GivenUp(if ok then w.ledger - {h} else w.ledger, w.sought, i)
    case Removing(s) =>
      if ok then w.ledger - {Get(f.h, s)} else w.ledger[Get(f.h, s) := Stuck(ChainOf(s))]
    case _ => w.ledger
  }

  // What forwarder i is looking for after the command.
  function SoughtAfter(w: World, i: nat, f': Forwarder): map<nat, nat>
    requires i in w.fwds
  {
    if !Seeks(f') then w.sought - {i}
    else if w.fwds[i].pc.Adding? then w.sought[i := w.table.next]
    else w.sought
  }

  function Next(w: World, a: Action): World
    requires Enabled(w, a)
  {
    match a
    case StartCall(i, p) => w.(fwds := w.fwds[i := Begin(p)])
    case StopCall(i) => w.(fwds := w.fwds[i := StopFrom(w.fwds[i])])
    case Issue(i, fault) =>
      var reply := Exec(w.table, CommandOf(w.fwds[i]).value, fault);
      var f' := Resume(w.fwds[i], reply.ok, reply.output);
      World(reply.table, w.fwds[i := f'], Record(w, i, f', reply.ok), SoughtAfter(w, i, f'))
    case ForeignInsert(c, at, text) =>
      var rules := w.table.chains[c];
      w.(table := w.table.(chains := w.table.chains[c := Spliced(rules, at, Rule(w.table.next, text))],
                           next := w.table.next + 1),
         ledger := w.ledger[w.table.next := Foreign(c)])
    case ForeignDelete(c, h) =>
      w.(table := w.table.(chains := w.table.chains[c := Without(w.table.chains[c], h)]), ledger := w.ledger - {h})
  }

  // A run: every action is enabled when it is taken.
  predicate Runs(w: World, actions: seq<Action>)
    decreases |actions|
  {
    actions == [] || (Enabled(w, actions[0]) && Runs(Next(w, actions[0]), actions[1..]))
  }

  function After(w: World, actions: seq<Action>): World
    requires Runs(w, actions)
    decreases |actions|
  {
    if actions == [] then w else After(Next(w, actions[0]), actions[1..])
  }

  predicate Echoing(actions: seq<Action>) {
    forall k :: 0 <= k < |actions| && actions[k].Issue? ==> !actions[k].fault.Mute?
  }

  // A lookup about to be made by action a finds the forwarder's own rule: no rule in
  // front of it has its text.
  predicate Undisturbed(w: World, a: Action) {
    a.Issue? && a.id in w.fwds && w.fwds[a.id].pc.Finding? && a.id in w.sought && a.fault.Obey? ==>
      var s := w.fwds[a.id].pc.slot;
      forall k :: 0 <= k < |View(w.table, ChainOf(s))| && View(w.table, ChainOf(s))[k].handle == w.sought[a.id] ==>
        !Overtaken(View(w.table, ChainOf(s)), k, SpecOf(w.fwds[a.id].plan, s))
  }

  // No lookup of the run is disturbed.
  predicate NeverDisturbed(w: World, actions: seq<Action>)
    requires Runs(w, actions)
    decreases |actions|
  {
    actions == [] || (Undisturbed(w, actions[0]) && NeverDisturbed(Next(w, actions[0]), actions[1..]))
  }

  // ---- The invariant ----

  // No rule has been inserted for this slot, or for one that comes later.
  predicate NotYet(h: Handles, s: Slot) {
    && h.route == 0 && (s != RouteSlot ==> h.conn == 0)
    && (s == DnatSlot || s == SnatSlot ==> h.snat == 0) && (s == DnatSlot ==> h.dnat == 0)
  }

  // Where a forwarder stands determines which of its handles are still zero.
  predicate InOrder(f: Forwarder) {
    match f.pc
    case Idle => f.h == NO_HANDLES
    case Live => true
    case ProbeTable => f.h == NO_HANDLES
    case MakeTable => f.h == NO_HANDLES
    case Adding(s) => NotYet(f.h, s)
    case ProbeMark => f.h.conn == 0 && f.h.route == 0
    case MakeMark => f.h.conn == 0 && f.h.route == 0
    case Removing(s) => Get(f.h, s) > 0
    case Finding(s) => NotYet(f.h, s)
    case Undoing(s, h) => NotYet(f.h, s)
  }

  function Present(t: Table, c: Chain): set<nat> {
    HandlesOf(View(t, c))
  }

  // The ledger lists every rule of the table, once, under its chain, and nothing else.
  ghost predicate Listed(t: Table, ledger: map<nat, Owner>) {
    forall c, h :: h in Present(t, c) <==> h in ledger && OwnerChain(ledger[h]) == c
  }

  // A rule is listed under a slot of a forwarder exactly when that slot holds its handle.
  ghost predicate Agreed(fwds: map<nat, Forwarder>, ledger: map<nat, Owner>) {
    && (forall h :: h in ledger && ledger[h].Held? ==>
          ledger[h].id in fwds && Get(fwds[ledger[h].id].h, ledger[h].slot) == h)
    && (forall i, s :: i in fwds && Get(fwds[i].h, s) > 0 ==>
          Get(fwds[i].h, s) in ledger && ledger[Get(fwds[i].h, s)] == Held(i, s))
  }

  // A held rule has the text its forwarder planned for the slot.
  ghost predicate Worded(t: Table, fwds: map<nat, Forwarder>) {
    forall i, s :: i in fwds && Get(fwds[i].h, s) > 0 ==>
      Rule(Get(fwds[i].h, s), SpecOf(fwds[i].plan, s)) in View(t, ChainOf(s))
  }

  // The rule forwarder i has inserted and is looking for, or about to delete.
  ghost predicate Pending(t: Table, f: Forwarder, ledger: map<nat, Owner>, i: nat, h: nat)
    requires Seeks(f)
  {
    && h in ledger && ledger[h] == Sought(i, f.pc.slot)
    && Rule(h, SpecOf(f.plan, f.pc.slot)) in View(t, ChainOf(f.pc.slot))
    && '#' !in SpecOf(f.plan, f.pc.slot) && h <= MAX_INT
    && (f.pc.Undoing? ==> f.pc.handle == h)
  }

  // What is sought is pending, and nothing else is listed as sought.
  ghost predicate Looked(t: Table, fwds: map<nat, Forwarder>, ledger: map<nat, Owner>, sought: map<nat, nat>) {
    && (forall i :: i in sought <==> i in fwds && Seeks(fwds[i]))
    && (forall i :: i in sought ==> Pending(t, fwds[i], ledger, i, sought[i]))
    && (forall h :: h in ledger && ledger[h].Sought? ==> ledger[h].id in sought && sought[ledger[h].id] == h)
  }

  ghost predicate Inv(w: World) {
    && Valid(w.table)
    && (forall i :: i in w.fwds ==> InOrder(w.fwds[i]) && WellWritten(w.fwds[i].plan))
    && Listed(w.table, w.ledger) && Agreed(w.fwds, w.ledger) && Worded(w.table, w.fwds)
    && Looked(w.table, w.fwds, w.ledger, w.sought)
  }

  // Before any forwarder starts, every rule belongs to somebody else.
  ghost predicate Initial(w: World) {
    && Valid(w.table) && w.fwds == map[] && w.sought == map[]
    && Listed(w.table, w.ledger)
    && forall h :: h in w.ledger ==> w.ledger[h].Foreign?
  }

  // ---- How the table changes ----

  ghost predicate Grows(t: Table, u: Table, c: Chain, r: Rule) {
    && r.handle == t.next && u.next == t.next + 1
    && (forall d :: d != c ==> View(u, d) == View(t, d))
    && Present(u, c) == Present(t, c) + {r.handle}
    && (forall x :: x in View(t, c) || x == r ==> x in View(u, c))
  }

  ghost predicate Shrinks(t: Table, u: Table, c: Chain, h: nat) {
    && u.next == t.next
    && (forall d :: d != c ==> View(u, d) == View(t, d))
    && Present(u, c) == Present(t, c) - {h}
    && (forall x :: x in View(t, c) && x.handle != h ==> x in View(u, c))
  }

  ghost predicate SameViews(t: Table, u: Table) {
    u.next == t.next && forall c :: View(u, c) == View(t, c)
  }

  function Spliced(rules: seq<Rule>, at: nat, r: Rule): seq<Rule>
    requires at <= |rules|
  {
    rules[..at] + [r] + rules[at..]
  }

  lemma SplicedMembers(rules: seq<Rule>, at: nat, r: Rule)
    requires at <= |rules|
    ensures forall x :: x in Spliced(rules, at, r) <==> x in rules || x == r
  {
    assert rules == rules[..at] + rules[at..];
  }

  lemma HandleIn(rules: seq<Rule>, x: Rule)
    requires x in rules
    ensures x.handle in HandlesOf(rules)
  {
  }

  lemma SplicedHandles(rules: seq<Rule>, at: nat, r: Rule)
    requires at <= |rules|
    ensures HandlesOf(Spliced(rules, at, r)) == HandlesOf(rules) + {r.handle}
  {
    SplicedMembers(rules, at, r);
    var all := Spliced(rules, at, r);
    forall h ensures h in HandlesOf(all) <==> h in HandlesOf(rules) + {r.handle} {
      if h in HandlesOf(all) {
        var i :| 0 <= i < |all| && all[i].handle == h;
        assert all[i] in rules || all[i] == r;
        if all[i] != r {
          HandleIn(rules, all[i]);
        }
      }
      if h in HandlesOf(rules) {
        var i :| 0 <= i < |rules| && rules[i].handle == h;
        HandleIn(all, rules[i]);
      }
      HandleIn(all, r);
    }
  }

  lemma SplicedDistinct(rules: seq<Rule>, at: nat, r: Rule)
    requires at <= |rules| && Distinct(rules) && r.handle !in HandlesOf(rules)
    ensures Distinct(Spliced(rules, at, r))
  {
    var all := Spliced(rules, at, r);
    forall j | 0 <= j < |all| && j != at ensures all[j] == rules[if j < at then j else j - 1] && all[j].handle != r.handle {
      HandleIn(rules, rules[if j < at then j else j - 1]);
    }
    assert all[at] == r;
  }

  lemma InsertGrows(t: Table, c: Chain, at: nat, r: Rule)
    requires Valid(t) && c in t.chains && at <= |t.chains[c]| && r.handle == t.next
    ensures var u := t.(chains := t.chains[c := Spliced(t.chains[c], at, r)], next := t.next + 1);
            Valid(u) && Grows(t, u, c, r)
  {
    var rules := t.chains[c];
    SplicedMembers(rules, at, r);
    SplicedHandles(rules, at, r);
    SplicedDistinct(rules, at, r);
    ReplaceKeepsValid(t, c, Spliced(rules, at, r), t.next + 1);
  }

  lemma DeleteShrinks(t: Table, c: Chain, h: nat)
    requires Valid(t) && c in t.chains
    ensures var u := t.(chains := t.chains[c := Without(t.chains[c], h)]);
            Valid(u) && Shrinks(t, u, c, h)
  {
    HandlesOfWithout(t.chains[c], h);
    ReplaceKeepsValid(t, c, Without(t.chains[c], h), t.next);
  }

  // ---- Preservation ----

  lemma Unlisted(t: Table, ledger: map<nat, Owner>)
    requires Valid(t) && Listed(t, ledger)
    ensures t.next !in ledger
  {
    assert t.next in ledger ==> t.next in Present(t, OwnerChain(ledger[t.next]));
  }

  lemma ZeroUnlisted(t: Table, ledger: map<nat, Owner>)
    requires Valid(t) && Listed(t, ledger)
    ensures 0 !in ledger
  {
    assert 0 in ledger ==> 0 in Present(t, OwnerChain(ledger[0]));
  }

  lemma ListedGrows(t: Table, u: Table, ledger: map<nat, Owner>, c: Chain, r: Rule, o: Owner)
    requires Valid(t) && Listed(t, ledger) && Grows(t, u, c, r) && OwnerChain(o) == c
    ensures r.handle !in ledger && Listed(u, ledger[r.handle := o])
  {
    Unlisted(t, ledger);
    forall d, h ensures h in Present(u, d) <==> h in ledger[r.handle := o] && OwnerChain(ledger[r.handle := o][h]) == d {
      assert h in Present(t, d) <==> h in ledger && OwnerChain(ledger[h]) == d;
      assert d != c ==> Present(u, d) == Present(t, d);
    }
  }

  lemma ListedShrinks(t: Table, u: Table, ledger: map<nat, Owner>, c: Chain, x: nat)
    requires Listed(t, ledger) && Shrinks(t, u, c, x) && x in ledger && OwnerChain(ledger[x]) == c
    ensures Listed(u, ledger - {x})
  {
    forall d, h ensures h in Present(u, d) <==> h in ledger - {x} && OwnerChain((ledger - {x})[h]) == d {
      assert h in Present(t, d) <==> h in ledger && OwnerChain(ledger[h]) == d;
      assert d != c ==> Present(u, d) == Present(t, d);
    }
  }

  lemma ListedRelabelled(t: Table, ledger: map<nat, Owner>, x: nat, o: Owner)
    requires Listed(t, ledger) && x in ledger && OwnerChain(o) == OwnerChain(ledger[x])
    ensures Listed(t, ledger[x := o])
  {
    forall d, h ensures h in Present(t, d) <==> h in ledger[x := o] && OwnerChain(ledger[x := o][h]) == d {
      assert h in Present(t, d) <==> h in ledger && OwnerChain(ledger[h]) == d;
    }
  }

  lemma ListedSame(t: Table, u: Table, ledger: map<nat, Owner>)
    requires Listed(t, ledger) && SameViews(t, u)
    ensures Listed(u, ledger)
  {
    forall d, h ensures h in Present(u, d) <==> h in ledger && OwnerChain(ledger[h]) == d {
      assert h in Present(t, d) <==> h in ledger && OwnerChain(ledger[h]) == d;
    }
  }

  // ---- How the parts of the invariant change ----

  // The ledger lists the same rules as held.
  ghost predicate SameHeld(ledger: map<nat, Owner>, ledger': map<nat, Owner>) {
    && (forall h :: h in ledger && ledger[h].Held? ==> h in ledger' && ledger'[h] == ledger[h])
    && (forall h :: h in ledger' && ledger'[h].Held? ==> h in ledger && ledger'[h] == ledger[h])
  }

  lemma AgreedSame(fwds: map<nat, Forwarder>, ledger: map<nat, Owner>, ledger': map<nat, Owner>, i: nat, f: Forwarder)
    requires Agreed(fwds, ledger) && SameHeld(ledger, ledger')
    requires if i in fwds then f.h == fwds[i].h else f.h == NO_HANDLES
    ensures Agreed(fwds[i := f], ledger')
  {
    var fwds' := fwds[i := f];
    forall j, s | j in fwds' && Get(fwds'[j].h, s) > 0
      ensures Get(fwds'[j].h, s) in ledger' && ledger'[Get(fwds'[j].h, s)] == Held(j, s)
    {
      assert j in fwds && Get(fwds[j].h, s) == Get(fwds'[j].h, s);
    }
    forall h | h in ledger' && ledger'[h].Held?
      ensures ledger'[h].id in fwds' && Get(fwds'[ledger'[h].id].h, ledger'[h].slot) == h
    {
      assert ledger[h].id in fwds && Get(fwds[ledger[h].id].h, ledger[h].slot) == h;
    }
  }

  lemma WordedSame(t: Table, u: Table, fwds: map<nat, Forwarder>, i: nat, f: Forwarder)
    requires Worded(t, fwds) && forall c, r :: r in View(t, c) ==> r in View(u, c)
    requires if i in fwds then f.h == fwds[i].h && (f.plan == fwds[i].plan || f.h == NO_HANDLES) else f.h == NO_HANDLES
    ensures Worded(u, fwds[i := f])
  {
    var fwds' := fwds[i := f];
    forall j, s | j in fwds' && Get(fwds'[j].h, s) > 0
      ensures Rule(Get(fwds'[j].h, s), SpecOf(fwds'[j].plan, s)) in View(u, ChainOf(s))
    {
      assert j in fwds && Get(fwds[j].h, s) == Get(fwds'[j].h, s) && fwds'[j].plan == fwds[j].plan;
    }
  }

  // What the other forwarders look for is still there, and still theirs.
  ghost predicate OthersPending(t: Table, u: Table, fwds: map<nat, Forwarder>, ledger: map<nat, Owner>, ledger': map<nat, Owner>,
                                sought: map<nat, nat>, i: nat)
    requires Looked(t, fwds, ledger, sought)
  {
    && (forall j :: j in sought && j != i ==> Pending(u, fwds[j], ledger', j, sought[j]))
    && (forall h :: h in ledger' && ledger'[h].Sought? && ledger'[h].id != i ==> h in ledger && ledger'[h] == ledger[h])
  }

  // Only the rule with handle x and its place in the ledger may have changed.
  ghost predicate OnlyAt(t: Table, u: Table, ledger: map<nat, Owner>, ledger': map<nat, Owner>, x: nat) {
    && (forall h :: h != x ==> (h in ledger' <==> h in ledger) && (h in ledger ==> ledger'[h] == ledger[h]))
    && (forall c, r :: r in View(t, c) && r.handle != x ==> r in View(u, c))
  }

  lemma GrowsOnlyAt(t: Table, u: Table, c: Chain, r: Rule, ledger: map<nat, Owner>, o: Owner)
    requires Grows(t, u, c, r)
    ensures OnlyAt(t, u, ledger, ledger[r.handle := o], r.handle)
  {
    forall d, x | x in View(t, d) ensures x in View(u, d) {
      assert d != c ==> View(u, d) == View(t, d);
    }
  }

  lemma ShrinksOnlyAt(t: Table, u: Table, c: Chain, h: nat, ledger: map<nat, Owner>)
    requires Shrinks(t, u, c, h)
    ensures OnlyAt(t, u, ledger, ledger - {h}, h)
  {
    forall d, x | x in View(t, d) && x.handle != h ensures x in View(u, d) {
      assert d != c ==> View(u, d) == View(t, d);
    }
  }

  lemma OthersStayPending(t: Table, u: Table, fwds: map<nat, Forwarder>, ledger: map<nat, Owner>, ledger': map<nat, Owner>,
                          sought: map<nat, nat>, i: nat, x: nat)
    requires Looked(t, fwds, ledger, sought) && OnlyAt(t, u, ledger, ledger', x)
    requires x in ledger && ledger[x].Sought? ==> ledger[x].id == i
    requires x in ledger' && ledger'[x].Sought? ==> ledger'[x].id == i
    ensures OthersPending(t, u, fwds, ledger, ledger', sought, i)
  {
    forall j | j in sought && j != i ensures Pending(u, fwds[j], ledger', j, sought[j]) {
      assert Pending(t, fwds[j], ledger, j, sought[j]);
    }
  }

  lemma LookedForeign(t: Table, u: Table, fwds: map<nat, Forwarder>, ledger: map<nat, Owner>, ledger': map<nat, Owner>,
                      sought: map<nat, nat>, x: nat)
    requires Looked(t, fwds, ledger, sought) && OnlyAt(t, u, ledger, ledger', x)
    requires x in ledger ==> !ledger[x].Sought?
    requires x in ledger' ==> !ledger'[x].Sought?
    ensures Looked(u, fwds, ledger', sought)
  {
    forall j | j in sought ensures Pending(u, fwds[j], ledger', j, sought[j]) {
      assert Pending(t, fwds[j], ledger, j, sought[j]);
    }
  }

  lemma WordedForeign(t: Table, u: Table, fwds: map<nat, Forwarder>, ledger: map<nat, Owner>, ledger': map<nat, Owner>, x: nat)
    requires Worded(t, fwds) && Agreed(fwds, ledger) && OnlyAt(t, u, ledger, ledger', x)
    requires x in ledger ==> !ledger[x].Held?
    ensures Worded(u, fwds)
  {
    forall j, s | j in fwds && Get(fwds[j].h, s) > 0
      ensures Rule(Get(fwds[j].h, s), SpecOf(fwds[j].plan, s)) in View(u, ChainOf(s))
    {
      assert ledger[Get(fwds[j].h, s)] == Held(j, s);
    }
  }

  lemma AgreedForeign(fwds: map<nat, Forwarder>, ledger: map<nat, Owner>, ledger': map<nat, Owner>)
    requires Agreed(fwds, ledger) && SameHeld(ledger, ledger')
    ensures Agreed(fwds, ledger')
  {
    forall h | h in ledger' && ledger'[h].Held?
      ensures ledger'[h].id in fwds && Get(fwds[ledger'[h].id].h, ledger'[h].slot) == h
    {
      assert ledger'[h] == ledger[h];
    }
  }

  // Forwarder i is not looking for anything any more.
  lemma LookedWithout(t: Table, u: Table, fwds: map<nat, Forwarder>, ledger: map<nat, Owner>, ledger': map<nat, Owner>,
                      sought: map<nat, nat>, i: nat, f: Forwarder)
    requires Looked(t, fwds, ledger, sought) && OthersPending(t, u, fwds, ledger, ledger', sought, i)
    requires !Seeks(f) && forall h :: h in ledger' && ledger'[h].Sought? ==> ledger'[h].id != i
    ensures Looked(u, fwds[i := f], ledger', sought - {i})
  {
  }

  // Forwarder i looks for h.
  lemma LookedWith(t: Table, u: Table, fwds: map<nat, Forwarder>, ledger: map<nat, Owner>, ledger': map<nat, Owner>,
                   sought: map<nat, nat>, i: nat, f: Forwarder, h: nat)
    requires Looked(t, fwds, ledger, sought) && OthersPending(t, u, fwds, ledger, ledger', sought, i)
    requires Seeks(f) && Pending(u, f, ledger', i, h)
    requires forall x :: x in ledger' && ledger'[x].Sought? && ledger'[x].id == i ==> x == h
    ensures Looked(u, fwds[i := f], ledger', sought[i := h])
  {
  }

  // ---- The steps ----

  lemma NotSought(w: World, i: nat)
    requires Inv(w) && i !in w.sought
    ensures forall h :: h in w.ledger && w.ledger[h].Sought? ==> w.ledger[h].id != i
  {
  }

  lemma Assemble(w: World, t: Table, i: nat, f: Forwarder, ledger': map<nat, Owner>, sought': map<nat, nat>)
    requires Inv(w) && Valid(t) && InOrder(f) && WellWritten(f.plan)
    requires Listed(t, ledger') && Agreed(w.fwds[i := f], ledger') && Worded(t, w.fwds[i := f])
    requires Looked(t, w.fwds[i := f], ledger', sought')
    ensures Inv(World(t, w.fwds[i := f], ledger', sought'))
  {
  }

  // Nothing but one forwarder's position changes.
  lemma MoveKeepsInv(w: World, t: Table, i: nat, f: Forwarder)
    requires Inv(w) && Valid(t) && SameViews(w.table, t) && InOrder(f) && WellWritten(f.plan) && !Seeks(f)
    requires if i in w.fwds then f.h == w.fwds[i].h && (f.plan == w.fwds[i].plan || f.h == NO_HANDLES) && !Seeks(w.fwds[i])
             else f.h == NO_HANDLES
    ensures Inv(World(t, w.fwds[i := f], w.ledger, w.sought - {i}))
  {
    ListedSame(w.table, t, w.ledger);
    AgreedSame(w.fwds, w.ledger, w.ledger, i, f);
    WordedSame(w.table, t, w.fwds, i, f);
    Unlisted(w.table, w.ledger);
    LookedStops(w, t, i, f, w.ledger, w.table.next);
  }

  lemma ForeignInsertKeepsInv(w: World, t: Table, c: Chain, r: Rule)
    requires Inv(w) && Valid(t) && Grows(w.table, t, c, r)
    ensures Inv(World(t, w.fwds, w.ledger[r.handle := Foreign(c)], w.sought))
  {
    var ledger' := w.ledger[r.handle := Foreign(c)];
    ListedGrows(w.table, t, w.ledger, c, r, Foreign(c));
    GrowsOnlyAt(w.table, t, c, r, w.ledger, Foreign(c));
    AgreedForeign(w.fwds, w.ledger, ledger');
    WordedForeign(w.table, t, w.fwds, w.ledger, ledger', r.handle);
    LookedForeign(w.table, t, w.fwds, w.ledger, ledger', w.sought, r.handle);
  }

  lemma ForeignDeleteKeepsInv(w: World, t: Table, c: Chain, h: nat)
    requires Inv(w) && Valid(t) && Shrinks(w.table, t, c, h) && h in w.ledger && w.ledger[h] == Foreign(c)
    ensures Inv(World(t, w.fwds, w.ledger - {h}, w.sought))
  {
    ListedShrinks(w.table, t, w.ledger, c, h);
    ShrinksOnlyAt(w.table, t, c, h, w.ledger);
    AgreedForeign(w.fwds, w.ledger, w.ledger - {h});
    WordedForeign(w.table, t, w.fwds, w.ledger, w.ledger - {h}, h);
    LookedForeign(w.table, t, w.fwds, w.ledger, w.ledger - {h}, w.sought, h);
  }

  lemma AgreedGrows(fwds: map<nat, Forwarder>, ledger: map<nat, Owner>, i: nat, s: Slot, f: Forwarder, h: nat)
    requires Agreed(fwds, ledger) && i in fwds && Get(fwds[i].h, s) == 0 && h > 0 && h !in ledger && f.h == Set(fwds[i].h, s, h)
    requires 0 !in ledger
    ensures Agreed(fwds[i := f], ledger[h := Held(i, s)])
  {
    var fwds', ledger' := fwds[i := f], ledger[h := Held(i, s)];
    forall j, r | j in fwds' && Get(fwds'[j].h, r) > 0
      ensures Get(fwds'[j].h, r) in ledger' && ledger'[Get(fwds'[j].h, r)] == Held(j, r)
    {
      if !(j == i && r == s) {
        assert Get(fwds[j].h, r) == Get(fwds'[j].h, r);
      }
    }
    forall x | x in ledger' && ledger'[x].Held?
      ensures ledger'[x].id in fwds' && Get(fwds'[ledger'[x].id].h, ledger'[x].slot) == x
    {
      if x != h {
        assert Get(fwds[ledger[x].id].h, ledger[x].slot) == x;
      }
    }
  }

  lemma WordedGrows(t: Table, u: Table, fwds: map<nat, Forwarder>, i: nat, s: Slot, f: Forwarder, h: nat)
    requires Worded(t, fwds) && i in fwds && f.plan == fwds[i].plan && f.h == Set(fwds[i].h, s, h)
    requires Grows(t, u, ChainOf(s), Rule(h, SpecOf(f.plan, s)))
    ensures Worded(u, fwds[i := f])
  {
    var fwds' := fwds[i := f];
    forall j, r | j in fwds' && Get(fwds'[j].h, r) > 0
      ensures Rule(Get(fwds'[j].h, r), SpecOf(fwds'[j].plan, r)) in View(u, ChainOf(r))
    {
      if !(j == i && r == s) {
        assert Get(fwds[j].h, r) == Get(fwds'[j].h, r) && fwds'[j].plan == fwds[j].plan;
        assert Rule(Get(fwds[j].h, r), SpecOf(fwds[j].plan, r)) in View(t, ChainOf(r));
      }
    }
  }

  lemma AddKeepsInv(w: World, t: Table, i: nat, s: Slot, f: Forwarder)
    requires Inv(w) && Valid(t) && i in w.fwds && Get(w.fwds[i].h, s) == 0 && InOrder(f) && !Seeks(f) && !Seeks(w.fwds[i])
    requires Grows(w.table, t, ChainOf(s), Rule(w.table.next, SpecOf(f.plan, s)))
    requires f.h == Set(w.fwds[i].h, s, w.table.next) && f.plan == w.fwds[i].plan
    ensures Inv(World(t, w.fwds[i := f], w.ledger[w.table.next := Held(i, s)], w.sought - {i}))
  {
    var r := Rule(w.table.next, SpecOf(f.plan, s));
    ListedGrows(w.table, t, w.ledger, ChainOf(s), r, Held(i, s));
    ZeroUnlisted(w.table, w.ledger);
    AgreedGrows(w.fwds, w.ledger, i, s, f, w.table.next);
    WordedGrows(w.table, t, w.fwds, i, s, f, w.table.next);
    GrowsOnlyAt(w.table, t, ChainOf(s), r, w.ledger, Held(i, s));
    LookedStops(w, t, i, f, w.ledger[w.table.next := Held(i, s)], w.table.next);
  }

  // Forwarder i, which looks for nothing, goes on like that.
  lemma LookedStops(w: World, t: Table, i: nat, f: Forwarder, ledger': map<nat, Owner>, x: nat)
    requires Looked(w.table, w.fwds, w.ledger, w.sought) && i !in w.sought && !Seeks(f)
    requires OnlyAt(w.table, t, w.ledger, ledger', x)
    requires (x in w.ledger ==> !w.ledger[x].Sought?) && (x in ledger' ==> !ledger'[x].Sought?)
    ensures Looked(t, w.fwds[i := f], ledger', w.sought - {i})
  {
    OthersStayPending(w.table, t, w.fwds, w.ledger, ledger', w.sought, i, x);
    LookedWithout(w.table, t, w.fwds, w.ledger, ledger', w.sought, i, f);
  }

  // Forwarder i, which looked for x, stops looking for it.
  lemma LookedEnds(w: World, t: Table, i: nat, f: Forwarder, ledger': map<nat, Owner>, x: nat)
    requires Looked(w.table, w.fwds, w.ledger, w.sought) && i in w.sought && w.sought[i] == x && !Seeks(f)
    requires OnlyAt(w.table, t, w.ledger, ledger', x)
    requires x in ledger' ==> !ledger'[x].Sought?
    ensures Looked(t, w.fwds[i := f], ledger', w.sought - {i})
  {
    assert Pending(w.table, w.fwds[i], w.ledger, i, x);
    OthersStayPending(w.table, t, w.fwds, w.ledger, ledger', w.sought, i, x);
    LookedWithout(w.table, t, w.fwds, w.ledger, ledger', w.sought, i, f);
  }

  // A rule is added, and its handle not learned.
  lemma SilentKeepsInv(w: World, t: Table, i: nat, s: Slot, f: Forwarder)
    requires Inv(w) && Valid(t) && i in w.fwds && w.fwds[i].pc == Adding(s) && f == w.fwds[i].(pc := Finding(s))
    requires Grows(w.table, t, ChainOf(s), Rule(w.table.next, SpecOf(f.plan, s)))
    requires '#' !in SpecOf(f.plan, s) && w.table.next <= MAX_INT
    ensures Inv(World(t, w.fwds[i := f], w.ledger[w.table.next := Sought(i, s)], w.sought[i := w.table.next]))
  {
    var n := w.table.next;
    var r := Rule(n, SpecOf(f.plan, s));
    var ledger' := w.ledger[n := Sought(i, s)];
    ListedGrows(w.table, t, w.ledger, ChainOf(s), r, Sought(i, s));
    GrowsOnlyAt(w.table, t, ChainOf(s), r, w.ledger, Sought(i, s));
    assert InOrder(w.fwds[i]);
    AgreedSame(w.fwds, w.ledger, ledger', i, f);
    GrowsViews(w.table, t, ChainOf(s), r);
    WordedSame(w.table, t, w.fwds, i, f);
    NotSought(w, i);
    OthersStayPending(w.table, t, w.fwds, w.ledger, ledger', w.sought, i, n);
    LookedWith(w.table, t, w.fwds, w.ledger, ledger', w.sought, i, f, n);
    Assemble(w, t, i, f, ledger', w.sought[i := n]);
  }

  lemma GrowsViews(t: Table, u: Table, c: Chain, r: Rule)
    requires Grows(t, u, c, r)
    ensures r in View(u, c) && forall d, x :: x in View(t, d) ==> x in View(u, d)
  {
    forall d, x | x in View(t, d) ensures x in View(u, d) {
      assert d != c ==> View(u, d) == View(t, d);
    }
  }

  // It has been found.
  lemma FoundKeepsInv(w: World, i: nat, s: Slot, f: Forwarder)
    requires Inv(w) && i in w.fwds && i in w.sought && w.fwds[i].pc == Finding(s) && f == w.fwds[i].(pc := Undoing(s, w.sought[i]))
    ensures Inv(World(w.table, w.fwds[i := f], w.ledger, w.sought))
  {
    AgreedSame(w.fwds, w.ledger, w.ledger, i, f);
    WordedSame(w.table, w.table, w.fwds, i, f);
    assert InOrder(w.fwds[i]);
    LookedFound(w, i, s, f);
    Assemble(w, w.table, i, f, w.ledger, w.sought);
  }

  lemma LookedFound(w: World, i: nat, s: Slot, f: Forwarder)
    requires Looked(w.table, w.fwds, w.ledger, w.sought) && i in w.fwds && i in w.sought
    requires w.fwds[i].pc == Finding(s) && f == w.fwds[i].(pc := Undoing(s, w.sought[i]))
    ensures Looked(w.table, w.fwds[i := f], w.ledger, w.sought)
  {
    var h := w.sought[i];
    assert Pending(w.table, w.fwds[i], w.ledger, i, h);
    OthersStayPending(w.table, w.table, w.fwds, w.ledger, w.ledger, w.sought, i, h);
    LookedWith(w.table, w.table, w.fwds, w.ledger, w.ledger, w.sought, i, f, h);
    assert w.sought[i := h] == w.sought;
  }

  // It is given up: it cannot be found, or deleting it is refused.
  lemma GiveUpKeepsInv(w: World, i: nat, f: Forwarder)
    requires Inv(w) && i in w.fwds && Seeks(w.fwds[i]) && !Seeks(f) && InOrder(f) && f.h == w.fwds[i].h && f.plan == w.fwds[i].plan
    ensures Inv(World(w.table, w.fwds[i := f], GivenUp(w.ledger, w.sought, i), w.sought - {i}))
  {
    assert i in w.sought;
    var ledger' := GivenUp(w.ledger, w.sought, i);
    GivenUpIsListed(w, i, w.sought[i], ledger');
    AgreedSame(w.fwds, w.ledger, ledger', i, f);
    WordedSame(w.table, w.table, w.fwds, i, f);
    LookedEnds(w, w.table, i, f, ledger', w.sought[i]);
    Assemble(w, w.table, i, f, ledger', w.sought - {i});
  }

  lemma GivenUpIsListed(w: World, i: nat, h: nat, ledger': map<nat, Owner>)
    requires ledger' == GivenUp(w.ledger, w.sought, i) && Listed(w.table, w.ledger) && Looked(w.table, w.fwds, w.ledger, w.sought)
    requires i in w.fwds && Seeks(w.fwds[i]) && i in w.sought && h == w.sought[i]
    ensures Listed(w.table, ledger') && SameHeld(w.ledger, ledger') && OnlyAt(w.table, w.table, w.ledger, ledger', h)
    ensures h in ledger' && ledger'[h].Stuck?
  {
    assert Pending(w.table, w.fwds[i], w.ledger, i, h);
    ListedRelabelled(w.table, w.ledger, h, Stuck(OwnerChain(w.ledger[h])));
  }

  // It is deleted.
  lemma UndoneKeepsInv(w: World, t: Table, i: nat, f: Forwarder)
    requires Inv(w) && Valid(t) && i in w.fwds && Seeks(w.fwds[i]) && !Seeks(f) && InOrder(f)
    requires f.h == w.fwds[i].h && f.plan == w.fwds[i].plan && i in w.sought
    requires Shrinks(w.table, t, ChainOf(w.fwds[i].pc.slot), w.sought[i])
    ensures Inv(World(t, w.fwds[i := f], w.ledger - {w.sought[i]}, w.sought - {i}))
  {
    UndoneIsListed(w, t, i, w.sought[i], ChainOf(w.fwds[i].pc.slot));
    UndoneParts(w, t, i, f, w.sought[i], ChainOf(w.fwds[i].pc.slot));
    Assemble(w, t, i, f, w.ledger - {w.sought[i]}, w.sought - {i});
  }

  lemma UndoneIsListed(w: World, t: Table, i: nat, h: nat, c: Chain)
    requires Listed(w.table, w.ledger) && Looked(w.table, w.fwds, w.ledger, w.sought)
    requires i in w.fwds && Seeks(w.fwds[i]) && i in w.sought && h == w.sought[i] && c == ChainOf(w.fwds[i].pc.slot)
    requires Shrinks(w.table, t, c, h)
    ensures h in w.ledger && w.ledger[h].Sought? && Listed(t, w.ledger - {h})
  {
    assert Pending(w.table, w.fwds[i], w.ledger, i, h);
    ListedShrinks(w.table, t, w.ledger, c, h);
  }

  lemma UndoneParts(w: World, t: Table, i: nat, f: Forwarder, h: nat, c: Chain)
    requires Agreed(w.fwds, w.ledger) && Worded(w.table, w.fwds) && Looked(w.table, w.fwds, w.ledger, w.sought)
    requires i in w.fwds && !Seeks(f) && f.h == w.fwds[i].h && f.plan == w.fwds[i].plan && i in w.sought && h == w.sought[i]
    requires h in w.ledger && w.ledger[h].Sought? && Shrinks(w.table, t, c, h)
    ensures Agreed(w.fwds[i := f], w.ledger - {h}) && Worded(t, w.fwds[i := f])
    ensures Looked(t, w.fwds[i := f], w.ledger - {h}, w.sought - {i})
  {
    var ledger' := w.ledger - {h};
    ShrinksOnlyAt(w.table, t, c, h, w.ledger);
    AgreedSame(w.fwds, w.ledger, ledger', i, f);
    WordedUndone(w.table, t, w.fwds, w.ledger, ledger', i, f, h);
    LookedEnds(w, t, i, f, ledger', h);
  }

  lemma WordedUndone(t: Table, u: Table, fwds: map<nat, Forwarder>, ledger: map<nat, Owner>, ledger': map<nat, Owner>,
                     i: nat, f: Forwarder, h: nat)
    requires Worded(t, fwds) && Agreed(fwds, ledger) && OnlyAt(t, u, ledger, ledger', h)
    requires h in ledger ==> !ledger[h].Held?
    requires i in fwds && f.h == fwds[i].h && f.plan == fwds[i].plan
    ensures Worded(u, fwds[i := f])
  {
    WordedForeign(t, u, fwds, ledger, ledger', h);
    WordedSame(u, u, fwds, i, f);
  }

  // No other slot of any forwarder holds handle h.
  lemma OthersDiffer(w: World, i: nat, s: Slot, f: Forwarder, h: nat)
    requires Inv(w) && i in w.fwds && Get(w.fwds[i].h, s) == h > 0
    requires f.h == Set(w.fwds[i].h, s, 0) && f.plan == w.fwds[i].plan
    ensures h in w.ledger && w.ledger[h] == Held(i, s)
    ensures var fwds := w.fwds[i := f];
            forall j, r :: j in fwds && Get(fwds[j].h, r) > 0 ==>
              j in w.fwds && Get(w.fwds[j].h, r) == Get(fwds[j].h, r) != h && fwds[j].plan == w.fwds[j].plan
  {
    var fwds := w.fwds[i := f];
    forall j, r | j in fwds && Get(fwds[j].h, r) > 0
      ensures j in w.fwds && Get(w.fwds[j].h, r) == Get(fwds[j].h, r) != h && fwds[j].plan == w.fwds[j].plan
    {
      assert j == i ==> r != s;
      assert w.ledger[Get(w.fwds[j].h, r)] == Held(j, r);
    }
  }

  // Handle h is no longer held: the rule is gone, or nobody answers for it.
  lemma AgreedDrops(w: World, i: nat, s: Slot, f: Forwarder, h: nat, ledger': map<nat, Owner>)
    requires Inv(w) && i in w.fwds && Get(w.fwds[i].h, s) == h > 0
    requires f.h == Set(w.fwds[i].h, s, 0) && f.plan == w.fwds[i].plan
    requires forall x :: x != h ==> (x in ledger' <==> x in w.ledger) && (x in ledger' ==> ledger'[x] == w.ledger[x])
    requires h in ledger' ==> !ledger'[h].Held?
    ensures Agreed(w.fwds[i := f], ledger')
  {
    OthersDiffer(w, i, s, f, h);
    var fwds := w.fwds[i := f];
    forall x | x in ledger' && ledger'[x].Held?
      ensures ledger'[x].id in fwds && Get(fwds[ledger'[x].id].h, ledger'[x].slot) == x
    {
      assert Get(w.fwds[w.ledger[x].id].h, w.ledger[x].slot) == x;
    }
  }

  lemma WordedDrops(w: World, t: Table, i: nat, s: Slot, f: Forwarder, h: nat)
    requires Inv(w) && i in w.fwds && Get(w.fwds[i].h, s) == h > 0
    requires f.h == Set(w.fwds[i].h, s, 0) && f.plan == w.fwds[i].plan
    requires forall c, r :: r in View(w.table, c) && r.handle != h ==> r in View(t, c)
    ensures Worded(t, w.fwds[i := f])
  {
    OthersDiffer(w, i, s, f, h);
    var fwds := w.fwds[i := f];
    forall j, r | j in fwds && Get(fwds[j].h, r) > 0
      ensures Rule(Get(fwds[j].h, r), SpecOf(fwds[j].plan, r)) in View(t, ChainOf(r))
    {
      assert Rule(Get(w.fwds[j].h, r), SpecOf(w.fwds[j].plan, r)) in View(w.table, ChainOf(r));
    }
  }

  // A held rule is taken out.
  lemma RemoveKeepsInv(w: World, t: Table, i: nat, s: Slot, f: Forwarder, h: nat)
    requires Inv(w) && Valid(t) && i in w.fwds && Get(w.fwds[i].h, s) == h > 0 && InOrder(f) && !Seeks(f) && !Seeks(w.fwds[i])
    requires f.h == Set(w.fwds[i].h, s, 0) && f.plan == w.fwds[i].plan
    requires Shrinks(w.table, t, ChainOf(s), h)
    ensures Inv(World(t, w.fwds[i := f], w.ledger - {h}, w.sought - {i}))
  {
    OthersDiffer(w, i, s, f, h);
    ListedShrinks(w.table, t, w.ledger, ChainOf(s), h);
    AgreedDrops(w, i, s, f, h, w.ledger - {h});
    ShrinksOnlyAt(w.table, t, ChainOf(s), h, w.ledger);
    WordedDrops(w, t, i, s, f, h);
    LookedStops(w, t, i, f, w.ledger - {h}, h);
    Assemble(w, t, i, f, w.ledger - {h}, w.sought - {i});
  }

  // Its delete is refused: the rule stays and nobody answers for it any more.
  lemma AbandonKeepsInv(w: World, i: nat, s: Slot, f: Forwarder, h: nat)
    requires Inv(w) && i in w.fwds && Get(w.fwds[i].h, s) == h > 0 && InOrder(f) && !Seeks(f) && !Seeks(w.fwds[i])
    requires f.h == Set(w.fwds[i].h, s, 0) && f.plan == w.fwds[i].plan
    ensures Inv(World(w.table, w.fwds[i := f], w.ledger[h := Stuck(ChainOf(s))], w.sought - {i}))
  {
    OthersDiffer(w, i, s, f, h);
    ListedRelabelled(w.table, w.ledger, h, Stuck(ChainOf(s)));
    AgreedDrops(w, i, s, f, h, w.ledger[h := Stuck(ChainOf(s))]);
    WordedDrops(w, w.table, i, s, f, h);
    LookedStops(w, w.table, i, f, w.ledger[h := Stuck(ChainOf(s))], h);
    Assemble(w, w.table, i, f, w.ledger[h := Stuck(ChainOf(s))], w.sought - {i});
  }

  lemma InsertedAtHead(t: Table, c: Chain, r: Rule)
    requires Valid(t) && c in t.chains && r.handle == t.next
    ensures var u := t.(chains := t.chains[c := [r] + t.chains[c]], next := t.next + 1); Valid(u) && Grows(t, u, c, r)
  {
    assert Spliced(t.chains[c], 0, r) == [r] + t.chains[c];
    InsertGrows(t, c, 0, r);
  }

  // The reply to an insertion that is carried out, echoed or not.
  lemma InsertReply(t: Table, c: Chain, text: string, fault: Fault)
    requires Valid(t) && Exec(t, Insert(c, text), fault).ok
    ensures var reply := Exec(t, Insert(c, text), fault);
            && Valid(reply.table) && Grows(t, reply.table, c, Rule(t.next, text))
            && '#' !in text && t.next <= MAX_INT
            && ParseHandle(reply.output) == if fault.Mute? then None else Some(t.next)
  {
    EchoIsParsed(c, text, t.next);
    InsertedAtHead(t, c, Rule(t.next, text));
  }

  // What a forwarder makes of it.
  lemma ResumeAfterInsert(f: Forwarder, s: Slot, output: seq<string>, handle: nat)
    requires f.pc == Adding(s) && InOrder(f) && ParseHandle(output) == Some(handle)
    ensures var f' := Resume(f, true, output);
            f'.h == Set(f.h, s, handle) && f'.plan == f.plan && InOrder(f') && Get(f.h, s) == 0 && !Seeks(f')
  {
  }

  lemma AddingKeepsInv(w: World, i: nat, fault: Fault, s: Slot)
    requires Inv(w) && Enabled(w, Issue(i, fault)) && w.fwds[i].pc == Adding(s)
    requires Exec(w.table, Insert(ChainOf(s), SpecOf(w.fwds[i].plan, s)), fault).ok
    ensures Inv(Next(w, Issue(i, fault)))
  {
    var f := w.fwds[i];
    var reply := Exec(w.table, Insert(ChainOf(s), SpecOf(f.plan, s)), fault);
    assert InOrder(f);
    InsertReply(w.table, ChainOf(s), SpecOf(f.plan, s), fault);
    if fault.Mute? {
      SilentKeepsInv(w, reply.table, i, s, f.(pc := Finding(s)));
    } else {
      ResumeAfterInsert(f, s, reply.output, w.table.next);
      AddKeepsInv(w, reply.table, i, s, Resume(f, true, reply.output));
    }
  }

  lemma DeleteReply(t: Table, c: Chain, h: nat, fault: Fault)
    requires Valid(t)
    ensures var reply := Exec(t, Delete(c, h), fault);
            if reply.ok then Valid(reply.table) && Shrinks(t, reply.table, c, h) else reply.table == t
  {
    if c in t.chains {
      DeleteShrinks(t, c, h);
    }
  }

  lemma ResumeAfterDelete(f: Forwarder, s: Slot, ok: bool, output: seq<string>)
    requires f.pc == Removing(s)
    ensures var f' := Resume(f, ok, output); f'.h == Set(f.h, s, 0) && f'.plan == f.plan && InOrder(f') && !Seeks(f')
  {
  }

  lemma RemovingKeepsInv(w: World, i: nat, fault: Fault, s: Slot)
    requires Inv(w) && Enabled(w, Issue(i, fault)) && w.fwds[i].pc == Removing(s)
    ensures Inv(Next(w, Issue(i, fault)))
  {
    var f := w.fwds[i];
    assert InOrder(f);
    var h := Get(f.h, s);
    var reply := Exec(w.table, Delete(ChainOf(s), h), fault);
    var f' := Resume(f, reply.ok, reply.output);
    DeleteReply(w.table, ChainOf(s), h, fault);
    ResumeAfterDelete(f, s, reply.ok, reply.output);
    if reply.ok {
      RemoveKeepsInv(w, reply.table, i, s, f', h);
    } else {
      AbandonKeepsInv(w, i, s, f', h);
    }
  }

  // An undisturbed lookup that gets a listing finds the rule that is sought.
  lemma LookupFindsSought(w: World, i: nat, s: Slot)
    requires Inv(w) && i in w.fwds && w.fwds[i].pc == Finding(s) && Undisturbed(w, Issue(i, Obey))
    ensures i in w.sought && ChainOf(s) in w.table.chains
    ensures LookupRuleHandle(Listing(ChainOf(s), w.table.chains[ChainOf(s)], w.table.header), SpecOf(w.fwds[i].plan, s)) == Some(w.sought[i])
  {
    var spec, c, h := SpecOf(w.fwds[i].plan, s), ChainOf(s), w.sought[i];
    assert Pending(w.table, w.fwds[i], w.ledger, i, h);
    var rules := View(w.table, c);
    var k :| 0 <= k < |rules| && rules[k] == Rule(h, spec);
    OwnRuleIsFound(c, rules, w.table.header, spec, k);
  }

  // The two ways on from a lookup.
  lemma LookupReply(w: World, i: nat, fault: Fault, s: Slot)
    requires Enabled(w, Issue(i, fault)) && w.fwds[i].pc == Finding(s)
    ensures var f := w.fwds[i];
            var c := ChainOf(s);
            var found := if c in w.table.chains && fault.Obey?
                         then LookupRuleHandle(Listing(c, w.table.chains[c], w.table.header), SpecOf(f.plan, s)) else None;
            Next(w, Issue(i, fault))
            == if found.Some? then World(w.table, w.fwds[i := f.(pc := Undoing(s, found.value))], w.ledger,
                                         w.sought)
               else World(w.table, w.fwds[i := StopFrom(f)], GivenUp(w.ledger, w.sought, i), w.sought - {i})
  {
    StoppingIsInOrder(w.fwds[i]);
  }

  lemma FindingKeepsInv(w: World, i: nat, fault: Fault, s: Slot)
    requires Inv(w) && Enabled(w, Issue(i, fault)) && w.fwds[i].pc == Finding(s) && Undisturbed(w, Issue(i, fault))
    ensures Inv(Next(w, Issue(i, fault)))
  {
    var f := w.fwds[i];
    LookupReply(w, i, fault, s);
    StoppingIsInOrder(f);
    if fault.Obey? {
      LookupFindsSought(w, i, s);
      FoundKeepsInv(w, i, s, f.(pc := Undoing(s, w.sought[i])));
    } else {
      GiveUpKeepsInv(w, i, StopFrom(f));
    }
  }

  lemma UndoReply(w: World, i: nat, fault: Fault, s: Slot, h: nat)
    requires Enabled(w, Issue(i, fault)) && w.fwds[i].pc == Undoing(s, h)
    ensures var f := w.fwds[i];
            var reply := Exec(w.table, Delete(ChainOf(s), h), fault);
            Next(w, Issue(i, fault))
            == World(reply.table, w.fwds[i := StopFrom(f)], GivenUp(if reply.ok then w.ledger - {h} else w.ledger, w.sought, i), w.sought - {i})
  {
    StoppingIsInOrder(w.fwds[i]);
  }

  lemma UndoingKeepsInv(w: World, i: nat, fault: Fault, s: Slot, h: nat)
    requires Inv(w) && Enabled(w, Issue(i, fault)) && w.fwds[i].pc == Undoing(s, h)
    ensures Inv(Next(w, Issue(i, fault)))
  {
    var f := w.fwds[i];
    assert i in w.sought && Pending(w.table, f, w.ledger, i, w.sought[i]);
    UndoReply(w, i, fault, s, h);
    StoppingIsInOrder(f);
    DeleteReply(w.table, ChainOf(s), h, fault);
    if Exec(w.table, Delete(ChainOf(s), h), fault).ok {
      UndoneKeepsInv(w, Exec(w.table, Delete(ChainOf(s), h), fault).table, i, StopFrom(f));
    } else {
      GiveUpKeepsInv(w, i, StopFrom(f));
    }
  }

  lemma StoppingIsInOrder(f: Forwarder)
    ensures var f' := StopFrom(f); InOrder(f') && !Seeks(f') && f'.h == f.h && f'.plan == f.plan
  {
  }

  lemma CreateIsQuiet(t: Table, cs: set<Chain>)
    requires Valid(t)
    ensures Valid(WithChains(t, cs)) && SameViews(t, WithChains(t, cs))
  {
  }

  // The commands that leave every chain's rules alone.
  lemma QuietReply(t: Table, cmd: Command, fault: Fault)
    requires Valid(t) && !cmd.Delete? && (cmd.Insert? ==> !Exec(t, cmd, fault).ok)
    ensures Valid(Exec(t, cmd, fault).table) && SameViews(t, Exec(t, cmd, fault).table)
  {
    CreateIsQuiet(t, {Mark});
    CreateIsQuiet(t, {Dnat, Snat, Mark});
  }

  lemma ResumeQuietly(f: Forwarder, ok: bool, output: seq<string>)
    requires InOrder(f) && !f.pc.Removing? && !Seeks(f) && (f.pc.Adding? ==> !ok)
    ensures var f' := Resume(f, ok, output); f'.h == f.h && f'.plan == f.plan && InOrder(f') && !Seeks(f')
  {
  }

  lemma QuietKeepsInv(w: World, i: nat, fault: Fault)
    requires Inv(w) && Enabled(w, Issue(i, fault)) && !w.fwds[i].pc.Removing? && !Seeks(w.fwds[i])
    requires w.fwds[i].pc.Adding? ==> !Exec(w.table, CommandOf(w.fwds[i]).value, fault).ok
    ensures Inv(Next(w, Issue(i, fault)))
  {
    var f := w.fwds[i];
    assert InOrder(f);
    var reply := Exec(w.table, CommandOf(f).value, fault);
    QuietReply(w.table, CommandOf(f).value, fault);
    ResumeQuietly(f, reply.ok, reply.output);
    MoveKeepsInv(w, reply.table, i, Resume(f, reply.ok, reply.output));
  }

  lemma IssueKeepsInv(w: World, i: nat, fault: Fault)
    requires Inv(w) && Enabled(w, Issue(i, fault)) && Undisturbed(w, Issue(i, fault))
    ensures Inv(Next(w, Issue(i, fault)))
  {
    var f := w.fwds[i];
    match f.pc
    case Removing(s) => RemovingKeepsInv(w, i, fault, s);
    case Finding(s) => FindingKeepsInv(w, i, fault, s);
    case Undoing(s, h) => UndoingKeepsInv(w, i, fault, s, h);
    case Adding(s) =>
      if Exec(w.table, CommandOf(f).value, fault).ok {
        AddingKeepsInv(w, i, fault, s);
      } else {
        QuietKeepsInv(w, i, fault);
      }
    case _ => QuietKeepsInv(w, i, fault);
  }

  // No forwarder is in the middle of looking for a rule when it is idle or live.
  lemma CallKeepsInv(w: World, i: nat, f: Forwarder)
    requires Inv(w) && InOrder(f) && WellWritten(f.plan) && !Seeks(f)
    requires if i in w.fwds then f.h == w.fwds[i].h && (f.plan == w.fwds[i].plan || f.h == NO_HANDLES) && !Seeks(w.fwds[i])
             else f.h == NO_HANDLES
    ensures Inv(w.(fwds := w.fwds[i := f]))
  {
    MoveKeepsInv(w, w.table, i, f);
    NotSeeking(w, i);
  }

  lemma NotSeeking(w: World, i: nat)
    requires Looked(w.table, w.fwds, w.ledger, w.sought) && (i in w.fwds ==> !Seeks(w.fwds[i]))
    ensures w.sought - {i} == w.sought
  {
    assert i !in w.sought;
  }

  lemma StepKeepsInv(w: World, a: Action)
    requires Inv(w) && Enabled(w, a) && Undisturbed(w, a)
    ensures Inv(Next(w, a))
  {
    match a
    case StartCall(i, p) =>
      assert i in w.fwds ==> InOrder(w.fwds[i]);
      CallKeepsInv(w, i, Begin(p));
    case StopCall(i) =>
      StoppingIsInOrder(w.fwds[i]);
      CallKeepsInv(w, i, StopFrom(w.fwds[i]));
    case Issue(i, fault) =>
      IssueKeepsInv(w, i, fault);
    case ForeignInsert(c, at, text) =>
      var r := Rule(w.table.next, text);
      InsertGrows(w.table, c, at, r);
      ForeignInsertKeepsInv(w, Next(w, a).table, c, r);
    case ForeignDelete(c, h) =>
      DeleteShrinks(w.table, c, h);
      ForeignDeleteKeepsInv(w, Next(w, a).table, c, h);
  }

  // ---- Main results ----

  // Over every run whose lookups are undisturbed, the ledger stays exact.
  lemma {:induction false} LedgerIsExact(w: World, actions: seq<Action>)
    requires Inv(w) && Runs(w, actions) && NeverDisturbed(w, actions)
    ensures Inv(After(w, actions))
    decreases |actions|
  {
    if actions != [] {
      StepKeepsInv(w, actions[0]);
      LedgerIsExact(Next(w, actions[0]), actions[1..]);
    }
  }

  function OwnedBySomeoneElse(w: World, c: Chain): set<nat> {
    set h | h in w.ledger && w.ledger[h] == Foreign(c)
  }

  // Rules that a refused delete or a failed lookup has left behind.
  function LeftBehind(w: World, c: Chain): set<nat> {
    set h | h in w.ledger && w.ledger[h] == Stuck(c)
  }

  function HeldIn(w: World, c: Chain): set<nat> {
    set h | h in w.ledger && w.ledger[h].Held? && ChainOf(w.ledger[h].slot) == c
            && w.ledger[h].id in w.fwds && Get(w.fwds[w.ledger[h].id].h, w.ledger[h].slot) == h
  }

  function SoughtIn(w: World, c: Chain): set<nat> {
    set h | h in w.ledger && w.ledger[h].Sought? && ChainOf(w.ledger[h].slot) == c
            && w.ledger[h].id in w.sought && w.sought[w.ledger[h].id] == h
  }

  lemma AccountedAt(w: World, c: Chain, h: nat)
    requires Listed(w.table, w.ledger) && Agreed(w.fwds, w.ledger) && Looked(w.table, w.fwds, w.ledger, w.sought)
    ensures h in Present(w.table, c)
            <==> h in OwnedBySomeoneElse(w, c) || h in LeftBehind(w, c) || h in HeldIn(w, c) || h in SoughtIn(w, c)
  {
    assert h in Present(w.table, c) <==> h in w.ledger && OwnerChain(w.ledger[h]) == c;
    if h in w.ledger {
      match w.ledger[h]
      case Foreign(_) =>
      case Stuck(_) =>
      case Held(i, s) =>
        assert w.ledger[h].Held?;
      case Sought(i, s) =>
        assert w.ledger[h].Sought?;
    }
  }

  lemma Accounted(w: World, c: Chain)
    requires Listed(w.table, w.ledger) && Agreed(w.fwds, w.ledger) && Looked(w.table, w.fwds, w.ledger, w.sought)
    ensures Present(w.table, c) == OwnedBySomeoneElse(w, c) + LeftBehind(w, c) + HeldIn(w, c) + SoughtIn(w, c)
  {
    forall h
      ensures h in Present(w.table, c)
              <==> h in OwnedBySomeoneElse(w, c) || h in LeftBehind(w, c) || h in HeldIn(w, c) || h in SoughtIn(w, c)
    {
      AccountedAt(w, c, h);
    }
  }

  lemma InitialInv(w: World)
    requires Initial(w)
    ensures Inv(w)
  {
  }

  // Each chain holds the foreign rules, the rules left behind, the rules whose handles
  // some forwarder holds and the rules a forwarder is looking for, and no others.
  lemma EveryRunIsExact(w: World, actions: seq<Action>, c: Chain)
    requires Initial(w) && Runs(w, actions) && NeverDisturbed(w, actions)
    ensures Inv(After(w, actions))
    ensures var u := After(w, actions);
            Present(u.table, c) == OwnedBySomeoneElse(u, c) + LeftBehind(u, c) + HeldIn(u, c) + SoughtIn(u, c)
  {
    InitialInv(w);
    LedgerIsExact(w, actions);
    Accounted(After(w, actions), c);
  }

  // Where insertions echo their handles nobody looks for a rule.
  predicate NobodySeeks(w: World) {
    forall i :: i in w.fwds ==> !Seeks(w.fwds[i])
  }

  lemma EchoedStep(w: World, a: Action)
    requires NobodySeeks(w) && Enabled(w, a) && (a.Issue? ==> !a.fault.Mute?)
    ensures NobodySeeks(Next(w, a)) && Undisturbed(w, a)
  {
    if a.Issue? {
      var f := w.fwds[a.id];
      if f.pc.Adding? && Exec(w.table, CommandOf(f).value, a.fault).ok {
        EchoIsParsed(ChainOf(f.pc.slot), SpecOf(f.plan, f.pc.slot), w.table.next);
      }
    }
  }

  lemma {:induction false} EchoingIsUndisturbed(w: World, actions: seq<Action>)
    requires NobodySeeks(w) && Runs(w, actions) && Echoing(actions)
    ensures NeverDisturbed(w, actions)
    decreases |actions|
  {
    if actions != [] {
      EchoedStep(w, actions[0]);
      assert Echoing(actions[1..]) by {
        forall k | 0 <= k < |actions[1..]| && actions[1..][k].Issue? ensures !actions[1..][k].fault.Mute? {
          assert actions[1..][k] == actions[k + 1];
        }
      }
      EchoingIsUndisturbed(Next(w, actions[0]), actions[1..]);
    }
  }

  // Neither held nor sought by forwarder i.
  predicate NotOf(w: World, i: nat, h: nat) {
    h in w.ledger ==> (w.ledger[h].Held? || w.ledger[h].Sought?) ==> w.ledger[h].id != i
  }

  // A command of forwarder i leaves every rule that i neither holds nor seeks where it is.
  lemma OthersRulesStay(w: World, i: nat, fault: Fault, c: Chain, r: Rule)
    requires Inv(w) && Enabled(w, Issue(i, fault))
    requires r in View(w.table, c) && NotOf(w, i, r.handle)
    ensures r in View(Next(w, Issue(i, fault)).table, c)
  {
    var cmd := CommandOf(w.fwds[i]).value;
    if cmd.Delete? {
      DeletesItsOwn(w, i);
      DeleteSparesOthers(w.table, cmd.chain, cmd.handle, fault, c, r);
    } else {
      QuietOrInsert(w.table, cmd, fault, c, r);
    }
  }

  lemma DeletesItsOwn(w: World, i: nat)
    requires Inv(w) && i in w.fwds && CommandOf(w.fwds[i]).Some? && CommandOf(w.fwds[i]).value.Delete?
    ensures !NotOf(w, i, CommandOf(w.fwds[i]).value.handle)
  {
    var f := w.fwds[i];
    assert InOrder(f);
    if f.pc.Removing? {
      assert w.ledger[Get(f.h, f.pc.slot)] == Held(i, f.pc.slot);
    } else {
      assert i in w.sought && Pending(w.table, f, w.ledger, i, w.sought[i]);
    }
  }

  lemma DeleteSparesOthers(t: Table, d: Chain, h: nat, fault: Fault, c: Chain, r: Rule)
    requires Valid(t) && r in View(t, c) && r.handle != h
    ensures r in View(Exec(t, Delete(d, h), fault).table, c)
  {
    if d in t.chains && d == c {
      HandlesOfWithout(t.chains[d], h);
    }
  }

  lemma QuietOrInsert(t: Table, cmd: Command, fault: Fault, c: Chain, r: Rule)
    requires !cmd.Delete? && r in View(t, c)
    ensures r in View(Exec(t, cmd, fault).table, c)
  {
  }

  // A rule of another program stays.
  ghost predicate ForeignRule(w: World, c: Chain, r: Rule) {
    r in View(w.table, c) && r.handle in w.ledger && w.ledger[r.handle] == Foreign(c)
  }

  lemma ForeignRuleStays(w: World, a: Action, c: Chain, r: Rule)
    requires Inv(w) && Enabled(w, a) && ForeignRule(w, c, r) && a != ForeignDelete(c, r.handle)
    ensures ForeignRule(Next(w, a), c, r)
  {
    match a
    case StartCall(i, p) =>
    case StopCall(i) =>
    case Issue(i, fault) =>
      OthersRulesStay(w, i, fault, c, r);
      ForeignEntryStays(w, i, fault, r.handle);
    case ForeignInsert(d, at, text) =>
      Unlisted(w.table, w.ledger);
      InsertGrows(w.table, d, at, Rule(w.table.next, text));
    case ForeignDelete(d, h) =>
      DeleteShrinks(w.table, d, h);
  }

  lemma RecordKeeps(w: World, i: nat, f': Forwarder, ok: bool, h: nat)
    requires i in w.fwds && h in w.ledger && h != w.table.next
    requires w.fwds[i].pc.Removing? ==> Get(w.fwds[i].h, w.fwds[i].pc.slot) != h
    requires w.fwds[i].pc.Undoing? ==> w.fwds[i].pc.handle != h
    requires i in w.sought ==> w.sought[i] != h
    ensures h in Record(w, i, f', ok) && Record(w, i, f', ok)[h] == w.ledger[h]
  {
  }

  lemma ForeignEntryStays(w: World, i: nat, fault: Fault, h: nat)
    requires Inv(w) && Enabled(w, Issue(i, fault)) && h in w.ledger && w.ledger[h].Foreign?
    ensures var u := Next(w, Issue(i, fault)); h in u.ledger && u.ledger[h] == w.ledger[h]
  {
    Unlisted(w.table, w.ledger);
    var reply := Exec(w.table, CommandOf(w.fwds[i]).value, fault);
    if CommandOf(w.fwds[i]).value.Delete? {
      DeletesItsOwn(w, i);
    }
    assert i in w.sought ==> Pending(w.table, w.fwds[i], w.ledger, i, w.sought[i]);
    RecordKeeps(w, i, Resume(w.fwds[i], reply.ok, reply.output), reply.ok, h);
  }

  // What another program has put into a chain stays there until that program takes it out.
  lemma {:induction false} ForeignRulesStay(w: World, actions: seq<Action>, c: Chain, r: Rule)
    requires Inv(w) && Runs(w, actions) && NeverDisturbed(w, actions)
    requires ForeignRule(w, c, r) && ForeignDelete(c, r.handle) !in actions
    ensures r in View(After(w, actions).table, c)
    decreases |actions|
  {
    if actions != [] {
      StepKeepsInv(w, actions[0]);
      ForeignRuleStays(w, actions[0], c, r);
      ForeignRulesStay(Next(w, actions[0]), actions[1..], c, r);
    }
  }

  // ---- Exactly when a lookup harms somebody ----

  // A listing shows every rule's handle where the lookup expects it.
  predicate Plain(t: Table) {
    forall c, r :: r in View(t, c) ==> '#' !in r.text && r.handle <= MAX_INT
  }

  lemma ReplacedIsPlain(t: Table, c: Chain, rules: seq<Rule>, next: nat)
    requires Plain(t) && forall r :: r in rules ==> '#' !in r.text && r.handle <= MAX_INT
    ensures Plain(t.(chains := t.chains[c := rules], next := next))
  {
    var u := t.(chains := t.chains[c := rules], next := next);
    forall d, r | r in View(u, d) ensures '#' !in r.text && r.handle <= MAX_INT {
      assert d != c ==> View(u, d) == View(t, d);
    }
  }

  lemma SplicedIsPlain(t: Table, c: Chain, at: nat, text: string)
    requires Plain(t) && Acceptable(t, c, text) && at <= |t.chains[c]|
    ensures Plain(t.(chains := t.chains[c := Spliced(t.chains[c], at, Rule(t.next, text))], next := t.next + 1))
  {
    SplicedMembers(t.chains[c], at, Rule(t.next, text));
    assert View(t, c) == t.chains[c];
    ReplacedIsPlain(t, c, Spliced(t.chains[c], at, Rule(t.next, text)), t.next + 1);
  }

  lemma WithoutIsPlain(t: Table, c: Chain, h: nat)
    requires Valid(t) && Plain(t) && c in t.chains
    ensures Plain(t.(chains := t.chains[c := Without(t.chains[c], h)]))
  {
    HandlesOfWithout(t.chains[c], h);
    assert View(t, c) == t.chains[c];
    ReplacedIsPlain(t, c, Without(t.chains[c], h), t.next);
  }

  lemma CreatedIsPlain(t: Table, cs: set<Chain>)
    requires Plain(t)
    ensures Plain(WithChains(t, cs))
  {
    forall c, r | r in View(WithChains(t, cs), c) ensures '#' !in r.text && r.handle <= MAX_INT {
      assert r in View(t, c);
    }
  }

  lemma InsertIsPlain(t: Table, c: Chain, text: string, fault: Fault)
    requires Plain(t)
    ensures Plain(Exec(t, Insert(c, text), fault).table)
  {
    if Acceptable(t, c, text) {
      SplicedIsPlain(t, c, 0, text);
      assert Spliced(t.chains[c], 0, Rule(t.next, text)) == [Rule(t.next, text)] + t.chains[c];
    }
  }

  lemma DeleteIsPlain(t: Table, c: Chain, h: nat, fault: Fault)
    requires Valid(t) && Plain(t)
    ensures Plain(Exec(t, Delete(c, h), fault).table)
  {
    if c in t.chains {
      WithoutIsPlain(t, c, h);
    }
  }

  lemma ExecIsPlain(t: Table, cmd: Command, fault: Fault)
    requires Valid(t) && Plain(t)
    ensures Plain(Exec(t, cmd, fault).table)
  {
    match cmd
    case ListTable =>
    case CreateTable => CreatedIsPlain(t, {Dnat, Snat, Mark});
    case ListChain(c) =>
    case AddMarkChain => CreatedIsPlain(t, {Mark});
    case Insert(c, text) =>
      InsertIsPlain(t, c, text, fault);
    case Delete(c, h) =>
      DeleteIsPlain(t, c, h, fault);
  }

  lemma IssueIsPlain(w: World, i: nat, fault: Fault)
    requires Valid(w.table) && Plain(w.table) && Enabled(w, Issue(i, fault))
    ensures Plain(Next(w, Issue(i, fault)).table)
  {
    ExecIsPlain(w.table, CommandOf(w.fwds[i]).value, fault);
  }

  lemma ForeignInsertIsPlain(w: World, c: Chain, at: nat, text: string)
    requires Plain(w.table) && Enabled(w, ForeignInsert(c, at, text))
    ensures Plain(Next(w, ForeignInsert(c, at, text)).table)
  {
    SplicedIsPlain(w.table, c, at, text);
  }

  // What nft accepts keeps listings like that.
  lemma StepIsPlain(w: World, a: Action)
    requires Valid(w.table) && Plain(w.table) && Enabled(w, a)
    ensures Plain(Next(w, a).table)
  {
    match a
    case StartCall(i, p) =>
    case StopCall(i) =>
    case Issue(i, fault) => IssueIsPlain(w, i, fault);
    case ForeignInsert(c, at, text) => ForeignInsertIsPlain(w, c, at, text);
    case ForeignDelete(c, h) => WithoutIsPlain(w.table, c, h);
  }

  lemma {:induction false} RunIsPlain(w: World, actions: seq<Action>)
    requires Inv(w) && Plain(w.table) && Runs(w, actions) && NeverDisturbed(w, actions)
    ensures Plain(After(w, actions).table)
    decreases |actions|
  {
    if actions != [] {
      StepKeepsInv(w, actions[0]);
      StepIsPlain(w, actions[0]);
      RunIsPlain(Next(w, actions[0]), actions[1..]);
    }
  }

  // After the lookup of forwarder i and the delete that follows it.
  function LookedUpAndDeleted(w: World, i: nat): World
    requires Enabled(w, Issue(i, Obey)) && Enabled(Next(w, Issue(i, Obey)), Issue(i, Obey))
  {
    Next(Next(w, Issue(i, Obey)), Issue(i, Obey))
  }

  // Where the rule is that forwarder i looks for.
  lemma PlaceOfSought(w: World, i: nat, s: Slot) returns (k: nat)
    requires Looked(w.table, w.fwds, w.ledger, w.sought) && i in w.fwds && w.fwds[i].pc == Finding(s)
    ensures i in w.sought && ChainOf(s) in w.table.chains && k < |w.table.chains[ChainOf(s)]|
    ensures w.table.chains[ChainOf(s)][k] == Rule(w.sought[i], SpecOf(w.fwds[i].plan, s))
    ensures '#' !in SpecOf(w.fwds[i].plan, s) && w.sought[i] <= MAX_INT
  {
    assert i in w.sought && Pending(w.table, w.fwds[i], w.ledger, i, w.sought[i]);
    var rules := View(w.table, ChainOf(s));
    k :| 0 <= k < |rules| && rules[k] == Rule(w.sought[i], SpecOf(w.fwds[i].plan, s));
  }

  lemma OnlyPlace(rules: seq<Rule>, k: nat)
    requires Distinct(rules) && k < |rules|
    ensures forall j :: 0 <= j < |rules| && rules[j].handle == rules[k].handle ==> j == k
  {
  }

  // The lookup of forwarder i finds handle h.
  ghost predicate Finds(w: World, i: nat, s: Slot, h: nat) {
    && ChainOf(s) in w.table.chains && i in w.fwds
    && LookupRuleHandle(Listing(ChainOf(s), w.table.chains[ChainOf(s)], w.table.header), SpecOf(w.fwds[i].plan, s)) == Some(h)
  }

  // A lookup finds some rule of its chain, its own one if and only if it is undisturbed.
  lemma LookupFindsExactly(w: World, i: nat, s: Slot, k: nat) returns (r: Rule)
    requires Valid(w.table) && Plain(w.table) && i in w.fwds && w.fwds[i].pc == Finding(s) && WellWritten(w.fwds[i].plan)
    requires i in w.sought && ChainOf(s) in w.table.chains && k < |w.table.chains[ChainOf(s)]|
    requires w.table.chains[ChainOf(s)][k] == Rule(w.sought[i], SpecOf(w.fwds[i].plan, s))
    ensures r in w.table.chains[ChainOf(s)] && Finds(w, i, s, r.handle)
    ensures Undisturbed(w, Issue(i, Obey)) <==> r.handle == w.sought[i]
  {
    var spec, rules := SpecOf(w.fwds[i].plan, s), w.table.chains[ChainOf(s)];
    assert rules == View(w.table, ChainOf(s));
    OnlyPlace(rules, k);
    var j := RuleIsFoundExactly(ChainOf(s), rules, w.table.header, spec, k);
    r := rules[j];
  }

  lemma DeleteFound(t: Table, c: Chain, r: Rule)
    requires c in t.chains && r in t.chains[c]
    ensures Exec(t, Delete(c, r.handle), Obey) == Reply(t.(chains := t.chains[c := Without(t.chains[c], r.handle)]), true, [])
  {
    HandleIn(t.chains[c], r);
  }

  lemma FindStep(w: World, i: nat, s: Slot, r: Rule)
    requires i in w.fwds && w.fwds[i].pc == Finding(s) && Finds(w, i, s, r.handle)
    ensures Enabled(w, Issue(i, Obey))
    ensures var u := Next(w, Issue(i, Obey));
            u.table == w.table && u.fwds == w.fwds[i := w.fwds[i].(pc := Undoing(s, r.handle))]
  {
    LookupReply(w, i, Obey, s);
  }

  lemma UndoStep(w: World, i: nat, s: Slot, r: Rule)
    requires i in w.fwds && w.fwds[i].pc == Undoing(s, r.handle) && ChainOf(s) in w.table.chains && r in w.table.chains[ChainOf(s)]
    ensures Enabled(w, Issue(i, Obey))
    ensures var u := Next(w, Issue(i, Obey));
            && u.table == w.table.(chains := w.table.chains[ChainOf(s) := Without(w.table.chains[ChainOf(s)], r.handle)])
            && u.fwds == w.fwds[i := StopFrom(w.fwds[i])]
  {
    DeleteFound(w.table, ChainOf(s), r);
    UndoReply(w, i, Obey, s, r.handle);
  }

  // Every rule of the chain is there after the delete, except the one that was found.
  lemma FindAndDelete(w: World, i: nat, s: Slot, r: Rule)
    requires i in w.fwds && w.fwds[i].pc == Finding(s) && Finds(w, i, s, r.handle)
    requires r in w.table.chains[ChainOf(s)]
    ensures Enabled(w, Issue(i, Obey)) && Enabled(Next(w, Issue(i, Obey)), Issue(i, Obey))
    ensures var u := LookedUpAndDeleted(w, i);
            View(u.table, ChainOf(s)) == Without(w.table.chains[ChainOf(s)], r.handle) && u.fwds == w.fwds[i := u.fwds[i]]
  {
    FindStep(w, i, s, r);
    UndoStep(Next(w, Issue(i, Obey)), i, s, r);
  }

  // A lookup and the delete after it leave everybody else's rules alone if and only if
  // no rule in front of the one sought has its text in its line. Otherwise the first
  // such rule is deleted and the one sought stays.
  lemma LookupIsHarmlessExactly(w: World, i: nat, s: Slot)
    requires Inv(w) && Plain(w.table) && i in w.fwds && w.fwds[i].pc == Finding(s)
    ensures i in w.sought && Enabled(w, Issue(i, Obey)) && Enabled(Next(w, Issue(i, Obey)), Issue(i, Obey))
    ensures var u, c := LookedUpAndDeleted(w, i), ChainOf(s);
            && (Undisturbed(w, Issue(i, Obey)) <==>
                forall r :: r in View(w.table, c) && r.handle != w.sought[i] ==> r in View(u.table, c))
            && (Undisturbed(w, Issue(i, Obey)) <==> w.sought[i] !in Present(u.table, c))
  {
    var k := PlaceOfSought(w, i, s);
    var r := LookupFindsExactly(w, i, s, k);
    FindAndDelete(w, i, s, r);
    var rules := w.table.chains[ChainOf(s)];
    HandlesOfWithout(rules, r.handle);
    HandleIn(rules, rules[k]);
  }

  // ---- A run in which a rule is stolen ----

  // One insertion by a forwarder that is about to make it.
  lemma InsertStep(w: World, i: nat, s: Slot, fault: Fault)
    requires i in w.fwds && w.fwds[i].pc == Adding(s) && !fault.Refuse?
    requires Acceptable(w.table, ChainOf(s), SpecOf(w.fwds[i].plan, s))
    ensures Enabled(w, Issue(i, fault))
    ensures var u := Next(w, Issue(i, fault));
            && u.table == w.table.(chains := u.table.chains, next := w.table.next + 1)
            && ChainOf(s) in u.table.chains
            && u.table.chains[ChainOf(s)] == [Rule(w.table.next, SpecOf(w.fwds[i].plan, s))] + w.table.chains[ChainOf(s)]
            && u.fwds == w.fwds[i := u.fwds[i]] && u.fwds[i].plan == w.fwds[i].plan
            && (if fault.Mute? then u.fwds[i].pc == Finding(s) else Get(u.fwds[i].h, s) == w.table.next)
  {
    EchoIsParsed(ChainOf(s), SpecOf(w.fwds[i].plan, s), w.table.next);
  }

  // Two insertions, the first of them silent.
  lemma InsertTwice(w: World, a: nat, b: nat, s: Slot)
    requires a != b && a in w.fwds && b in w.fwds && w.fwds[a].pc == w.fwds[b].pc == Adding(s)
    requires Acceptable(w.table, ChainOf(s), SpecOf(w.fwds[a].plan, s)) && w.table.next < MAX_INT
    requires '#' !in SpecOf(w.fwds[b].plan, s)
    ensures Enabled(w, Issue(a, Mute)) && Enabled(Next(w, Issue(a, Mute)), Issue(b, Obey))
    ensures var u := Next(Next(w, Issue(a, Mute)), Issue(b, Obey));
            var c, n := ChainOf(s), w.table.next;
            && a in u.fwds && b in u.fwds && u.fwds[a].pc == Finding(s) && u.fwds[a].plan == w.fwds[a].plan
            && Get(u.fwds[b].h, s) == n + 1 && c in u.table.chains
            && u.table.chains[c] == [Rule(n + 1, SpecOf(w.fwds[b].plan, s))]
                                    + ([Rule(n, SpecOf(w.fwds[a].plan, s))] + w.table.chains[c])
  {
    InsertStep(w, a, s, Mute);
    InsertStep(Next(w, Issue(a, Mute)), b, s, Obey);
  }

  lemma HeadIsFound(c: Chain, r: Rule, older: seq<Rule>, header: nat, spec: string)
    requires IsSpec(spec) && Contains(r.text, spec) && '#' !in r.text && r.handle <= MAX_INT
    ensures LookupRuleHandle(Listing(c, [r] + older, header), spec) == Some(r.handle)
  {
    var i: nat :| i <= |r.text| && OccursAt(r.text, spec, i);
    assert OccursAt(RuleLine(r), spec, i + 2) by {
      assert RuleLine(r)[i + 2..i + 2 + |spec|] == r.text[i..i + |spec|];
    }
    HandleOfPrinted("\t\t" + r.text, r.handle);
    assert "\t\t" + r.text + HandleSuffix(r.handle) == RuleLine(r);
    assert ([r] + older)[0] == r;
    FirstMatchIsFound(c, [r] + older, header, spec, 0);
  }

  // If forwarder a's insertion prints no handle and forwarder b inserts a rule that
  // has a's text in it before a looks its own up, a deletes b's rule.
  lemma SilentInsertStealsARule(w: World, a: nat, b: nat, s: Slot)
    requires Valid(w.table) && a != b && a in w.fwds && b in w.fwds
    requires w.fwds[a].pc == w.fwds[b].pc == Adding(s)
    requires WellWritten(w.fwds[a].plan) && Contains(SpecOf(w.fwds[b].plan, s), SpecOf(w.fwds[a].plan, s))
    requires Acceptable(w.table, ChainOf(s), SpecOf(w.fwds[a].plan, s)) && w.table.next < MAX_INT
    requires '#' !in SpecOf(w.fwds[b].plan, s)
    ensures var actions := [Issue(a, Mute), Issue(b, Obey), Issue(a, Obey), Issue(a, Obey)];
            && Runs(w, actions)
            && var u := After(w, actions);
               && b in u.fwds && Get(u.fwds[b].h, s) > 0
               && Get(u.fwds[b].h, s) !in Present(u.table, ChainOf(s))
  {
    var c, n := ChainOf(s), w.table.next;
    InsertTwice(w, a, b, s);
    var w2 := Next(Next(w, Issue(a, Mute)), Issue(b, Obey));
    var stolen, older := Rule(n + 1, SpecOf(w.fwds[b].plan, s)), [Rule(n, SpecOf(w.fwds[a].plan, s))] + w.table.chains[c];
    HeadIsFound(c, stolen, older, w2.table.header, SpecOf(w.fwds[a].plan, s));
    NextKeepsValid(w, Issue(a, Mute));
    NextKeepsValid(Next(w, Issue(a, Mute)), Issue(b, Obey));
    FindAndDelete(w2, a, s, stolen);
    HandlesOfWithout(w2.table.chains[c], n + 1);
    FourSteps(w, Issue(a, Mute), Issue(b, Obey), Issue(a, Obey), Issue(a, Obey));
  }

  lemma NextKeepsValid(w: World, a: Action)
    requires Valid(w.table) && Enabled(w, a) && a.Issue?
    ensures Valid(Next(w, a).table)
  {
    ExecKeepsValid(w.table, CommandOf(w.fwds[a.id]).value, a.fault);
  }

  // Two forwarders start and find the table there.
  lemma BothStart(w: World, a: nat, b: nat, p: Plan, q: Plan)
    requires a != b && w.fwds == map[] && w.table.present && WellWritten(p) && WellWritten(q)
    ensures var actions := [StartCall(a, p), StartCall(b, q), Issue(a, Obey), Issue(b, Obey)];
            && Runs(w, actions)
            && var u := After(w, actions);
               && u.table == w.table && u.fwds.Keys == {a, b}
               && u.fwds[a] == Begin(p).(pc := Adding(DnatSlot)) && u.fwds[b] == Begin(q).(pc := Adding(DnatSlot))
  {
    FourSteps(w, StartCall(a, p), StartCall(b, q), Issue(a, Obey), Issue(b, Obey));
  }

  // Where every rule belongs to another program at first, two forwarders and one insertion
  // whose handle is not printed are enough to lose a rule that a forwarder holds.
  lemma StealingRun(w: World, a: nat, b: nat, p: Plan, q: Plan)
    requires Initial(w) && a != b && w.table.present && WellWritten(p) && WellWritten(q)
    requires Dnat in w.table.chains && w.table.next < MAX_INT
    requires Contains(q.dnat, p.dnat) && '#' !in p.dnat && '#' !in q.dnat
    ensures var actions := [StartCall(a, p), StartCall(b, q), Issue(a, Obey), Issue(b, Obey)]
                           + [Issue(a, Mute), Issue(b, Obey), Issue(a, Obey), Issue(a, Obey)];
            && Runs(w, actions)
            && var u := After(w, actions);
               b in u.fwds && u.fwds[b].h.dnat > 0 && u.fwds[b].h.dnat !in Present(u.table, Dnat)
  {
    var start := [StartCall(a, p), StartCall(b, q), Issue(a, Obey), Issue(b, Obey)];
    BothStart(w, a, b, p, q);
    var u := After(w, start);
    SilentInsertStealsARule(u, a, b, DnatSlot);
    RunsThen(w, start, [Issue(a, Mute), Issue(b, Obey), Issue(a, Obey), Issue(a, Obey)]);
  }

  lemma {:induction false} RunsThen(w: World, first: seq<Action>, rest: seq<Action>)
    requires Runs(w, first) && Runs(After(w, first), rest)
    ensures Runs(w, first + rest) && After(w, first + rest) == After(After(w, first), rest)
    decreases |first|
  {
    if first == [] {
      assert first + rest == rest;
    } else {
      assert (first + rest)[1..] == first[1..] + rest;
      RunsThen(Next(w, first[0]), first[1..], rest);
    }
  }

  lemma FourSteps(w: World, a0: Action, a1: Action, a2: Action, a3: Action)
    requires Enabled(w, a0) && Enabled(Next(w, a0), a1) && Enabled(Next(Next(w, a0), a1), a2)
    requires Enabled(Next(Next(Next(w, a0), a1), a2), a3)
    ensures Runs(w, [a0, a1, a2, a3])
    ensures After(w, [a0, a1, a2, a3]) == Next(Next(Next(Next(w, a0), a1), a2), a3)
  {
    RunsCons(Next(Next(Next(w, a0), a1), a2), a3, []);
    RunsCons(Next(Next(w, a0), a1), a2, [a3]);
    RunsCons(Next(w, a0), a1, [a2, a3]);
    RunsCons(w, a0, [a1, a2, a3]);
    assert [a3] + [] == [a3] && [a2] + [a3] == [a2, a3] && [a1] + [a2, a3] == [a1, a2, a3];
    assert [a0] + [a1, a2, a3] == [a0, a1, a2, a3];
  }

  lemma RunsCons(w: World, a: Action, rest: seq<Action>)
    requires Enabled(w, a) && Runs(Next(w, a), rest)
    ensures Runs(w, [a] + rest) && After(w, [a] + rest) == After(Next(w, a), rest)
  {
    assert ([a] + rest)[1..] == rest;
  }
}
