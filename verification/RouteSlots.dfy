// Handing out policy-routing slots to instances (qnatter/files/qnatter.init:217-318).

module RouteSlots {
  import opened Text

  const SLOTS: nat := 4096

  // ---- Slots and the text that lists them ----

  predicate IsSlot(s: string) {
    s != "" && AllDigits(s) && (s[0] == '0' ==> s == "0") && Value(s) < SLOTS
  }

  lemma SlotOf(n: nat)
    requires n < SLOTS
    ensures IsSlot(Dec(n))
  {
    ValueOfDec(n);
  }

  // The slots are the numerals from 0 to 4095, without leading zeros.
  lemma SlotsAre(s: string)
    ensures IsSlot(s) <==> exists n: nat :: n <= 4095 && s == Dec(n)
  {
    if IsSlot(s) {
      SlotIsDec(s);
    }
    forall n: nat | n <= 4095 && s == Dec(n) ensures IsSlot(s) {
      SlotOf(n);
    }
  }

  lemma SlotIsDec(s: string)
    requires IsSlot(s)
    ensures s == Dec(Value(s))
  {
    DecOfValue(s);
  }

  // QNATTER_ROUTE_USED_SLOTS: each slot recorded, after a space.
  function UsedText(used: seq<string>): string {
    if used == [] then "" else UsedText(used[..|used| - 1]) + " " + used[|used| - 1]
  }

  predicate IsWord(s: string) {
    s != "" && ' ' !in s
  }

  // The test the program makes on the text.
  predicate TextHas(text: string, slot: string) {
    Contains(" " + text + " ", " " + slot + " ")
  }

  lemma {:induction false} UsedAppears(used: seq<string>, slot: string)
    requires slot in used
    ensures TextHas(UsedText(used), slot)
  {
    var init, last := used[..|used| - 1], used[|used| - 1];
    var line := " " + UsedText(used) + " ";
    if slot == last {
      var i := 1 + |UsedText(init)|;
      assert line == " " + UsedText(init) + (" " + slot + " ");
      assert OccursAt(line, " " + slot + " ", i);
    } else {
      UsedAppears(init, slot);
      var before := " " + UsedText(init) + " ";
      var i: nat :| i <= |before| && OccursAt(before, " " + slot + " ", i);
      assert line == before + last + " ";
      assert line[i..i + |slot| + 2] == before[i..i + |slot| + 2];
      assert OccursAt(line, " " + slot + " ", i);
    }
  }

  // A word between two spaces of the text is a recorded slot.
  lemma {:induction false} OnlyUsedAppear(used: seq<string>, slot: string, i: nat)
    requires IsWord(slot) && forall u :: u in used ==> IsWord(u)
    requires OccursAt(" " + UsedText(used) + " ", " " + slot + " ", i)
    ensures slot in used
  {
    var line, p := " " + UsedText(used) + " ", " " + slot + " ";
    assert line[i..i + |p|] == p;
    forall k | 0 <= k < |p| ensures line[i + k] == p[k] {
      assert line[i..i + |p|][k] == p[k];
    }
    if used != [] {
      var init, last := used[..|used| - 1], used[|used| - 1];
      var before := " " + UsedText(init) + " ";
      var n := |before|;
      assert line == before + last + " ";
      if i + |p| <= n {
        assert before[i..i + |p|] == line[i..i + |p|];
        OnlyUsedAppear(init, slot, i);
      } else {
        WordAt(before, last, slot, i);
      }
    }
  }

  // An occurrence that reaches into the last word is that word.
  lemma WordAt(before: string, last: string, slot: string, i: nat)
    requires IsWord(slot) && IsWord(last) && before != "" && before[|before| - 1] == ' '
    requires var line, p := before + last + " ", " " + slot + " ";
             i + |p| <= |line| && |before| < i + |p| && forall k :: 0 <= k < |p| ==> line[i + k] == p[k]
    ensures slot == last
  {
    var line, p, n := before + last + " ", " " + slot + " ", |before|;
    assert p[0] == ' ' && p[|p| - 1] == ' ';
    assert line[i + 0] == p[0] && line[i + (|p| - 1)] == p[|p| - 1];
    assert forall k :: n <= k < n + |last| ==> line[k] == last[k - n];
    assert i + |p| - 1 == n + |last|;
    assert forall k :: 0 <= k < |slot| ==> p[k + 1] == slot[k];
    forall j | i < j < i + |p| - 1 ensures line[j] != ' ' {
      assert line[i + (j - i)] == p[j - i] && p[j - i] == slot[j - i - 1];
    }
    assert line[n - 1] == ' ';
    assert i == n - 1;
    forall k | 0 <= k < |slot| ensures slot[k] == last[k] {
      assert line[i + (k + 1)] == p[k + 1];
    }
  }

  lemma TextHasUsed(used: seq<string>, slot: string)
    requires IsWord(slot) && forall u :: u in used ==> IsWord(u)
    ensures TextHas(UsedText(used), slot) <==> slot in used
  {
    if slot in used {
      UsedAppears(used, slot);
    }
    var line, p := " " + UsedText(used) + " ", " " + slot + " ";
    if Contains(line, p) {
      var i: nat :| i <= |line| && OccursAt(line, p, i);
      OnlyUsedAppear(used, slot, i);
    }
  }

  // ---- Preparing the slots ----

  // What one instance asks for: the slot read for it, and whether writing one would fail.
  datatype Request = Request(stored: string, setFails: bool)

  ghost predicate Full(used: seq<string>) {
    forall k: nat :: k < SLOTS ==> Dec(k) in used
  }

  // n is the least slot not in use.
  ghost predicate LeastFree(n: nat, used: seq<string>) {
    n < SLOTS && Dec(n) !in used && forall k: nat :: k < n ==> Dec(k) in used
  }

  // What an instance gets when these slots are already given out; None if it fails.
  ghost predicate Given(req: Request, used: seq<string>, out: Option<string>) {
    if IsSlot(req.stored) && req.stored !in used then out == Some(req.stored)
    else if req.setFails || Full(used) then out == None
    else out.Some? && IsSlot(out.value) && LeastFree(Value(out.value), used)
  }

  function Recorded(outs: seq<Option<string>>): seq<string> {
    if outs == [] then []
    else Recorded(outs[..|outs| - 1]) + if outs[|outs| - 1].Some? then [outs[|outs| - 1].value] else []
  }

  ghost predicate Prepared(reqs: seq<Request>, outs: seq<Option<string>>) {
    |outs| == |reqs| && forall i :: 0 <= i < |reqs| ==> Given(reqs[i], Recorded(outs[..i]), outs[i])
  }

  predicate Changes(reqs: seq<Request>, outs: seq<Option<string>>)
    requires |outs| == |reqs|
  {
    exists i :: 0 <= i < |reqs| && outs[i].Some? && outs[i].value != reqs[i].stored
  }

  ghost predicate AllSlots(used: seq<string>) {
    forall u :: u in used ==> IsSlot(u)
  }

  lemma SlotIsWord(s: string)
    requires IsSlot(s)
    ensures IsWord(s)
  {
  }

  method RouteSlotUsed(text: string, slot: string, ghost used: seq<string>) returns (b: bool)
    requires text == UsedText(used) && AllSlots(used) && IsSlot(slot)
    ensures b <==> slot in used
  {
    SlotIsWord(slot);
    forall u | u in used ensures IsWord(u) {
      SlotIsWord(u);
    }
    TextHasUsed(used, slot);
    var line, word := " " + text + " ", " " + slot + " ";
    b := IndexOf(line, word).Some?;
    assert Contains(line, word) ==> exists i: nat :: OccursAt(line, word, i);
  }

  method NextRouteSlot(text: string, ghost used: seq<string>) returns (r: Option<nat>)
    requires text == UsedText(used) && AllSlots(used)
    ensures if Full(used) then r == None else r.Some? && LeastFree(r.value, used)
  {
    var slot := 0;
    while slot <= 4095
      invariant 0 <= slot <= SLOTS && forall k: nat :: k < slot ==> Dec(k) in used
    {
      SlotOf(slot);
      var taken := RouteSlotUsed(text, Dec(slot), used);
      if !taken {
        return Some(slot);
      }
      slot := slot + 1;
    }
    r := None;
  }

  method PrepareRouteSlot(req: Request, text: string, ghost used: seq<string>) returns (out: Option<string>, wrote: bool, text': string)
    requires text == UsedText(used) && AllSlots(used)
    ensures Given(req, used, out)
    ensures wrote <==> out.Some? && out.value != req.stored
    ensures out.Some? ==> IsSlot(out.value)
    ensures text' == UsedText(if out.Some? then used + [out.value] else used)
  {
    text' := text;
    if IsSlot(req.stored) {
      var taken := RouteSlotUsed(text, req.stored, used);
      if !taken {
        AppendText(used, req.stored);
        return Some(req.stored), false, text + " " + req.stored;
      }
    }
    var n := NextRouteSlot(text, used);
    if n.None? || req.setFails {
      return None, false, text;
    }
    SlotOf(n.value);
    ValueOfDec(n.value);
    AppendText(used, Dec(n.value));
    return Some(Dec(n.value)), true, text + " " + Dec(n.value);
  }

  lemma AppendText(used: seq<string>, slot: string)
    ensures UsedText(used + [slot]) == UsedText(used) + " " + slot
  {
    assert (used + [slot])[..|used|] == used;
  }

  lemma PreparedStep(reqs: seq<Request>, outs: seq<Option<string>>, req: Request, out: Option<string>)
    requires Prepared(reqs, outs) && Given(req, Recorded(outs), out)
    ensures Prepared(reqs + [req], outs + [out])
    ensures Recorded(outs + [out]) == if out.Some? then Recorded(outs) + [out.value] else Recorded(outs)
    ensures AllSlots(Recorded(outs)) ==> AllSlots(Recorded(outs + [out]))
    ensures Changes(reqs + [req], outs + [out]) <==> Changes(reqs, outs) || (out.Some? && out.value != req.stored)
  {
    var reqs', outs' := reqs + [req], outs + [out];
    assert outs'[..|outs|] == outs;
    assert out.Some? ==> IsSlot(out.value);
    forall i | 0 <= i < |reqs'| ensures Given(reqs'[i], Recorded(outs'[..i]), outs'[i]) {
      if i < |reqs| {
        assert outs'[..i] == outs[..i];
      }
    }
    ChangesStep(reqs, outs, req, out);
  }

  lemma ChangesStep(reqs: seq<Request>, outs: seq<Option<string>>, req: Request, out: Option<string>)
    requires |outs| == |reqs|
    ensures Changes(reqs + [req], outs + [out]) <==> Changes(reqs, outs) || (out.Some? && out.value != req.stored)
  {
    var reqs', outs' := reqs + [req], outs + [out];
    if Changes(reqs, outs) {
      var i :| 0 <= i < |reqs| && outs[i].Some? && outs[i].value != reqs[i].stored;
      assert outs'[i].Some? && outs'[i].value != reqs'[i].stored;
    }
    if out.Some? && out.value != req.stored {
      assert outs'[|outs|].Some? && outs'[|outs|].value != reqs'[|outs|].stored;
    }
  }

  // ---- What preparation achieves ----

  lemma {:induction false} RecordedFrom(outs: seq<Option<string>>, i: nat)
    requires i < |outs| && outs[i].Some?
    ensures outs[i].value in Recorded(outs)
  {
    if i < |outs| - 1 {
      RecordedFrom(outs[..|outs| - 1], i);
    }
  }

  lemma GivenIsFresh(req: Request, used: seq<string>, out: Option<string>)
    requires Given(req, used, out) && out.Some?
    ensures IsSlot(out.value) && out.value !in used
  {
    SlotIsDec(out.value);
  }

  // No two instances get the same slot, whatever fails.
  lemma SlotsAreDistinct(reqs: seq<Request>, outs: seq<Option<string>>, i: nat, j: nat)
    requires Prepared(reqs, outs) && i < j < |outs| && outs[i].Some? && outs[j].Some?
    ensures outs[i] != outs[j] && IsSlot(outs[i].value) && IsSlot(outs[j].value)
  {
    GivenIsFresh(reqs[i], Recorded(outs[..i]), outs[i]);
    GivenIsFresh(reqs[j], Recorded(outs[..j]), outs[j]);
    RecordedFrom(outs[..j], i);
  }

  // A valid stored slot is kept unless an earlier instance got it.
  lemma ValidSlotsAreKept(reqs: seq<Request>, outs: seq<Option<string>>, i: nat)
    requires Prepared(reqs, outs) && i < |reqs| && IsSlot(reqs[i].stored)
    requires forall j :: 0 <= j < i ==> outs[j] != Some(reqs[i].stored)
    ensures outs[i] == Some(reqs[i].stored)
  {
    if reqs[i].stored in Recorded(outs[..i]) {
      var _ := RecordedAt(outs[..i], reqs[i].stored);
    }
    assert Given(reqs[i], Recorded(outs[..i]), outs[i]);
  }

  lemma {:induction false} RecordedAt(outs: seq<Option<string>>, slot: string) returns (j: nat)
    requires slot in Recorded(outs)
    ensures j < |outs| && outs[j] == Some(slot)
  {
    var init, last := outs[..|outs| - 1], outs[|outs| - 1];
    if last == Some(slot) {
      j := |outs| - 1;
    } else {
      j := RecordedAt(init, slot);
    }
  }

  // n slots cannot all be taken by fewer than n instances.
  lemma {:induction false} TakenNeedEnough(used: seq<string>, n: nat)
    requires forall k: nat :: k < n ==> Dec(k) in used
    ensures n <= |used|
  {
    if n > 0 {
      var i :| 0 <= i < |used| && used[i] == Dec(n - 1);
      var rest := used[..i] + used[i + 1..];
      forall k: nat | k < n - 1 ensures Dec(k) in rest {
        if Dec(k) == Dec(n - 1) {
          DecInjective(k, n - 1);
        }
        var j :| 0 <= j < |used| && used[j] == Dec(k);
        assert j < i ==> rest[j] == Dec(k);
        assert j > i ==> rest[j - 1] == Dec(k);
      }
      TakenNeedEnough(rest, n - 1);
    }
  }

  lemma {:induction false} RecordedLength(outs: seq<Option<string>>)
    ensures |Recorded(outs)| <= |outs|
  {
    if outs != [] {
      RecordedLength(outs[..|outs| - 1]);
    }
  }

  // Up to 4096 instances all get a slot, if the writes succeed.
  lemma EveryInstanceGetsASlot(reqs: seq<Request>, outs: seq<Option<string>>)
    requires Prepared(reqs, outs) && |reqs| <= 4096
    requires forall i :: 0 <= i < |reqs| ==> !reqs[i].setFails
    ensures forall i :: 0 <= i < |outs| ==> outs[i].Some?
  {
    forall i | 0 <= i < |outs| ensures outs[i].Some? {
      assert Given(reqs[i], Recorded(outs[..i]), outs[i]);
      RecordedLength(outs[..i]);
      if Full(Recorded(outs[..i])) {
        TakenNeedEnough(Recorded(outs[..i]), SLOTS);
      }
    }
  }

  // ---- The loaded configuration ----

  // An instance section of the configuration.
  datatype Instance = Instance(section: string, enabled: bool, setFails: bool)

  predicate IsPlainName(section: string) {
    section != "" && forall i :: 0 <= i < |section| ==> IsWordChar(section[i])
  }

  // The name under which the options of a section are loaded.
  function Variable(section: string): (v: string)
    ensures |v| == |section| && (IsPlainName(section) ==> v == section)
  {
    seq(|section|, i requires 0 <= i < |section| => if IsWordChar(section[i]) then section[i] else '_')
  }

  // The route_slot options that are loaded, by variable name.
  type Memory = map<string, string>

  function Slot(m: Memory, section: string): string {
    if Variable(section) in m then m[Variable(section)] else ""
  }

  // Sections have different names; their variables may still be the same.
  ghost predicate DifferentNames(insts: seq<Instance>) {
    forall i, j :: 0 <= i < j < |insts| ==> insts[i].section != insts[j].section
  }

  // A slot given to a section reaches the loaded configuration only if its name is plain.
  function Written(m: Memory, inst: Instance, out: Option<string>): Memory {
    if out.Some? && IsPlainName(inst.section) then m[inst.section := out.value] else m
  }

  // The loaded configuration after these instances were given these slots.
  function MemoryAfter(m: Memory, insts: seq<Instance>, outs: seq<Option<string>>): Memory
    requires |insts| == |outs|
  {
    if insts == [] then m
    else
      var n := |insts| - 1;
      Written(MemoryAfter(m, insts[..n], outs[..n]), insts[n], outs[n])
  }

  // What each instance asks for when its turn comes.
  function Requests(m: Memory, insts: seq<Instance>, outs: seq<Option<string>>): (reqs: seq<Request>)
    requires |insts| == |outs|
    ensures |reqs| == |insts|
  {
    if insts == [] then []
    else
      var n := |insts| - 1;
      Requests(m, insts[..n], outs[..n])
      + [Request(Slot(MemoryAfter(m, insts[..n], outs[..n]), insts[n].section), insts[n].setFails)]
  }

  predicate AllGiven(outs: seq<Option<string>>) {
    forall o :: o in outs ==> o.Some?
  }

  // What the pass over the instances has done: the slots given, and the configuration.
  ghost predicate Passed(m: Memory, insts: seq<Instance>, outs: seq<Option<string>>, m': Memory) {
    |outs| == |insts| && Prepared(Requests(m, insts, outs), outs) && m' == MemoryAfter(m, insts, outs)
  }

  // Where the loop over the instances stands.
  ghost predicate Standing(m: Memory, insts: seq<Instance>, outs: seq<Option<string>>, now: Memory, text: string, changed: bool) {
    && Passed(m, insts, outs, now)
    && text == UsedText(Recorded(outs)) && AllSlots(Recorded(outs))
    && changed == Changes(Requests(m, insts, outs), outs)
  }

  lemma PassStep(m: Memory, insts: seq<Instance>, outs: seq<Option<string>>, inst: Instance, out: Option<string>)
    requires |insts| == |outs|
    ensures Requests(m, insts + [inst], outs + [out])
         == Requests(m, insts, outs) + [Request(Slot(MemoryAfter(m, insts, outs), inst.section), inst.setFails)]
    ensures MemoryAfter(m, insts + [inst], outs + [out]) == Written(MemoryAfter(m, insts, outs), inst, out)
  {
    assert (insts + [inst])[..|insts|] == insts && (outs + [out])[..|outs|] == outs;
  }

  lemma StandingStep(m: Memory, insts: seq<Instance>, outs: seq<Option<string>>, now: Memory, text: string, changed: bool,
                     inst: Instance, out: Option<string>)
    requires Standing(m, insts, outs, now, text, changed)
    requires Given(Request(Slot(now, inst.section), inst.setFails), Recorded(outs), out)
    ensures Standing(m, insts + [inst], outs + [out], Written(now, inst, out),
                     UsedText(if out.Some? then Recorded(outs) + [out.value] else Recorded(outs)),
                     changed || (out.Some? && out.value != Slot(now, inst.section)))
  {
    PassStep(m, insts, outs, inst, out);
    PreparedStep(Requests(m, insts, outs), outs, Request(Slot(now, inst.section), inst.setFails), out);
  }

  // Writing the slot that was read changes nothing.
  lemma WrittenUnchanged(m: Memory, inst: Instance, out: Option<string>)
    ensures out.Some? && out.value == Slot(m, inst.section) != "" ==> Written(m, inst, out) == m
  {
  }

  // One instance, after those in done.
  method PrepareNext(inst: Instance, text: string, now: Memory, changed: bool,
                     ghost m: Memory, ghost done: seq<Instance>, ghost outs: seq<Option<string>>)
    returns (out: Option<string>, text': string, now': Memory, changed': bool)
    requires Standing(m, done, outs, now, text, changed)
    ensures Standing(m, done + [inst], outs + [out], now', text', changed')
  {
    var wrote;
    out, wrote, text' := PrepareRouteSlot(Request(Slot(now, inst.section), inst.setFails), text, Recorded(outs));
    now', changed' := now, changed || wrote;
    if wrote && IsPlainName(inst.section) {
      now' := now[inst.section := out.value];
    }
    WrittenUnchanged(now, inst, out);
    StandingStep(m, done, outs, now, text, changed, inst, out);
  }

  lemma TakeNext<T>(s: seq<T>, i: nat)
    requires i < |s|
    ensures s[..i + 1] == s[..i] + [s[i]]
  {
  }

  lemma TakeAll<T>(s: seq<T>)
    ensures s[..|s|] == s
  {
  }

  // ok is false if some instance failed or the changes could not be committed.
  method PrepareRouteSlots(m: Memory, insts: seq<Instance>, commitFails: bool)
    returns (ok: bool, outs: seq<Option<string>>, now: Memory)
    ensures Passed(m, insts, outs, now)
    ensures ok <==> AllGiven(outs) && !(Changes(Requests(m, insts, outs), outs) && commitFails)
  {
    var text, changed, failed := "", false, false;
    ghost var done: seq<Instance> := [];
    outs, now := [], m;
    for i := 0 to |insts|
      invariant done == insts[..i] && Standing(m, done, outs, now, text, changed)
      invariant failed == !AllGiven(outs)
    {
      var out;
      out, text, now, changed := PrepareNext(insts[i], text, now, changed, m, done, outs);
      failed := failed || out.None?;
      TakeNext(insts, i);
      done, outs := done + [insts[i]], outs + [out];
    }
    TakeAll(insts);
    ok := !failed && !(changed && commitFails);
  }

  // ---- What reaches the loaded configuration ----

  lemma RequestAt(m: Memory, insts: seq<Instance>, outs: seq<Option<string>>, i: nat)
    requires |insts| == |outs| && i < |insts|
    ensures Requests(m, insts, outs)[i] == Request(Slot(MemoryAfter(m, insts[..i], outs[..i]), insts[i].section), insts[i].setFails)
    decreases |insts|
  {
    var n := |insts| - 1;
    if i < n {
      RequestAt(m, insts[..n], outs[..n], i);
      assert insts[..n][..i] == insts[..i] && outs[..n][..i] == outs[..i];
    }
  }

  // Instance i has a plain name that is the variable of this section, and got a slot.
  predicate Writes(insts: seq<Instance>, outs: seq<Option<string>>, i: nat, section: string)
    requires |insts| == |outs| && i < |insts|
  {
    IsPlainName(insts[i].section) && insts[i].section == Variable(section) && outs[i].Some?
  }

  // What is read for a section is what the instance that writes its variable got.
  lemma {:induction false} ReadsWriter(m: Memory, insts: seq<Instance>, outs: seq<Option<string>>, j: nat, section: string)
    requires |insts| == |outs| && DifferentNames(insts) && j < |insts| && Writes(insts, outs, j, section)
    ensures Slot(MemoryAfter(m, insts, outs), section) == outs[j].value
    decreases |insts|
  {
    var n := |insts| - 1;
    if j < n {
      ReadsWriter(m, insts[..n], outs[..n], j, section);
    }
  }

  // If none writes it, it is what was loaded.
  lemma {:induction false} ReadsLoaded(m: Memory, insts: seq<Instance>, outs: seq<Option<string>>, section: string)
    requires |insts| == |outs| && forall j :: 0 <= j < |insts| ==> !Writes(insts, outs, j, section)
    ensures Slot(MemoryAfter(m, insts, outs), section) == Slot(m, section)
    decreases |insts|
  {
    if insts != [] {
      var n := |insts| - 1;
      forall j | 0 <= j < n ensures !Writes(insts[..n], outs[..n], j, section) {
        assert !Writes(insts, outs, j, section);
      }
      ReadsLoaded(m, insts[..n], outs[..n], section);
      assert !Writes(insts, outs, n, section);
    }
  }

  // Some instance with a plain name got a slot that replaces what is loaded for section.
  ghost predicate Replaced(insts: seq<Instance>, outs: seq<Option<string>>, section: string)
    requires |insts| == |outs|
  {
    exists j :: 0 <= j < |insts| && Writes(insts, outs, j, section)
  }

  // What is loaded for an instance after the pass: its own slot if its name is plain, ...
  lemma LoadedPlain(m: Memory, insts: seq<Instance>, outs: seq<Option<string>>, i: nat)
    requires |insts| == |outs| && DifferentNames(insts) && i < |insts| && outs[i].Some? && IsPlainName(insts[i].section)
    ensures Slot(MemoryAfter(m, insts, outs), insts[i].section) == outs[i].value
  {
    ReadsWriter(m, insts, outs, i, insts[i].section);
  }

  // ... the slot of the instance that replaces it, ...
  lemma LoadedReplaced(m: Memory, insts: seq<Instance>, outs: seq<Option<string>>, i: nat)
    requires |insts| == |outs| && DifferentNames(insts) && Prepared(Requests(m, insts, outs), outs)
    requires i < |insts| && outs[i].Some? && !IsPlainName(insts[i].section) && Replaced(insts, outs, insts[i].section)
    ensures var slot := Slot(MemoryAfter(m, insts, outs), insts[i].section); IsSlot(slot) && slot != outs[i].value
  {
    var reqs := Requests(m, insts, outs);
    var j :| 0 <= j < |insts| && Writes(insts, outs, j, insts[i].section);
    ReadsWriter(m, insts, outs, j, insts[i].section);
    if i < j {
      SlotsAreDistinct(reqs, outs, i, j);
    } else {
      SlotsAreDistinct(reqs, outs, j, i);
    }
  }

  // ... or what was loaded at first.
  lemma LoadedAtFirst(m: Memory, insts: seq<Instance>, outs: seq<Option<string>>, i: nat)
    requires |insts| == |outs| && i < |insts| && !Replaced(insts, outs, insts[i].section)
    ensures Slot(MemoryAfter(m, insts, outs), insts[i].section) == Slot(m, insts[i].section)
  {
    ReadsLoaded(m, insts, outs, insts[i].section);
  }

  // After the pass a section reads the slot it was given if and only if its name is plain,
  // or nothing replaces what was loaded for it and that is the slot.
  lemma ReadsOwnExactly(m: Memory, insts: seq<Instance>, outs: seq<Option<string>>, i: nat)
    requires |insts| == |outs| && DifferentNames(insts) && Prepared(Requests(m, insts, outs), outs)
    requires i < |insts| && outs[i].Some?
    ensures Slot(MemoryAfter(m, insts, outs), insts[i].section) == outs[i].value
       <==> || IsPlainName(insts[i].section)
            || (!Replaced(insts, outs, insts[i].section) && Slot(m, insts[i].section) == outs[i].value)
  {
    if IsPlainName(insts[i].section) {
      LoadedPlain(m, insts, outs, i);
    } else if Replaced(insts, outs, insts[i].section) {
      LoadedReplaced(m, insts, outs, i);
    } else {
      LoadedAtFirst(m, insts, outs, i);
    }
  }

  // ---- Preparing again ----

  // What is loaded for every section is the slot it was given.
  predicate ReadsAll(m: Memory, insts: seq<Instance>, outs: seq<Option<string>>)
    requires |insts| == |outs|
  {
    forall i :: 0 <= i < |insts| ==> outs[i] == Some(Slot(m, insts[i].section))
  }

  // A second pass, with whatever is loaded then, gives the same slots and changes
  // nothing if and only if every section reads the slot the first pass gave it.
  lemma SecondPassChangesNothing(m: Memory, insts: seq<Instance>, outs: seq<Option<string>>, m': Memory, outs': seq<Option<string>>)
    requires |outs| == |insts| == |outs'| && DifferentNames(insts) && AllGiven(outs)
    requires Prepared(Requests(m, insts, outs), outs) && Prepared(Requests(m', insts, outs'), outs')
    ensures outs' == outs && !Changes(Requests(m', insts, outs'), outs') <==> ReadsAll(m', insts, outs)
  {
    var reqs := Requests(m', insts, outs');
    if ReadsAll(m', insts, outs) {
      forall i | 0 <= i < |insts| ensures outs'[i] == outs[i] == Some(reqs[i].stored) {
        SamePrefix(m, insts, outs, m', outs', i);
      }
    }
    if outs' == outs && !Changes(reqs, outs') {
      forall i | 0 <= i < |insts| ensures outs[i] == Some(Slot(m', insts[i].section)) {
        UnchangedReads(m, insts, outs, m', i);
      }
    }
  }

  lemma {:induction false} UnchangedReads(m: Memory, insts: seq<Instance>, outs: seq<Option<string>>, m': Memory, i: nat)
    requires |outs| == |insts| && i < |insts| && AllGiven(outs) && Prepared(Requests(m, insts, outs), outs)
    requires !Changes(Requests(m', insts, outs), outs)
    ensures outs[i] == Some(Slot(m', insts[i].section))
  {
    forall k | 0 <= k < i ensures outs[k] == Some(Slot(m', insts[k].section)) && outs[k].value != "" {
      UnchangedReads(m, insts, outs, m', k);
      GivenIsFresh(Requests(m, insts, outs)[k], Recorded(outs[..k]), outs[k]);
    }
    NothingWritten(m', insts[..i], outs[..i]);
    RequestAt(m', insts, outs, i);
    assert outs[i] in outs;
    assert outs[i].value == Requests(m', insts, outs)[i].stored;
  }

  // Another section, with a plain name, is read through the same variable.
  predicate HasTwin(insts: seq<Instance>, section: string) {
    !IsPlainName(section) && exists j :: 0 <= j < |insts| && IsPlainName(insts[j].section) && insts[j].section == Variable(section)
  }

  lemma ReplacedByTwin(insts: seq<Instance>, outs: seq<Option<string>>, section: string)
    requires |insts| == |outs| && AllGiven(outs) && !IsPlainName(section)
    ensures Replaced(insts, outs, section) <==> HasTwin(insts, section)
  {
    if Replaced(insts, outs, section) {
      var j :| 0 <= j < |insts| && Writes(insts, outs, j, section);
      assert IsPlainName(insts[j].section) && insts[j].section == Variable(section);
    }
    if HasTwin(insts, section) {
      var j :| 0 <= j < |insts| && IsPlainName(insts[j].section) && insts[j].section == Variable(section);
      assert outs[j] in outs;
      assert Writes(insts, outs, j, section);
    }
  }

  // A section the second pass reads as the first left it: its name is plain, or it has
  // no twin and was given the slot that was loaded for it before.
  predicate Settled(m: Memory, insts: seq<Instance>, section: string, out: Option<string>) {
    IsPlainName(section) || (!HasTwin(insts, section) && out == Some(Slot(m, section)))
  }

  lemma SettledReads(m: Memory, insts: seq<Instance>, outs: seq<Option<string>>, i: nat)
    requires |outs| == |insts| && DifferentNames(insts) && AllGiven(outs) && Prepared(Requests(m, insts, outs), outs) && i < |insts|
    ensures outs[i] == Some(Slot(MemoryAfter(m, insts, outs), insts[i].section)) <==> Settled(m, insts, insts[i].section, outs[i])
  {
    assert outs[i] in outs;
    ReadsOwnExactly(m, insts, outs, i);
    if !IsPlainName(insts[i].section) {
      ReplacedByTwin(insts, outs, insts[i].section);
    }
  }

  predicate AllSettled(m: Memory, insts: seq<Instance>, outs: seq<Option<string>>)
    requires |insts| == |outs|
  {
    forall i :: 0 <= i < |insts| ==> Settled(m, insts, insts[i].section, outs[i])
  }

  lemma ReadsAllExactly(m: Memory, insts: seq<Instance>, outs: seq<Option<string>>)
    requires |outs| == |insts| && DifferentNames(insts) && AllGiven(outs) && Prepared(Requests(m, insts, outs), outs)
    ensures ReadsAll(MemoryAfter(m, insts, outs), insts, outs) <==> AllSettled(m, insts, outs)
  {
    forall i | 0 <= i < |insts|
      ensures outs[i] == Some(Slot(MemoryAfter(m, insts, outs), insts[i].section)) <==> Settled(m, insts, insts[i].section, outs[i])
    {
      SettledReads(m, insts, outs, i);
    }
  }

  // Two passes of one process, as a reload makes them when it does not stay hot: the
  // second changes nothing if and only if every section is settled.
  lemma TwoPassesExactly(m: Memory, insts: seq<Instance>, outs: seq<Option<string>>, now: Memory, outs': seq<Option<string>>)
    requires |outs| == |insts| == |outs'| && DifferentNames(insts) && AllGiven(outs)
    requires Passed(m, insts, outs, now) && Prepared(Requests(now, insts, outs'), outs')
    ensures outs' == outs && !Changes(Requests(now, insts, outs'), outs') <==> AllSettled(m, insts, outs)
  {
    SecondPassChangesNothing(m, insts, outs, now, outs');
    ReadsAllExactly(m, insts, outs);
  }

  // With a twin it fails: "a-b" and "a_b", with 5 loaded for both, get 5 and 0 in the
  // first pass, and 0 and 1 in the second.
  lemma TwinsChangeAgain()
    ensures var m, now: Memory := map["a_b" := "5"], map["a_b" := "0"];
            var insts := [Instance("a-b", true, false), Instance("a_b", true, false)];
            && Passed(m, insts, [Some("5"), Some("0")], now)
            && Passed(now, insts, [Some("0"), Some("1")], map["a_b" := "1"])
  {
    SmallSlots();
    TwinPass("5", "0");
    TwinPass("0", "1");
  }

  // One pass over the twins: the first keeps the slot, the second gets the least free one.
  lemma TwinPass(slot: string, next: string)
    requires IsSlot(slot) && IsSlot(next) && slot != next && LeastFree(Value(next), [slot]) && !Full([slot])
    ensures Passed(map["a_b" := slot], [Instance("a-b", true, false), Instance("a_b", true, false)],
                   [Some(slot), Some(next)], map["a_b" := next])
  {
    TwinRequests(map["a_b" := slot], Instance("a-b", true, false), Instance("a_b", true, false), slot, next);
    TwinGiven(Request(slot, false), slot, next);
  }

  lemma TwinRequests(m: Memory, a: Instance, b: Instance, slot: string, next: string)
    requires m == map["a_b" := slot] && a == Instance("a-b", true, false) && b == Instance("a_b", true, false)
    ensures Requests(m, [a, b], [Some(slot), Some(next)]) == [Request(slot, false), Request(slot, false)]
    ensures MemoryAfter(m, [a, b], [Some(slot), Some(next)]) == map["a_b" := next]
  {
    TwinNames();
    PassStep(m, [], [], a, Some(slot));
    assert [] + [a] == [a] && [] + [Some(slot)] == [Some(slot)] && [] + [Request(slot, false)] == [Request(slot, false)];
    PassStep(m, [a], [Some(slot)], b, Some(next));
    assert [a] + [b] == [a, b] && [Some(slot)] + [Some(next)] == [Some(slot), Some(next)];
  }

  lemma RecordedOne(slot: string)
    ensures Recorded([]) == [] && Recorded([Some(slot)]) == [slot]
  {
    assert [Some(slot)][..0] == [] && [] + [slot] == [slot];
  }

  lemma TwinGiven(req: Request, slot: string, next: string)
    requires IsSlot(slot) && IsSlot(next) && slot != next && LeastFree(Value(next), [slot]) && !Full([slot])
    requires req == Request(slot, false)
    ensures Prepared([req, req], [Some(slot), Some(next)])
  {
    var outs := [Some(slot), Some(next)];
    RecordedOne(slot);
    assert outs[..0] == [] && outs[..1] == [Some(slot)];
    assert Given(req, [], outs[0]) && Given(req, [slot], outs[1]);
  }

  lemma TwinNames()
    ensures Variable("a-b") == Variable("a_b") == "a_b" && IsPlainName("a_b") && !IsPlainName("a-b")
  {
    assert "a-b"[1] == '-' && Variable("a-b")[1] == '_';
  }

  lemma SmallSlots()
    ensures IsSlot("0") && IsSlot("1") && IsSlot("5")
    ensures LeastFree(Value("0"), ["5"]) && LeastFree(Value("1"), ["0"]) && !Full(["5"]) && !Full(["0"])
  {
    assert Dec(0) == "0" && Dec(1) == "1" && Dec(5) == "5";
    assert Value("0") == 0 && Value("1") == 1;
  }

  lemma {:induction false} SamePrefix(m: Memory, insts: seq<Instance>, outs: seq<Option<string>>, m': Memory, outs': seq<Option<string>>, i: nat)
    requires |outs| == |insts| == |outs'| && DifferentNames(insts) && i < |insts|
    requires Prepared(Requests(m, insts, outs), outs) && Prepared(Requests(m', insts, outs'), outs')
    requires forall k :: 0 <= k < |insts| ==> outs[k] == Some(Slot(m', insts[k].section))
    ensures outs'[i] == outs[i] == Some(Requests(m', insts, outs')[i].stored)
  {
    forall j | 0 <= j < i ensures outs'[j] == outs[j] && outs[j].value != "" {
      SamePrefix(m, insts, outs, m', outs', j);
      GivenIsFresh(Requests(m, insts, outs)[j], Recorded(outs[..j]), outs[j]);
    }
    NothingWritten(m', insts[..i], outs'[..i]);
    RequestAt(m', insts, outs', i);
    GivesAgain(Requests(m, insts, outs), outs, Requests(m', insts, outs'), outs', i);
  }

  lemma GivesAgain(reqs: seq<Request>, outs: seq<Option<string>>, reqs': seq<Request>, outs': seq<Option<string>>, i: nat)
    requires Prepared(reqs, outs) && Prepared(reqs', outs') && |reqs'| == |reqs| && i < |reqs|
    requires outs[i] == Some(reqs'[i].stored)
    requires forall j :: 0 <= j < i ==> outs'[j] == outs[j] && outs[j].Some?
    ensures outs'[i] == outs[i]
  {
    forall j | 0 <= j < i ensures outs'[j] != outs[i] {
      SlotsAreDistinct(reqs, outs, j, i);
    }
    GivenIsFresh(reqs[i], Recorded(outs[..i]), outs[i]);
    ValidSlotsAreKept(reqs', outs', i);
  }

  lemma {:induction false} NothingWritten(m: Memory, insts: seq<Instance>, outs: seq<Option<string>>)
    requires |insts| == |outs| && forall k :: 0 <= k < |insts| ==> outs[k] == Some(Slot(m, insts[k].section)) && outs[k].value != ""
    ensures MemoryAfter(m, insts, outs) == m
  {
    if insts != [] {
      var n := |insts| - 1;
      NothingWritten(m, insts[..n], outs[..n]);
      WrittenUnchanged(m, insts[n], outs[n]);
    }
  }
}
