// Classifying the NAT in front of a UDP socket from the answers of STUN servers
// (check/check.go:510-581), in the style of section 10.1 of RFC 3489.

module UdpNatType {
  import opened Text

  datatype Reply =
    | Failed
    | Cancelled
    | Answered(mapped: nat, source: nat, ipChanged: bool, portChanged: bool)

  // What a server answers to a plain request, to one asking for a changed address and
  // port, and to one asking for a changed port.
  datatype Report = Report(plain: Reply, changed: Reply, changedPort: Reply)

  datatype NatType =
    | UnknownType | OpenInternet | FullCone | Restricted | PortRestricted | Symmetric | SymmetricUdpFirewall

  // ---- The classifier ----

  // The servers that answer the plain request, in order.
  function Responders(rs: seq<Report>): (s: seq<Report>)
    ensures forall r :: r in s ==> r.plain.Answered?
  {
    if rs == [] then []
    else Responders(rs[..|rs| - 1]) + if rs[|rs| - 1].plain.Answered? then [rs[|rs| - 1]] else []
  }

  // An answer that did not come from a changed address and port: try another server.
  predicate Skipped(r: Report) {
    r.changed.Answered? && !(r.changed.ipChanged && r.changed.portChanged)
  }

  // The first server that is not skipped, or else the last.
  function Retained(c: seq<Report>): (r: Report)
    requires c != []
    ensures r in c
  {
    if |c| > 1 && !Skipped(Retained(c[..|c| - 1])) then Retained(c[..|c| - 1]) else c[|c| - 1]
  }

  lemma {:induction false} RetainedIs(c: seq<Report>) returns (j: nat)
    requires c != []
    ensures j < |c| && Retained(c) == c[j]
    ensures forall i :: 0 <= i < j ==> Skipped(c[i])
    ensures j < |c| - 1 ==> !Skipped(c[j])
  {
    j := |c| - 1;
    if |c| > 1 {
      var i := RetainedIs(c[..|c| - 1]);
      if !Skipped(Retained(c[..|c| - 1])) {
        j := i;
      }
    }
  }

  // An answer arrived from a changed address and port.
  predicate Reached(r: Report) {
    r.changed.Answered? && r.changed.ipChanged && r.changed.portChanged
  }

  // The type, from the first mapping, the second mapping and what the second server
  // could make arrive.
  function Judge(first: Report, second: Report): NatType
    requires first.plain.Answered? && second.plain.Answered?
  {
    if first.plain.mapped != second.plain.mapped then Symmetric
    else if first.plain.source == first.plain.mapped then
      if Reached(second) then OpenInternet else SymmetricUdpFirewall
    else if Reached(second) then FullCone
    else if !Skipped(second) && second.changedPort.Answered? then Restricted
    else PortRestricted
  }

  function Classify(rs: seq<Report>): NatType {
    var s := Responders(rs);
    if |s| < 2 then UnknownType else Judge(s[0], Retained(s[1..]))
  }

  // The replies the program waits for, in order.
  function Asked(rs: seq<Report>): seq<Reply>
    decreases |rs|, 0
  {
    if rs == [] then []
    else
      var init, r := rs[..|rs| - 1], rs[|rs| - 1];
      if Over(init) then Asked(init)
      else Asked(init) + [r.plain]
           + (if !r.plain.Answered? || Responders(init) == [] then []
              else if r.changed.Cancelled? || Skipped(r) then [r.changed]
              else [r.changed, r.changedPort])
  }

  // No server after these is asked.
  predicate Over(rs: seq<Report>)
    decreases |rs|, 1
  {
    Cancelled in Asked(rs) || (|Responders(rs)| > 1 && !Skipped(Retained(Responders(rs)[1..])))
  }

  // Once over, the remaining servers are not asked and do not matter.
  lemma {:induction false} OverIsFinal(rs: seq<Report>, k: nat)
    requires k <= |rs| && Over(rs[..k])
    ensures Over(rs) && Asked(rs) == Asked(rs[..k])
    ensures Cancelled !in Asked(rs) ==> SameEvidence(Responders(rs[..k]), Responders(rs))
  {
    if k == |rs| {
      assert rs[..k] == rs;
    } else {
      var init, r := rs[..|rs| - 1], rs[|rs| - 1];
      assert init[..k] == rs[..k];
      OverIsFinal(init, k);
      assert Over(init) && Asked(rs) == Asked(init);
      if Cancelled !in Asked(init) {
        assert Responders(init) + [] == Responders(init);
        RetainedStep(Responders(init), r);
      }
    }
  }

  predicate SameEvidence(s: seq<Report>, t: seq<Report>) {
    && |s| > 1 && |t| > 1 && s[0] == t[0]
    && !Skipped(Retained(s[1..])) && Retained(s[1..]) == Retained(t[1..])
  }

  lemma RetainedStep(s: seq<Report>, r: Report)
    requires s != []
    ensures (s + [r])[1..] == s[1..] + [r]
    ensures Retained((s + [r])[1..]) == if |s| > 1 && !Skipped(Retained(s[1..])) then Retained(s[1..]) else r
  {
    assert (s + [r])[1..] == s[1..] + [r];
    assert (s[1..] + [r])[..|s| - 1] == s[1..];
  }

  // What one more server adds.
  lemma ServerStep(rs: seq<Report>, r: Report)
    requires !Over(rs)
    ensures var s := Responders(rs);
            && Responders(rs + [r]) == (if r.plain.Answered? then s + [r] else s)
            && Asked(rs + [r]) == Asked(rs) + [r.plain]
                 + (if !r.plain.Answered? || s == [] then []
                    else if r.changed.Cancelled? || Skipped(r) then [r.changed] else [r.changed, r.changedPort])
            && (r.plain.Answered? && s != [] ==> Retained(Responders(rs + [r])[1..]) == r)
  {
    assert (rs + [r])[..|rs|] == rs;
    if r.plain.Answered? && Responders(rs) != [] {
      RetainedStep(Responders(rs), r);
    }
  }

  // ---- The program's loop ----

  // The loop has asked all of rs, and goes on with these variables.
  ghost predicate Going(rs: seq<Report>, first: Option<Reply>, second: Option<Reply>) {
    var s := Responders(rs);
    && !Over(rs)
    && first == (if s == [] then None else Some(s[0].plain))
    && second == (if |s| < 2 then None else Some(Retained(s[1..]).plain))
  }

  // The loop is left after rs, with these variables.
  ghost predicate Left(rs: seq<Report>, first: Option<Reply>, second: Option<Reply>, test2: bool, test3: bool) {
    var s := Responders(rs);
    && first == (if s == [] then None else Some(s[0].plain))
    && second == (if |s| < 2 then None else Some(Retained(s[1..]).plain))
    && (|s| >= 2 ==>
          && (test2 <==> Reached(Retained(s[1..])))
          && (test3 <==> !Skipped(Retained(s[1..])) && Retained(s[1..]).changedPort.Answered?))
  }

  // The two probes that follow a second mapping: retry says to try another server.
  method ProbeChanged(r: Report) returns (cancelled: bool, retry: bool, test2: bool, test3: bool, asked: seq<Reply>)
    ensures asked == if r.changed.Cancelled? || Skipped(r) then [r.changed] else [r.changed, r.changedPort]
    ensures cancelled <==> Cancelled in asked
    ensures !cancelled ==> (retry <==> Skipped(r)) && (test2 <==> Reached(r))
    ensures !cancelled ==> (test3 <==> !Skipped(r) && r.changedPort.Answered?)
  {
    cancelled, retry, test2, test3, asked := false, false, false, false, [r.changed];
    if r.changed.Cancelled? {
      cancelled := true;
      return;
    }
    if r.changed.Answered? {
      if !r.changed.ipChanged || !r.changed.portChanged {
        retry := true;
        return;
      }
      test2 := true;
    }
    asked := asked + [r.changedPort];
    if r.changedPort.Cancelled? {
      cancelled := true;
      return;
    }
    test3 := r.changedPort.Answered?;
  }

  lemma NextServer(rs: seq<Report>, i: nat, asked: seq<Reply>)
    requires i < |rs|
    ensures rs[..i + 1] == rs[..i] + [rs[i]] && asked + [] == asked
  {
  }

  // The loop over the servers.
  method GatherEvidence(rs: seq<Report>)
    returns (cancelled: bool, first: Option<Reply>, second: Option<Reply>, test2: bool, test3: bool, asked: seq<Reply>)
    ensures asked == Asked(rs)
    ensures cancelled <==> Cancelled in asked
    ensures !cancelled ==> Left(rs, first, second, test2, test3)
  {
    cancelled, first, second, test2, test3, asked := false, None, None, false, false, [];
    var i := 0;
    ghost var done: seq<Report> := [];
    while i < |rs|
      invariant i <= |rs| && done == rs[..i] && asked == Asked(done)
      invariant Going(done, first, second) && !test2 && !test3 && !cancelled
    {
      var r := rs[i];
      ServerStep(done, r);
      NextServer(rs, i, asked + [r.plain]);
      i, done := i + 1, done + [r];
      asked := asked + [r.plain];
      if r.plain.Cancelled? {
        assert asked == Asked(done) && asked[|asked| - 1] == Cancelled;
        OverIsFinal(rs, i);
        cancelled := true;
        return;
      }
      if r.plain.Failed? {
        continue;
      }
      if first.None? {
        first := Some(r.plain);
        continue;
      }
      second := Some(r.plain);
      var retry, more;
      cancelled, retry, test2, test3, more := ProbeChanged(r);
      asked := asked + more;
      assert asked == Asked(done);
      if cancelled || !retry {
        OverIsFinal(rs, i);
        return;
      }
    }
    assert rs[..i] == rs;
  }

  // None stands for the error of a cancelled context.
  method CheckUDPNATType(rs: seq<Report>) returns (result: Option<NatType>, asked: seq<Reply>)
    ensures asked == Asked(rs)
    ensures result == if Cancelled in Asked(rs) then None else Some(Classify(rs))
  {
    var cancelled, first, second, test2, test3;
    cancelled, first, second, test2, test3, asked := GatherEvidence(rs);
    if cancelled {
      return None, asked;
    }
    if first.None? || second.None? {
      return Some(UnknownType), asked;
    }
    if first.value.mapped != second.value.mapped {
      return Some(Symmetric), asked;
    }
    if first.value.source == first.value.mapped {
      return Some(if test2 then OpenInternet else SymmetricUdpFirewall), asked;
    }
    if test2 {
      return Some(FullCone), asked;
    }
    return Some(if test3 then Restricted else PortRestricted), asked;
  }

  // The evidence comes from the server whose mapping is the second one: a server that
  // is not skipped exists exactly if the loop was left before the end of the list.
  lemma EvidenceIsFromOneServer(rs: seq<Report>) returns (k: nat)
    requires |Responders(rs)| > 1
    ensures 0 < k < |Responders(rs)| && Classify(rs) == Judge(Responders(rs)[0], Responders(rs)[k])
    ensures forall i :: 0 < i < k ==> Skipped(Responders(rs)[i])
    ensures k < |Responders(rs)| - 1 ==> !Skipped(Responders(rs)[k])
  {
    var c := Responders(rs)[1..];
    var j := RetainedIs(c);
    k := j + 1;
    forall i | 0 < i < k ensures Skipped(Responders(rs)[i]) {
      assert c[i - 1] == Responders(rs)[i];
    }
  }

  // ---- NATs, by what they do ----

  // What lets a packet from outside through: anything, a server's address the host has
  // sent to, or its address and port. home is the host's own address.
  datatype Filter = AnyAddress | SameAddress | SameAddressAndPort

  // A host without a NAT, behind a firewall or not; a NAT with one mapping for all
  // servers; and a NAT with a mapping for each.
  datatype Box = Direct(firewall: bool) | Cone(filter: Filter) | PerServer

  function FilterOf(b: Box): Filter {
    match b
    case Direct(firewall) => if firewall then SameAddressAndPort else AnyAddress
    case Cone(filter) => filter
    case PerServer => SameAddressAndPort
  }

  // What every server sees of a host behind b.
  ghost predicate SeenBehind(b: Box, home: nat, r: Report) {
    r.plain.Answered? && r.plain.source == home && (r.plain.mapped == home <==> b.Direct?)
  }

  // What gets through from a server that can send from another address and port.
  ghost predicate Probes(b: Box, r: Report) {
    && (if FilterOf(b).AnyAddress? then r.changed.Answered? && r.changed.ipChanged && r.changed.portChanged else r.changed == Failed)
    && (r.changedPort.Answered? <==> !FilterOf(b).SameAddressAndPort?)
    && !r.changedPort.Cancelled?
  }

  // A server that cannot answers from where it was asked, or from half as far.
  ghost predicate Incapable(r: Report) {
    r.changed.Answered? && (!r.changed.ipChanged || !r.changed.portChanged)
  }

  // Two servers see one mapping, unless there is one for each.
  ghost predicate Consistent(b: Box, rs: seq<Report>)
    requires forall r :: r in rs ==> r.plain.Answered?
  {
    forall i, j :: 0 <= i < j < |rs| ==> (rs[i].plain.mapped == rs[j].plain.mapped <==> !b.PerServer?)
  }

  function TypeOf(b: Box): NatType {
    match b
    case Direct(firewall) => if firewall then SymmetricUdpFirewall else OpenInternet
    case Cone(AnyAddress) => FullCone
    case Cone(SameAddress) => Restricted
    case Cone(SameAddressAndPort) => PortRestricted
    case PerServer => Symmetric
  }

  // If one of the servers that answer, other than the first, can send from elsewhere,
  // the verdict is what the NAT is.
  lemma ClassifiesTheNat(b: Box, home: nat, rs: seq<Report>, capable: nat)
    requires 0 < capable < |Responders(rs)| && Consistent(b, Responders(rs)) && Probes(b, Responders(rs)[capable])
    requires forall r :: r in Responders(rs) ==> SeenBehind(b, home, r) && (Probes(b, r) || Incapable(r))
    ensures Classify(rs) == TypeOf(b)
  {
    var s := Responders(rs);
    var k := EvidenceIsFromOneServer(rs);
    assert s[0] in s && s[k] in s;
    assert !Skipped(s[capable]);
    assert Probes(b, s[k]);
  }

  // If none of them can, the NAT is taken for the most restrictive of its kind.
  lemma WithoutCapableServers(b: Box, home: nat, rs: seq<Report>)
    requires |Responders(rs)| >= 2 && Consistent(b, Responders(rs))
    requires forall r :: r in Responders(rs) ==> SeenBehind(b, home, r)
    requires forall i :: 0 < i < |Responders(rs)| ==> Incapable(Responders(rs)[i])
    ensures Classify(rs) == if b.PerServer? then Symmetric else if b.Direct? then SymmetricUdpFirewall else PortRestricted
  {
    var s := Responders(rs);
    var k := EvidenceIsFromOneServer(rs);
    assert s[0] in s && s[k] in s && Incapable(s[k]);
  }
}
