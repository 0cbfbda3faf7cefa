// The STUN client that rotates its server list and remembers its source address
// (stun/client.go:46-149).

module StunClient {
  import opened Text
  import opened Arithmetic
  import opened StunMessage

  datatype Server = Server(host: string, port: int)

  // A local address; None when it is not valid.
  type Source = Option<nat>

  // What one attempt meets: no transaction id, a failed exchange, or a reply.
  datatype Outcome =
    | NoTransactionId
    | ExchangeFailed(addressGone: bool, deviceGone: bool)
    | Replied(txid: bytes, inner: Source, response: bytes)

  datatype Cause = Unknown | AddressGone | DeviceGone

  datatype Answer =
    | EmptyList
    | NoIdentifier
    | Unavailable(cause: Cause)
    | Mapped(inner: Source, outer: AddrPort, server: Server)

  datatype State = State(servers: seq<Server>, source: Source, initial: Source)

  // What an attempt comes to.
  datatype Verdict = NoId | Failed(addressGone: bool, deviceGone: bool) | Good(inner: Source, outer: AddrPort)

  predicate WellFormed(script: seq<Outcome>) {
    forall o :: o in script && o.Replied? ==> |o.txid| == 12
  }

  function Read(crc: bytes -> nat, o: Outcome): Verdict
    requires o.Replied? ==> |o.txid| == 12
  {
    match o
    case NoTransactionId => NoId
    case ExchangeFailed(a, d) => Failed(a, d)
    case Replied(txid, inner, response) =>
      var outer := Parse(crc, response, txid);
      if outer.Ok? then Good(inner, outer.value) else Failed(false, false)
  }

  function ReadAll(crc: bytes -> nat, script: seq<Outcome>): (verdicts: seq<Verdict>)
    requires WellFormed(script)
    ensures |verdicts| == |script| && forall i :: 0 <= i < |script| ==> verdicts[i] == Read(crc, script[i])
  {
    seq(|script|, i requires 0 <= i < |script| => Read(crc, script[i]))
  }

  // How many attempts fail before one that does not.
  function Failures(v: seq<Verdict>): (k: nat)
    ensures k <= |v| && (k < |v| ==> !v[k].Failed?)
    ensures forall i :: 0 <= i < k ==> v[i].Failed?
  {
    if v == [] || !v[0].Failed? then 0 else 1 + Failures(v[1..])
  }

  lemma {:induction false} FailuresAre(v: seq<Verdict>, k: nat)
    requires k <= |v| && (k < |v| ==> !v[k].Failed?)
    requires forall i :: 0 <= i < k ==> v[i].Failed?
    ensures Failures(v) == k
  {
    if k > 0 {
      FailuresAre(v[1..], k - 1);
    }
  }

  // Whether one of the first n attempts found the local address, or device, gone.
  predicate SawAddressGone(v: seq<Verdict>, n: nat)
    requires n <= |v|
  {
    exists i :: 0 <= i < n && v[i].Failed? && v[i].addressGone
  }

  predicate SawDeviceGone(v: seq<Verdict>, n: nat)
    requires n <= |v|
  {
    exists i :: 0 <= i < n && v[i].Failed? && v[i].deviceGone
  }

  lemma SawMore(v: seq<Verdict>, n: nat)
    requires n < |v|
    ensures SawAddressGone(v, n + 1) <==> SawAddressGone(v, n) || (v[n].Failed? && v[n].addressGone)
    ensures SawDeviceGone(v, n + 1) <==> SawDeviceGone(v, n) || (v[n].Failed? && v[n].deviceGone)
  {
  }

  function CauseOf(v: seq<Verdict>): Cause {
    if SawAddressGone(v, |v|) then AddressGone else if SawDeviceGone(v, |v|) then DeviceGone else Unknown
  }

  // The cause reported after total failure: a lost address outweighs a lost device.
  lemma CauseIs(v: seq<Verdict>)
    ensures CauseOf(v) == AddressGone <==> exists i :: 0 <= i < |v| && v[i].Failed? && v[i].addressGone
    ensures CauseOf(v) == DeviceGone <==>
              && (forall i :: 0 <= i < |v| && v[i].Failed? ==> !v[i].addressGone)
              && exists i :: 0 <= i < |v| && v[i].Failed? && v[i].deviceGone
    ensures CauseOf(v) == Unknown <==> forall i :: 0 <= i < |v| && v[i].Failed? ==> !v[i].addressGone && !v[i].deviceGone
  {
  }

  // ---- Rotation ----

  function FirstToEnd<T>(s: seq<T>): (r: seq<T>)
    ensures |r| == |s|
  {
    if s == [] then s else s[1..] + [s[0]]
  }

  // The list after k single rotations.
  function Rotate<T>(s: seq<T>, k: nat): (r: seq<T>)
    ensures |r| == |s|
  {
    if k == 0 then s else FirstToEnd(Rotate(s, k - 1))
  }

  lemma {:induction false} RotateSplits<T>(s: seq<T>, k: nat)
    requires k <= |s|
    ensures Rotate(s, k) == s[k..] + s[..k]
  {
    if k > 0 {
      RotateSplits(s, k - 1);
      assert s[k - 1..] == [s[k - 1]] + s[k..] && s[..k] == s[..k - 1] + [s[k - 1]];
    }
  }

  // What stands first after k rotations.
  lemma RotatedHead<T>(s: seq<T>, k: nat)
    requires k < |s|
    ensures Rotate(s, k)[0] == s[k] && s[..k + 1] == s[..k] + [s[k]]
  {
    RotateSplits(s, k);
  }

  lemma {:induction false} RotateAgain<T>(s: seq<T>, a: nat, b: nat)
    ensures Rotate(Rotate(s, a), b) == Rotate(s, a + b)
  {
    if b > 0 {
      RotateAgain(s, a, b - 1);
    }
  }

  lemma FullTurn<T>(s: seq<T>)
    ensures Rotate(s, |s|) == s
  {
    RotateSplits(s, |s|);
  }

  lemma TurnOnce<T>(s: seq<T>, k: nat)
    ensures Rotate(s, |s| + k) == Rotate(s, k)
  {
    FullTurn(s);
    RotateAgain(s, |s|, k);
  }

  lemma {:induction false} RotateTurns<T>(s: seq<T>, turns: nat, k: nat)
    ensures Rotate(s, turns * |s| + k) == Rotate(s, k)
  {
    if turns > 0 {
      var rest := (turns - 1) * |s| + k;
      assert turns * |s| + k == |s| + rest;
      TurnOnce(s, rest);
      RotateTurns(s, turns - 1, k);
    }
  }

  lemma RotateModulo<T>(s: seq<T>, k: nat)
    requires s != []
    ensures Rotate(s, k) == Rotate(s, k % |s|)
  {
    var n := |s|;
    var q, r := k / n, k % n;
    DivMod(k, n);
    assert q * |s| + r == k;
    RotateTurns(s, q, r);
  }

  // ---- One call ----

  // The servers asked: those that fail, and the one that answers.
  function Asked(list: seq<Server>, v: seq<Verdict>): seq<Server>
    requires |v| == |list|
  {
    var k := Failures(v);
    if k < |v| && v[k].Good? then list[..k + 1] else list[..k]
  }

  // Server i is asked if and only if all before it failed and a transaction id was had for it.
  lemma AskedAre(list: seq<Server>, v: seq<Verdict>, i: nat)
    requires |v| == |list| && i < |list|
    ensures Asked(list, v) <= list
    ensures i < |Asked(list, v)| <==> (forall j :: 0 <= j < i ==> v[j].Failed?) && !v[i].NoId?
  {
    FailuresStop(v);
  }

  lemma {:induction false} FailuresStop(v: seq<Verdict>)
    ensures Failures(v) <= |v| && (Failures(v) < |v| ==> !v[Failures(v)].Failed?)
    ensures forall j :: 0 <= j < Failures(v) ==> v[j].Failed?
  {
    if v != [] && v[0].Failed? {
      FailuresStop(v[1..]);
      assert forall j :: 0 < j < Failures(v) ==> v[j] == v[1..][j - 1];
    }
  }

  // The call's attempts, one per server in list order, come to these verdicts.
  ghost predicate Call(s: State, v: seq<Verdict>, s': State, answer: Answer)
    requires |v| == |s.servers|
  {
    if s.servers == [] then s' == s && answer == EmptyList
    else
      var k := Failures(v);
      && s'.servers == Rotate(s.servers, k)
      && s'.initial == (if s.initial.None? then s.source else s.initial)
      && if k == |v| then
           && answer == Unavailable(CauseOf(v))
           && s'.source == if CauseOf(v).Unknown? then s.source else s'.initial
         else if v[k].NoId? then
           answer == NoIdentifier && s'.source == s.source
         else
           answer == Mapped(v[k].inner, v[k].outer, s.servers[k]) && s'.source == v[k].inner
  }

  // After a success the server that answered comes first; after total failure the
  // list is as it was.
  lemma ListAfterCall(s: State, v: seq<Verdict>, s': State, answer: Answer)
    requires |v| == |s.servers| && Call(s, v, s', answer)
    ensures answer.Mapped? ==> s'.servers[0] == answer.server
    ensures answer.Mapped? ==> s'.servers == s.servers[Failures(v)..] + s.servers[..Failures(v)]
    ensures answer.Unavailable? ==> s'.servers == s.servers
  {
    if s.servers != [] {
      RotateSplits(s.servers, Failures(v));
      FullTurn(s.servers);
    }
  }

  // ---- Any run of calls ----

  ghost predicate Run(states: seq<State>, verdicts: seq<seq<Verdict>>, answers: seq<Answer>) {
    && |states| == |verdicts| + 1 == |answers| + 1
    && forall i :: 0 <= i < |verdicts| ==>
         |verdicts[i]| == |states[i].servers| && Call(states[i], verdicts[i], states[i + 1], answers[i])
  }

  predicate Resets(a: Answer) {
    a.Unavailable? && !a.cause.Unknown?
  }

  // Where a reset goes after these calls: to the source the client was made with if that
  // was valid, and otherwise to the first valid inner address of a success, if any.
  function Anchor(answers: seq<Answer>, first: Source): Source {
    if answers == [] || first.Some? then first
    else
      var n := |answers| - 1;
      var before := Anchor(answers[..n], first);
      if before.None? && answers[n].Mapped? then answers[n].inner else before
  }

  // The inner address of the latest success, unless the source was reset since.
  function Latest(answers: seq<Answer>, first: Source): Source {
    if answers == [] then first
    else
      var n := |answers| - 1;
      if answers[n].Mapped? then answers[n].inner
      else if Resets(answers[n]) then Anchor(answers[..n], first)
      else Latest(answers[..n], first)
  }

  // The anchor never changes once it is valid, and is the first valid inner address.
  lemma {:induction false} AnchorIs(answers: seq<Answer>, first: Source) returns (k: nat)
    ensures k <= |answers| && (first.Some? ==> Anchor(answers, first) == first)
    ensures first.None? ==> forall i :: 0 <= i < k ==> !(answers[i].Mapped? && answers[i].inner.Some?)
    ensures first.None? ==>
              if k < |answers| then answers[k].Mapped? && answers[k].inner.Some? && Anchor(answers, first) == answers[k].inner
              else Anchor(answers, first) == None
  {
    k := 0;
    if answers != [] {
      var n := |answers| - 1;
      k := AnchorIs(answers[..n], first);
      if k == n && !(answers[n].Mapped? && answers[n].inner.Some?) {
        k := n + 1;
      }
    }
  }

  lemma RunPrefix(states: seq<State>, verdicts: seq<seq<Verdict>>, answers: seq<Answer>)
    requires Run(states, verdicts, answers) && verdicts != []
    ensures Run(states[..|states| - 1], verdicts[..|verdicts| - 1], answers[..|answers| - 1])
  {
  }

  // While no source has been valid yet, the latest one is not; afterwards the anchor is.
  lemma {:induction false} LatestNeedsAnchor(answers: seq<Answer>, first: Source)
    requires Anchor(answers, first).None?
    ensures Latest(answers, first).None?
  {
    if answers != [] {
      LatestNeedsAnchor(answers[..|answers| - 1], first);
    }
  }

  // The initial source is only looked at when a call starts.
  function Initial(answers: seq<Answer>, first: Source): Source {
    if answers == [] then None else Anchor(answers[..|answers| - 1], first)
  }

  // Over any run of calls, from any source, valid or not: the source is the inner address
  // of the latest success, or where the latest reset since then went.
  lemma {:induction false} SourceOverARun(states: seq<State>, verdicts: seq<seq<Verdict>>, answers: seq<Answer>)
    requires Run(states, verdicts, answers) && states[0].servers != [] && states[0].initial.None?
    ensures var first, last := states[0].source, states[|states| - 1];
            && last.source == Latest(answers, first) && last.initial == Initial(answers, first)
            && |last.servers| == |states[0].servers|
  {
    if verdicts != [] {
      var n := |verdicts| - 1;
      RunPrefix(states, verdicts, answers);
      SourceOverARun(states[..n + 1], verdicts[..n], answers[..n]);
      assert states[..n + 1][n] == states[n] && states[..n + 1][0] == states[0];
      InitialStep(answers[..n], states[0].source);
      assert Call(states[n], verdicts[n], states[n + 1], answers[n]);
    }
  }

  // What a call makes of the initial source is the anchor.
  lemma InitialStep(answers: seq<Answer>, first: Source)
    ensures (if Initial(answers, first).None? then Latest(answers, first) else Initial(answers, first)) == Anchor(answers, first)
  {
    if answers != [] {
      var n := |answers| - 1;
      if Anchor(answers[..n], first).None? {
        LatestNeedsAnchor(answers[..n], first);
      }
    }
  }

  // A call that fails with the address or device gone restores the source the client
  // was made with exactly if that source was valid, or no call before has succeeded
  // with a valid inner address.
  lemma ResetRestoresExactly(states: seq<State>, verdicts: seq<seq<Verdict>>, answers: seq<Answer>)
    requires Run(states, verdicts, answers) && states[0].servers != [] && states[0].initial.None?
    requires answers != [] && Resets(answers[|answers| - 1])
    ensures states[|states| - 1].source == states[0].source
       <==> states[0].source.Some? || forall i :: 0 <= i < |answers| - 1 ==> !(answers[i].Mapped? && answers[i].inner.Some?)
  {
    SourceOverARun(states, verdicts, answers);
    var before := answers[..|answers| - 1];
    var k := AnchorIs(before, states[0].source);
    assert k < |before| ==> answers[k] == before[k];
    assert forall i :: 0 <= i < |before| ==> before[i] == answers[i];
  }

  // All failures of the run so far, added up.
  function TotalFailures(verdicts: seq<seq<Verdict>>): nat {
    if verdicts == [] then 0 else TotalFailures(verdicts[..|verdicts| - 1]) + Failures(verdicts[|verdicts| - 1])
  }

  // The last call of a run, and the run before it.
  lemma ListTurnsOnce(states: seq<State>, verdicts: seq<seq<Verdict>>, answers: seq<Answer>)
    requires Run(states, verdicts, answers) && states[0].servers != [] && verdicts != []
    ensures var n := |verdicts| - 1;
            && Run(states[..n + 1], verdicts[..n], answers[..n])
            && states[..n + 1][n] == states[n] && states[..n + 1][0] == states[0]
            && states[n + 1].servers == Rotate(states[n].servers, Failures(verdicts[n]))
  {
    RunPrefix(states, verdicts, answers);
  }

  lemma {:induction false} ListTurns(states: seq<State>, verdicts: seq<seq<Verdict>>, answers: seq<Answer>)
    requires Run(states, verdicts, answers) && states[0].servers != []
    ensures states[|states| - 1].servers == Rotate(states[0].servers, TotalFailures(verdicts))
  {
    if verdicts != [] {
      var n := |verdicts| - 1;
      ListTurnsOnce(states, verdicts, answers);
      ListTurns(states[..n + 1], verdicts[..n], answers[..n]);
      RotateAgain(states[0].servers, TotalFailures(verdicts[..n]), Failures(verdicts[n]));
    }
  }

  // The list is always the original one, rotated by all failures so far.
  lemma ListOverARun(states: seq<State>, verdicts: seq<seq<Verdict>>, answers: seq<Answer>)
    requires Run(states, verdicts, answers) && states[0].servers != []
    ensures states[|states| - 1].servers == Rotate(states[0].servers, TotalFailures(verdicts) % |states[0].servers|)
  {
    ListTurns(states, verdicts, answers);
    RotateModulo(states[0].servers, TotalFailures(verdicts));
  }

  // It does happen that a reset goes elsewhere: one success, and the address gone.
  lemma AnUnboundSourceIsNotRestored(server: Server, outer: AddrPort, inner: nat)
    ensures var s := State([server], None, None);
            var bound := State([server], Some(inner), None);
            var reset := State([server], Some(inner), Some(inner));
            Run([s, bound, reset], [[Good(Some(inner), outer)], [Failed(true, false)]],
                [Mapped(Some(inner), outer, server), Unavailable(AddressGone)])
  {
    var good, failed := [Good(Some(inner), outer)], [Failed(true, false)];
    FailuresAre(good, 0);
    FailuresAre(failed, 1);
    assert failed[0].Failed? && failed[0].addressGone;
    FullTurn([server]);
  }

  class Client {
    var servers: array<Server>
    var source: Source
    var initialSource: Source

    constructor (list: seq<Server>, from: Source)
      ensures fresh(servers) && Value() == State(list, from, None)
    {
      servers := new Server[|list|](i requires 0 <= i < |list| => list[i]);
      source, initialSource := from, None;
    }

    ghost function Value(): State
      reads this, servers
    {
      State(servers[..], source, initialSource)
    }

    // Moves the first server to the end, in place.
    method RotateServer()
      modifies servers
      ensures servers[..] == FirstToEnd(old(servers[..]))
    {
      if servers.Length < 2 {
        return;
      }
      var first := servers[0];
      for i := 0 to servers.Length - 1
        invariant forall j :: 0 <= j < i ==> servers[j] == old(servers[j + 1])
        invariant forall j :: i <= j < servers.Length ==> servers[j] == old(servers[j])
      {
        servers[i] := servers[i + 1];
      }
      servers[servers.Length - 1] := first;
    }

    method Ask(crc: bytes -> nat, o: Outcome) returns (v: Verdict)
      requires o.Replied? ==> |o.txid| == 12
      ensures v == Read(crc, o)
    {
      match o
      case NoTransactionId => v := NoId;
      case ExchangeFailed(a, d) => v := Failed(a, d);
      case Replied(txid, inner, response) =>
        var outer := ParseMappedAddress(crc, response, txid);
        v := if outer.Ok? then Good(inner, outer.value) else Failed(false, false);
    }

    // One turn: asks the first server, and moves it to the end if that fails.
    method TryFirst(crc: bytes -> nat, o: Outcome) returns (v: Verdict)
      requires servers.Length > 0 && (o.Replied? ==> |o.txid| == 12)
      modifies servers
      ensures v == Read(crc, o)
      ensures servers[..] == if v.Failed? then FirstToEnd(old(servers[..])) else old(servers[..])
    {
      v := Ask(crc, o);
      if v.Failed? {
        RotateServer();
      }
    }

    // tried lists the servers asked, in order.
    method GetMapping(crc: bytes -> nat, script: seq<Outcome>) returns (answer: Answer, tried: seq<Server>)
      requires WellFormed(script) && |script| == servers.Length
      modifies this`source, this`initialSource, servers
      ensures Call(old(Value()), ReadAll(crc, script), Value(), answer)
      ensures tried == Asked(old(servers[..]), ReadAll(crc, script))
    {
      tried := [];
      if servers.Length == 0 {
        return EmptyList, [];
      }
      if initialSource.None? {
        initialSource := source;
      }
      ghost var list, verdicts := servers[..], ReadAll(crc, script);
      var addressGone, deviceGone := false, false;
      for i := 0 to servers.Length
        invariant servers[..] == Rotate(list, i) && tried == list[..i]
        invariant forall j :: 0 <= j < i ==> verdicts[j].Failed?
        invariant addressGone == SawAddressGone(verdicts, i) && deviceGone == SawDeviceGone(verdicts, i)
        invariant source == old(source)
        invariant initialSource == (if old(initialSource).None? then old(source) else old(initialSource))
      {
        var server := servers[0];
        RotatedHead(list, i);
        var v := TryFirst(crc, script[i]);
        assert v == verdicts[i];
        if v.NoId? {
          FailuresAre(verdicts, i);
          return NoIdentifier, tried;
        }
        tried := tried + [server];
        if v.Good? {
          FailuresAre(verdicts, i);
          source := v.inner;
          return Mapped(v.inner, v.outer, server), tried;
        }
        SawMore(verdicts, i);
        addressGone := addressGone || v.addressGone;
        deviceGone := deviceGone || v.deviceGone;
      }
      FailuresAre(verdicts, servers.Length);
      answer := Unavailable(if addressGone then AddressGone else if deviceGone then DeviceGone else Unknown);
      if addressGone || deviceGone {
        source := initialSource;
      }
    }
  }
}
