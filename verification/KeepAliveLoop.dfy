// The loop that keeps a session alive (engine/loop.go:52-105), over every finite
// trace of what its select statement delivers.

module KeepAliveLoop {
  import opened Text
  import opened Arithmetic

  datatype KeepAliveReply = Fine | Transient | AddressLost

  datatype StunReply = Mapped(outer: Option<nat>) | StunTransient | StunAddressLost

  // One turn of the loop: the context ends, or a tick fires. A tick carries what the
  // keep-alive would answer and what a STUN query would answer if it were made.
  datatype Tick = Cancelled | Beat(keepAlive: KeepAliveReply, recheck: StunReply)

  // The local address can be lost to a keep-alive or to a recheck.
  datatype Exit = Running | Stopped | LocalAddressChanged(inRecheck: bool) | KeepAliveFailed | StunFailed | MappingChanged

  datatype Report = KeepAliveReport(attempt: nat) | StunReport(attempt: nat)

  datatype Limits = Limits(recheckEvery: nat, keepAlive: nat, stun: nat)

  predicate Positive(l: Limits) {
    l.recheckEvery > 0 && l.keepAlive > 0 && l.stun > 0
  }

  // ---- What a trace says, independently of the counters ----

  predicate IsFine(t: Tick) {
    t.Beat? && t.keepAlive.Fine?
  }

  function Fines(t: seq<Tick>): nat {
    if t == [] then 0 else Fines(t[..|t| - 1]) + if IsFine(t[|t| - 1]) then 1 else 0
  }

  // The length of the longest run of trues at the end.
  function Trailing(b: seq<bool>): (n: nat)
    ensures n <= |b|
  {
    if b == [] || !b[|b| - 1] then 0 else 1 + Trailing(b[..|b| - 1])
  }

  lemma {:induction false} TrailingIsARun(b: seq<bool>, n: nat)
    ensures Trailing(b) >= n <==> n <= |b| && forall i :: |b| - n <= i < |b| ==> b[i]
  {
    if b != [] && n > 0 {
      TrailingIsARun(b[..|b| - 1], n - 1);
    }
  }

  // Which keep-alives failed, in order.
  function KeepAliveFailures(t: seq<Tick>): seq<bool> {
    seq(|t|, i requires 0 <= i < |t| => !IsFine(t[i]))
  }

  // The last tick of t is successful keep-alive number R, 2R, 3R, ...
  predicate RechecksAt(t: seq<Tick>, every: nat)
    requires t != [] && every > 0
  {
    IsFine(t[|t| - 1]) && Fines(t) % every == 0
  }

  // Which rechecks failed, in order.
  function RecheckFailures(t: seq<Tick>, every: nat): seq<bool>
    requires every > 0
  {
    if t == [] then []
    else RecheckFailures(t[..|t| - 1], every)
         + if RechecksAt(t, every) then [!t[|t| - 1].recheck.Mapped?] else []
  }

  // Whether the loop leaves after the last tick of t, and why.
  function ExitAfter(t: seq<Tick>, l: Limits, outer: Option<nat>): Exit
    requires t != [] && Positive(l)
  {
    var last := t[|t| - 1];
    if last.Cancelled? then Stopped
    else if last.keepAlive.AddressLost? then LocalAddressChanged(false)
    else if last.keepAlive.Transient? then
      if Trailing(KeepAliveFailures(t)) >= l.keepAlive then KeepAliveFailed else Running
    else if !RechecksAt(t, l.recheckEvery) then Running
    else match last.recheck
      case StunAddressLost => LocalAddressChanged(true)
      case StunTransient => if Trailing(RecheckFailures(t, l.recheckEvery)) >= l.stun then StunFailed else Running
      case Mapped(o) => if o != outer then MappingChanged else Running
  }

  // What each way of leaving takes. The limits count the last ticks, or rechecks, in a row.
  lemma LeavesExactly(t: seq<Tick>, l: Limits, outer: Option<nat>)
    requires t != [] && Positive(l)
    ensures var last, exit, rechecks := t[|t| - 1], ExitAfter(t, l, outer), RecheckFailures(t, l.recheckEvery);
            && (exit == Stopped <==> last.Cancelled?)
            && (exit == LocalAddressChanged(false) <==> last.Beat? && last.keepAlive.AddressLost?)
            && (exit == KeepAliveFailed <==>
                  && last.Beat? && last.keepAlive.Transient? && |t| >= l.keepAlive
                  && forall i :: |t| - l.keepAlive <= i < |t| ==> !IsFine(t[i]))
            && (exit == LocalAddressChanged(true) <==> RechecksAt(t, l.recheckEvery) && last.recheck.StunAddressLost?)
            && (exit == StunFailed <==>
                  && RechecksAt(t, l.recheckEvery) && last.recheck.StunTransient? && |rechecks| >= l.stun
                  && forall i :: |rechecks| - l.stun <= i < |rechecks| ==> rechecks[i])
            && (exit == MappingChanged <==> RechecksAt(t, l.recheckEvery) && last.recheck.Mapped? && last.recheck.outer != outer)
  {
    TrailingIsARun(KeepAliveFailures(t), l.keepAlive);
    TrailingIsARun(RecheckFailures(t, l.recheckEvery), l.stun);
    assert forall i :: 0 <= i < |t| ==> KeepAliveFailures(t)[i] == !IsFine(t[i]);
  }

  // Nothing in t makes the loop leave.
  predicate GoesOn(t: seq<Tick>, l: Limits, outer: Option<nat>)
    requires Positive(l)
  {
    t == [] || (GoesOn(t[..|t| - 1], l, outer) && ExitAfter(t, l, outer) == Running)
  }

  lemma {:induction false} GoesOnAtEveryTick(t: seq<Tick>, l: Limits, outer: Option<nat>)
    requires Positive(l)
    ensures GoesOn(t, l, outer) <==> forall i :: 0 < i <= |t| ==> ExitAfter(t[..i], l, outer) == Running
  {
    if t != [] {
      var init := t[..|t| - 1];
      GoesOnAtEveryTick(init, l, outer);
      assert t[..|t|] == t;
      forall i | 0 < i <= |init| ensures init[..i] == t[..i] {
      }
    }
  }

  // What is reported after the last tick of t, if the loop goes on.
  function ReportAfter(t: seq<Tick>, l: Limits, outer: Option<nat>): seq<Report>
    requires t != [] && Positive(l)
  {
    var last := t[|t| - 1];
    if ExitAfter(t, l, outer) != Running then []
    else if last.keepAlive.Transient? then [KeepAliveReport(Trailing(KeepAliveFailures(t)))]
    else if RechecksAt(t, l.recheckEvery) && last.recheck.StunTransient? then
      [StunReport(Trailing(RecheckFailures(t, l.recheckEvery)))]
    else []
  }

  function Reports(t: seq<Tick>, l: Limits, outer: Option<nat>): seq<Report>
    requires Positive(l)
  {
    if t == [] then [] else Reports(t[..|t| - 1], l, outer) + ReportAfter(t, l, outer)
  }

  lemma {:induction false} AttemptsStayBelowTheLimit(t: seq<Tick>, l: Limits, outer: Option<nat>)
    requires Positive(l)
    ensures forall r :: r in Reports(t, l, outer) ==>
              0 < r.attempt < if r.KeepAliveReport? then l.keepAlive else l.stun
  {
    if t != [] {
      AttemptsStayBelowTheLimit(t[..|t| - 1], l, outer);
      assert forall r :: r in ReportAfter(t, l, outer) ==>
          0 < r.attempt < if r.KeepAliveReport? then l.keepAlive else l.stun;
    }
  }

  // Multiples of every up to n.
  function Multiples(n: nat, every: nat): seq<nat>
    requires every > 0
  {
    seq(n / every, i requires 0 <= i < n / every => (i + 1) * every)
  }

  // ---- The loop ----

  function LimitOrDefault(limit: int): nat {
    if limit > 0 then limit else 3
  }

  datatype Counters = Counters(count: nat, keepAliveFailures: nat, stunFailures: nat)

  // The counters stand where the trace t leaves them.
  predicate Tracks(n: Counters, t: seq<Tick>, every: nat)
    requires every > 0
  {
    && n.count == Fines(t) % every
    && n.keepAliveFailures == Trailing(KeepAliveFailures(t))
    && n.stunFailures == Trailing(RecheckFailures(t, every))
  }

  // The body of the loop, after the trace t.
  method OnTick(n: Counters, tick: Tick, l: Limits, outer: Option<nat>, ghost t: seq<Tick>)
    returns (n': Counters, exit: Exit, report: seq<Report>, rechecked: bool)
    requires Positive(l) && Tracks(n, t, l.recheckEvery)
    ensures exit == ExitAfter(t + [tick], l, outer)
    ensures exit == Running ==> Tracks(n', t + [tick], l.recheckEvery)
    ensures report == ReportAfter(t + [tick], l, outer)
    ensures rechecked <==> RechecksAt(t + [tick], l.recheckEvery)
  {
    TickStep(t, tick, l.recheckEvery);
    CountStep(Fines(t), l.recheckEvery);
    n', exit, report, rechecked := n, Running, [], false;
    if tick.Cancelled? {
      return n', Stopped, [], false;
    }
    if !tick.keepAlive.Fine? {
      if tick.keepAlive.AddressLost? {
        return n', LocalAddressChanged(false), [], false;
      }
      n' := n'.(keepAliveFailures := n.keepAliveFailures + 1);
      if n'.keepAliveFailures >= l.keepAlive {
        return n', KeepAliveFailed, [], false;
      }
      return n', Running, [KeepAliveReport(n'.keepAliveFailures)], false;
    }
    n' := n'.(keepAliveFailures := 0, count := n.count + 1);
    if n'.count >= l.recheckEvery {
      n', rechecked := n'.(count := 0), true;
      match tick.recheck
      case StunAddressLost =>
        exit := LocalAddressChanged(true);
      case StunTransient =>
        n' := n'.(stunFailures := n.stunFailures + 1);
        if n'.stunFailures >= l.stun {
          exit := StunFailed;
        } else {
          report := [StunReport(n'.stunFailures)];
        }
      case Mapped(o) =>
        n' := n'.(stunFailures := 0);
        exit := if o != outer then MappingChanged else Running;
    }
  }

  // The loop has consumed t and is in state exit: it has left exactly at the last
  // tick of t, or has not left.
  predicate Reached(t: seq<Tick>, exit: Exit, l: Limits, outer: Option<nat>)
    requires Positive(l)
  {
    if exit == Running then GoesOn(t, l, outer)
    else t != [] && GoesOn(t[..|t| - 1], l, outer) && ExitAfter(t, l, outer) == exit
  }

  // The exit the loop takes on the trace t; Running if none.
  function FirstExit(t: seq<Tick>, l: Limits, outer: Option<nat>): Exit
    requires Positive(l)
  {
    if t == [] then Running
    else if FirstExit(t[..|t| - 1], l, outer) != Running then FirstExit(t[..|t| - 1], l, outer)
    else ExitAfter(t, l, outer)
  }

  lemma {:induction false} GoesOnMeansNoExit(t: seq<Tick>, l: Limits, outer: Option<nat>)
    requires Positive(l)
    ensures GoesOn(t, l, outer) <==> FirstExit(t, l, outer) == Running
  {
    if t != [] {
      GoesOnMeansNoExit(t[..|t| - 1], l, outer);
    }
  }

  // Wherever the loop stops on the trace, it stops for the first exit.
  lemma {:induction false} ReachedIsFirst(t: seq<Tick>, used: nat, exit: Exit, l: Limits, outer: Option<nat>)
    requires Positive(l) && used <= |t| && Reached(t[..used], exit, l, outer) && (exit == Running ==> used == |t|)
    ensures FirstExit(t, l, outer) == exit
    decreases |t|
  {
    if used == |t| {
      assert t[..used] == t;
      GoesOnMeansNoExit(t, l, outer);
      if t != [] {
        GoesOnMeansNoExit(t[..|t| - 1], l, outer);
      }
    } else {
      var init := t[..|t| - 1];
      assert init[..used] == t[..used];
      ReachedIsFirst(init, used, exit, l, outer);
    }
  }

  // A changed mapping is one that a recheck has seen.
  lemma {:induction false} ChangeWasSeen(t: seq<Tick>, l: Limits, outer: Option<nat>)
    requires Positive(l) && FirstExit(t, l, outer) == MappingChanged
    ensures exists i :: 0 <= i < |t| && t[i].Beat? && t[i].recheck.Mapped? && t[i].recheck.outer != outer
  {
    var n := |t| - 1;
    if FirstExit(t[..n], l, outer) == Running {
      LeavesExactly(t, l, outer);
      assert t[n].Beat? && t[n].recheck.Mapped? && t[n].recheck.outer != outer;
    } else {
      ChangeWasSeen(t[..n], l, outer);
      var i :| 0 <= i < n && t[..n][i].Beat? && t[..n][i].recheck.Mapped? && t[..n][i].recheck.outer != outer;
      assert t[i] == t[..n][i];
    }
  }

  lemma DefaultLimits()
    ensures LimitsOf(0, 0, 0) == Limits(20, 3, 3)
    ensures forall r: int, k: int, s: int :: r > 0 && k > 0 && s > 0 ==> LimitsOf(r, k, s) == Limits(r, k, s)
  {
  }

  function LimitsOf(recheckEvery: int, keepAliveLimit: int, stunLimit: int): Limits {
    Limits(if recheckEvery > 0 then recheckEvery else 20, LimitOrDefault(keepAliveLimit), LimitOrDefault(stunLimit))
  }

  // used counts the ticks consumed. The reasons to leave, the reports, and the
  // successful keep-alives at which STUN is asked again are those of the trace.
  method KeepSessionAlive(trace: seq<Tick>, outer: Option<nat>, recheckEvery: int, keepAliveLimit: int, stunLimit: int)
    returns (exit: Exit, used: nat, reports: seq<Report>, rechecks: seq<nat>, renewals: nat)
    ensures used <= |trace| && (exit == Running ==> used == |trace|)
    ensures Reached(trace[..used], exit, LimitsOf(recheckEvery, keepAliveLimit, stunLimit), outer)
    ensures reports == Reports(trace[..used], LimitsOf(recheckEvery, keepAliveLimit, stunLimit), outer)
    ensures renewals == Fines(trace[..used])
    ensures rechecks == Multiples(renewals, LimitsOf(recheckEvery, keepAliveLimit, stunLimit).recheckEvery)
  {
    var l := LimitsOf(recheckEvery, keepAliveLimit, stunLimit);
    var n := Counters(0, 0, 0);
    ghost var t: seq<Tick> := [];
    reports, rechecks, renewals, used, exit := [], [], 0, 0, Running;
    while used < |trace| && exit == Running
      invariant used <= |trace| && t == trace[..used]
      invariant Reached(t, exit, l, outer)
      invariant exit == Running ==> Tracks(n, t, l.recheckEvery)
      invariant renewals == Fines(t)
      invariant reports == Reports(t, l, outer)
      invariant rechecks == Multiples(renewals, l.recheckEvery)
    {
      var tick := trace[used];
      Step(t, tick, l, outer);
      CountStep(renewals, l.recheckEvery);
      var report, rechecked;
      n, exit, report, rechecked := OnTick(n, tick, l, outer, t);
      reports := reports + report;
      if tick.Beat? && tick.keepAlive.Fine? {
        renewals := renewals + 1;
      }
      if rechecked {
        rechecks := rechecks + [renewals];
      }
      used := used + 1;
      t := t + [tick];
    }
  }

  lemma Step(t: seq<Tick>, tick: Tick, l: Limits, outer: Option<nat>)
    requires Positive(l)
    ensures GoesOn(t, l, outer) ==> Reached(t + [tick], ExitAfter(t + [tick], l, outer), l, outer)
    ensures Reports(t + [tick], l, outer) == Reports(t, l, outer) + ReportAfter(t + [tick], l, outer)
    ensures Fines(t + [tick]) == Fines(t) + (if IsFine(tick) then 1 else 0)
    ensures RechecksAt(t + [tick], l.recheckEvery) <==> IsFine(tick) && (Fines(t) + 1) % l.recheckEvery == 0
  {
    assert (t + [tick])[..|t|] == t;
  }

  // How one more tick changes what the trace says.
  lemma TickStep(t: seq<Tick>, tick: Tick, every: nat)
    requires every > 0
    ensures var u := t + [tick];
            && Fines(u) == Fines(t) + (if IsFine(tick) then 1 else 0)
            && Trailing(KeepAliveFailures(u)) == (if IsFine(tick) then 0 else 1 + Trailing(KeepAliveFailures(t)))
            && Trailing(RecheckFailures(u, every))
               == if !RechecksAt(u, every) then Trailing(RecheckFailures(t, every))
                  else if tick.recheck.Mapped? then 0 else 1 + Trailing(RecheckFailures(t, every))
  {
    var u := t + [tick];
    assert u[..|u| - 1] == t;
    assert KeepAliveFailures(u)[..|u| - 1] == KeepAliveFailures(t);
    TrailingAppend(RecheckFailures(t, every), !IsFine(tick) || !tick.recheck.Mapped?);
  }

  lemma TrailingAppend(b: seq<bool>, x: bool)
    ensures Trailing(b + [x]) == if x then 1 + Trailing(b) else 0
    ensures b + [] == b
  {
    assert (b + [x])[..|b|] == b;
  }

  lemma CountStep(n: nat, every: nat)
    requires every > 0
    ensures (n + 1) % every == if n % every + 1 == every then 0 else n % every + 1
    ensures Multiples(n + 1, every) == Multiples(n, every) + if n % every + 1 == every then [n + 1] else []
  {
    var q, r := n / every, n % every;
    assert n == q * every + r;
    if r + 1 == every {
      assert n + 1 == (q + 1) * every;
      DivOf(n + 1, q + 1, 0, every);
    } else {
      DivOf(n + 1, q, r + 1, every);
    }
  }
}
