// The ledger of what a session takes from the outside world and gives back, and
// what it means for such a ledger to be in order (engine/run_once.go:93-125).

module SessionLedger {
  import opened Text

  datatype Kind = Forwarding | KeepAliveSocket | PortMapping

  // The thing of that kind taken by session number run.
  datatype Resource = Resource(kind: Kind, run: nat)

  datatype Event =
    | Acquired(resource: Resource)
    | Released(resource: Resource)
    | Slept(seconds: nat)
    | Returned

  type Log = seq<Event>

  // Resources are given back in this order.
  function Rank(k: Kind): nat {
    match k
    case Forwarding => 0
    case KeepAliveSocket => 1
    case PortMapping => 2
  }

  // For each kind, the session whose resource is held.
  datatype Holdings = Holdings(forwarding: Option<nat>, keepAlive: Option<nat>, portMapping: Option<nat>) {
    function Of(k: Kind): Option<nat> {
      match k
      case Forwarding => forwarding
      case KeepAliveSocket => keepAlive
      case PortMapping => portMapping
    }

    function With(k: Kind, run: Option<nat>): Holdings {
      match k
      case Forwarding => this.(forwarding := run)
      case KeepAliveSocket => this.(keepAlive := run)
      case PortMapping => this.(portMapping := run)
    }
  }

  const NOTHING := Holdings(None, None, None)

  function After(held: Holdings, e: Event): Holdings {
    match e
    case Acquired(r) => held.With(r.kind, Some(r.run))
    case Released(r) => held.With(r.kind, None)
    case _ => held
  }

  function Held(log: Log): Holdings {
    if log == [] then NOTHING else After(Held(log[..|log| - 1]), log[|log| - 1])
  }

  // What may happen next: take a resource not taken before, while holding none of
  // its kind; release what is held, in order; sleep or return only empty-handed.
  predicate Allowed(log: Log, e: Event) {
    match e
    case Acquired(r) => e !in log && Held(log).Of(r.kind).None?
    case Released(r) =>
      && Held(log).Of(r.kind) == Some(r.run)
      && forall k: Kind :: Rank(k) < Rank(r.kind) ==> Held(log).Of(k).None?
    case _ => Held(log) == NOTHING
  }

  predicate InOrder(log: Log) {
    log == [] || (InOrder(log[..|log| - 1]) && Allowed(log[..|log| - 1], log[|log| - 1]))
  }

  // Only sessions before n have taken anything.
  predicate Numbered(log: Log, n: nat) {
    log == [] ||
    (Numbered(log[..|log| - 1], n) && (log[|log| - 1].Acquired? ==> log[|log| - 1].resource.run < n))
  }

  lemma {:induction false} NumberedIsFresh(log: Log, n: nat, r: Resource)
    requires Numbered(log, n) && r.run >= n
    ensures Acquired(r) !in log
  {
    if log != [] {
      NumberedIsFresh(log[..|log| - 1], n, r);
      assert log == log[..|log| - 1] + [log[|log| - 1]];
    }
  }

  lemma {:induction false} NumberedMore(log: Log, n: nat)
    requires Numbered(log, n)
    ensures Numbered(log, n + 1)
  {
    if log != [] {
      NumberedMore(log[..|log| - 1], n);
    }
  }

  function Times(log: Log, e: Event): nat {
    if log == [] then 0 else Times(log[..|log| - 1], e) + if log[|log| - 1] == e then 1 else 0
  }

  lemma Append(log: Log, e: Event)
    requires InOrder(log) && Allowed(log, e)
    ensures InOrder(log + [e]) && Held(log + [e]) == After(Held(log), e)
  {
    assert (log + [e])[..|log|] == log;
  }

  lemma {:induction false} TimesAbsent(log: Log, e: Event)
    requires e !in log
    ensures Times(log, e) == 0
  {
    if log != [] {
      TimesAbsent(log[..|log| - 1], e);
    }
  }

  // ---- What an orderly ledger guarantees ----

  lemma {:induction false} TakenOnce(log: Log, r: Resource)
    requires InOrder(log)
    ensures Times(log, Acquired(r)) == if Acquired(r) in log then 1 else 0
  {
    if log != [] {
      var init, last := log[..|log| - 1], log[|log| - 1];
      assert log == init + [last];
      TakenOnce(init, r);
      if last == Acquired(r) {
        TimesAbsent(init, last);
      }
    }
  }

  // Each resource is released as often as it was taken, less one while it is held.
  lemma {:induction false} ReleasesMatch(log: Log, r: Resource)
    requires InOrder(log)
    ensures Times(log, Released(r)) + (if Held(log).Of(r.kind) == Some(r.run) then 1 else 0) == Times(log, Acquired(r))
  {
    if log != [] {
      ReleasesMatch(log[..|log| - 1], r);
      TakenOnce(log[..|log| - 1], r);
      TakenOnce(log, r);
    }
  }

  // Once nothing is held, each resource ever taken has been released exactly once.
  lemma EverythingIsReleasedOnce(log: Log, r: Resource)
    requires InOrder(log) && Held(log) == NOTHING
    ensures Times(log, Acquired(r)) == Times(log, Released(r)) == if Acquired(r) in log then 1 else 0
  {
    ReleasesMatch(log, r);
    TakenOnce(log, r);
  }

  lemma {:induction false} EmptyHandedAt(log: Log, i: nat)
    requires InOrder(log) && i < |log| && (log[i].Slept? || log[i].Returned?)
    ensures Held(log[..i]) == NOTHING
  {
    var init := log[..|log| - 1];
    if i < |init| {
      EmptyHandedAt(init, i);
      assert init[..i] == log[..i];
    }
  }

  // When something is released, nothing that comes before it in the order is held.
  lemma {:induction false} ReleasedInOrder(log: Log, i: nat, k: Kind)
    requires InOrder(log) && i < |log| && log[i].Released? && Held(log[..i]).Of(k).Some?
    ensures log[i].resource.kind.PortMapping? ==> k.PortMapping?
    ensures log[i].resource.kind.KeepAliveSocket? ==> !k.Forwarding?
  {
    var init := log[..|log| - 1];
    if i < |init| {
      assert init[..i] == log[..i];
      ReleasedInOrder(init, i, k);
    }
  }
}
