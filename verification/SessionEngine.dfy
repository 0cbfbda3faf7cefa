// Sessions and their retry loop (engine/run_once.go:100-353, engine/loop.go:29-52,
// engine/retry.go:19-63). Every answer of a dependency is a field of Answers, so a
// session is a function of what it is told; what it takes and gives back is in the log.

module SessionEngine {
  import opened Text
  import opened SessionLedger
  import opened KeepAliveLoop

  // What errors.Is finds inside an error: a wrapped error matches several sentinels.
  datatype Sentinel =
    | ErrMappingChanged | ErrKeepAliveFailed | ErrTargetClosed | ErrLocalAddressChanged
    | ErrNoServerAvailable | AddressUnavailable | OtherError(code: nat)

  type Error = set<Sentinel>

  // An address is None when it is not valid.
  datatype Mapping = Mapping(inner: Option<nat>, outer: Option<nat>)

  datatype Config = Config(udp: bool, upnp: bool, retryTarget: bool, exitWhenChanged: bool, keepAliveInterval: int)

  // Which dependencies are present.
  datatype Wiring = Wiring(stun: bool, keepAlive: bool, newKeepAlive: bool, upnp: bool, notify: bool, initialCheck: bool)

  datatype Observation = Seen(mapping: Mapping) | Unseen(error: Error)

  // What the dependencies answer during one run. Fields of type Option<Error> are the
  // errors returned; closed fields are the LAN checks of the target port.
  datatype Answers = Answers(
    firstStun: Observation, newKeepAlive: Option<Error>, keepAlive: Option<Error>, secondStun: Observation,
    newForwarder: Option<Error>, bind: Option<Error>, start: Option<Error>, upnp: Option<Error>,
    notify: Option<Error>, initialClosed: bool, laterClosed: bool,
    trace: seq<Tick>, keepAliveCause: Error, recheckCause: Error,
    stop: Option<Error>, close: Option<Error>, revoke: Option<Error>,
    contextDone: bool, sleepInterrupted: bool)

  const MISSING: nat := 0

  // ---- Which mapping a session works with ----

  function Observed(first: Mapping, second: Mapping): Mapping {
    if second.inner.Some? then second else second.(inner := first.inner)
  }

  function Chosen(first: Mapping, second: Mapping): Mapping {
    var observed := Observed(first, second);
    if first.inner.Some? && observed.inner.Some? && observed.inner != first.inner then first else observed
  }

  predicate Unstable(first: Mapping, observed: Mapping) {
    || (first.inner.Some? && observed.inner.Some? && first.inner != observed.inner)
    || (first.outer.Some? && observed.outer.Some? && first.outer != observed.outer)
  }

  datatype Result = Result(mapping: Mapping, unstable: bool)

  function MappingOf(o: Observation): Mapping {
    if o.Seen? then o.mapping else Mapping(None, None)
  }

  // What a session that starts works with.
  function ResultOf(a: Answers): Result {
    var first, second := MappingOf(a.firstStun), MappingOf(a.secondStun);
    Result(Chosen(first, second), Unstable(first, Observed(first, second)))
  }

  // The chosen inner address is the one the keep-alive socket is bound to, the chosen
  // outer address was seen from that inner address, and any disagreement between
  // the two queries is reported.
  lemma ChosenMappingIsTheOneKeptAlive(first: Mapping, second: Mapping)
    ensures first.inner.Some? ==> Chosen(first, second).inner == first.inner
    ensures Chosen(first, second) == first || Chosen(first, second).outer == second.outer
    ensures if first.inner.Some? && second.inner.Some? && second.inner != first.inner then Chosen(first, second) == first
            else Chosen(first, second).outer == second.outer
    ensures first.inner.None? ==> Chosen(first, second).inner == second.inner
    ensures Unstable(first, Observed(first, second)) <==>
              || (first.inner.Some? && second.inner.Some? && first.inner != second.inner)
              || (first.outer.Some? && second.outer.Some? && first.outer != second.outer)
  {
  }

  // ---- The steps of a session, in order, as the errors they raise ----

  const STEPS: nat := 12

  function ErrorIf(b: bool, e: Error): Option<Error> {
    if b then Some(e) else None
  }

  function StunError(o: Observation): Option<Error> {
    if o.Unseen? then Some(o.error) else None
  }

  function When(b: bool, e: Option<Error>): Option<Error> {
    if b then e else None
  }

  function OrElse(e: Option<Error>, f: Option<Error>): Option<Error> {
    if e.Some? then e else f
  }

  predicate TargetIsClosed(cfg: Config, w: Wiring, a: Answers) {
    cfg.retryTarget && !cfg.udp && if w.initialCheck then a.initialClosed else a.laterClosed
  }

  // Steps 0 to 3 come before anything is held.
  function StepError(cfg: Config, w: Wiring, a: Answers, i: nat): Option<Error> {
    match i
    case 0 => ErrorIf(!w.stun, {OtherError(MISSING)})
    case 1 => StunError(a.firstStun)
    case 2 => When(!w.keepAlive && w.newKeepAlive, a.newKeepAlive)
    case 3 => ErrorIf(!w.keepAlive && !w.newKeepAlive, {OtherError(MISSING)})
    case 4 => a.keepAlive
    case 5 => StunError(a.secondStun)
    case 6 => a.newForwarder
    case 7 => a.bind
    case 8 => a.start
    case 9 => ErrorIf(cfg.upnp && !w.upnp, {OtherError(MISSING)})
    case 10 => When(w.notify, a.notify)
    case _ => ErrorIf(TargetIsClosed(cfg, w, a), {ErrTargetClosed})
  }

  // The error of the first step from i on that raises one.
  function ErrorFrom(cfg: Config, w: Wiring, a: Answers, i: nat): Option<Error>
    requires i <= STEPS
    decreases STEPS - i
  {
    if i == STEPS then None else OrElse(StepError(cfg, w, a, i), ErrorFrom(cfg, w, a, i + 1))
  }

  // No step before i raises an error.
  predicate Reaches(cfg: Config, w: Wiring, a: Answers, i: nat) {
    i == 0 || (Reaches(cfg, w, a, i - 1) && StepError(cfg, w, a, i - 1).None?)
  }

  // One step after the other.
  lemma ReachesNext(cfg: Config, w: Wiring, a: Answers, i: nat, next: nat)
    requires next == i + 1
    ensures Reaches(cfg, w, a, next) <==> Reaches(cfg, w, a, i) && StepError(cfg, w, a, i).None?
  {
  }

  lemma EarlySteps(cfg: Config, w: Wiring, a: Answers)
    ensures Reaches(cfg, w, a, 0) && (Reaches(cfg, w, a, 1) <==> w.stun)
    ensures Reaches(cfg, w, a, 2) <==> w.stun && a.firstStun.Seen?
    ensures Reaches(cfg, w, a, 3) <==> w.stun && a.firstStun.Seen? && (w.keepAlive || !w.newKeepAlive || a.newKeepAlive.None?)
    ensures Reaches(cfg, w, a, 4) <==> w.stun && a.firstStun.Seen? && (w.keepAlive || (w.newKeepAlive && a.newKeepAlive.None?))
  {
    ReachesNext(cfg, w, a, 0, 1);
    ReachesNext(cfg, w, a, 1, 2);
    ReachesNext(cfg, w, a, 2, 3);
    ReachesNext(cfg, w, a, 3, 4);
  }

  lemma LaterSteps(cfg: Config, w: Wiring, a: Answers)
    ensures Reaches(cfg, w, a, 5) <==> Reaches(cfg, w, a, 4) && a.keepAlive.None?
    ensures Reaches(cfg, w, a, 6) <==> Reaches(cfg, w, a, 5) && a.secondStun.Seen?
    ensures Reaches(cfg, w, a, 7) <==> Reaches(cfg, w, a, 6) && a.newForwarder.None?
    ensures Reaches(cfg, w, a, 8) <==> Reaches(cfg, w, a, 7) && a.bind.None?
    ensures Reaches(cfg, w, a, 9) <==> Reaches(cfg, w, a, 8) && a.start.None?
  {
    ReachesNext(cfg, w, a, 4, 5);
    ReachesNext(cfg, w, a, 5, 6);
    ReachesNext(cfg, w, a, 6, 7);
    ReachesNext(cfg, w, a, 7, 8);
    ReachesNext(cfg, w, a, 8, 9);
  }

  lemma {:induction false} ReachesLess(cfg: Config, w: Wiring, a: Answers, i: nat, j: nat)
    requires i <= j && Reaches(cfg, w, a, j)
    ensures Reaches(cfg, w, a, i)
  {
    if i < j {
      ReachesLess(cfg, w, a, i, j - 1);
    }
  }

  lemma {:induction false} ReachesTheError(cfg: Config, w: Wiring, a: Answers, i: nat)
    requires i <= STEPS && Reaches(cfg, w, a, i) && ErrorFrom(cfg, w, a, i).None?
    ensures Reaches(cfg, w, a, STEPS)
    decreases STEPS - i
  {
    if i < STEPS {
      ReachesTheError(cfg, w, a, i + 1);
    }
  }

  // The session stops at step i: what is known of all the steps.
  lemma StopsAt(cfg: Config, w: Wiring, a: Answers, i: nat)
    requires i <= STEPS && Reaches(cfg, w, a, i) && (i < STEPS ==> StepError(cfg, w, a, i).Some?)
    ensures ErrorFrom(cfg, w, a, i) == if i < STEPS then StepError(cfg, w, a, i) else None
    ensures forall j: nat :: j <= STEPS ==> (Reaches(cfg, w, a, j) <==> j <= i)
  {
    forall j: nat | j <= STEPS ensures Reaches(cfg, w, a, j) <==> j <= i {
      if j <= i {
        ReachesLess(cfg, w, a, j, i);
      } else if Reaches(cfg, w, a, j) {
        ReachesLess(cfg, w, a, i + 1, j);
      }
    }
  }

  lemma {:induction false} ErrorSkips(cfg: Config, w: Wiring, a: Answers, i: nat, j: nat)
    requires i <= j <= STEPS && Reaches(cfg, w, a, j)
    ensures ErrorFrom(cfg, w, a, i) == ErrorFrom(cfg, w, a, j)
  {
    if i < j {
      ErrorSkips(cfg, w, a, i, j - 1);
    }
  }

  function StartError(cfg: Config, w: Wiring, a: Answers): Option<Error> {
    ErrorFrom(cfg, w, a, 0)
  }

  // What a session takes: each thing, exactly if every step before it succeeded.
  predicate Takes(cfg: Config, w: Wiring, a: Answers, k: Kind) {
    match k
    case KeepAliveSocket => Reaches(cfg, w, a, 4)
    case Forwarding => Reaches(cfg, w, a, 7)
    case PortMapping => Reaches(cfg, w, a, 9) && cfg.upnp && w.upnp && a.upnp.None?
  }

  // The error of a session that does not start is that of the first thing missing or
  // failing, in this order; it starts if there is none.
  lemma StartErrorIs(cfg: Config, w: Wiring, a: Answers)
    ensures StartError(cfg, w, a)
         == if !w.stun then Some({OtherError(MISSING)})
            else if a.firstStun.Unseen? then Some(a.firstStun.error)
            else if !w.keepAlive && !w.newKeepAlive then Some({OtherError(MISSING)})
            else if !w.keepAlive && a.newKeepAlive.Some? then a.newKeepAlive
            else if a.keepAlive.Some? then a.keepAlive
            else if a.secondStun.Unseen? then Some(a.secondStun.error)
            else if a.newForwarder.Some? then a.newForwarder
            else if a.bind.Some? then a.bind
            else if a.start.Some? then a.start
            else if cfg.upnp && !w.upnp then Some({OtherError(MISSING)})
            else if w.notify && a.notify.Some? then a.notify
            else if cfg.retryTarget && !cfg.udp && (if w.initialCheck then a.initialClosed else a.laterClosed) then Some({ErrTargetClosed})
            else None
  {
    ErrorsFrom(cfg, w, a, 0, 1, 2, 3, 4);
    ErrorsFrom(cfg, w, a, 4, 5, 6, 7, 8);
    ErrorsFrom(cfg, w, a, 8, 9, 10, 11, 12);
  }

  lemma ErrorsFrom(cfg: Config, w: Wiring, a: Answers, i: nat, j: nat, k: nat, l: nat, m: nat)
    requires i < STEPS - 3 && j == i + 1 && k == i + 2 && l == i + 3 && m == i + 4
    ensures ErrorFrom(cfg, w, a, i)
         == OrElse(StepError(cfg, w, a, i), OrElse(StepError(cfg, w, a, j), OrElse(StepError(cfg, w, a, k),
              OrElse(StepError(cfg, w, a, l), ErrorFrom(cfg, w, a, m)))))
  {
    assert ErrorFrom(cfg, w, a, j) == OrElse(StepError(cfg, w, a, j), ErrorFrom(cfg, w, a, k));
    assert ErrorFrom(cfg, w, a, k) == OrElse(StepError(cfg, w, a, k), ErrorFrom(cfg, w, a, l));
    assert ErrorFrom(cfg, w, a, l) == OrElse(StepError(cfg, w, a, l), ErrorFrom(cfg, w, a, m));
  }

  // The socket is taken once the first query has answered, the forwarder once the second
  // has, and the port mapping, if asked for, once the forwarder has started.
  lemma TakesExactly(cfg: Config, w: Wiring, a: Answers)
    ensures Takes(cfg, w, a, KeepAliveSocket)
       <==> w.stun && a.firstStun.Seen? && (w.keepAlive || (w.newKeepAlive && a.newKeepAlive.None?))
    ensures Takes(cfg, w, a, Forwarding)
       <==> Takes(cfg, w, a, KeepAliveSocket) && a.keepAlive.None? && a.secondStun.Seen? && a.newForwarder.None?
    ensures Takes(cfg, w, a, PortMapping)
       <==> Takes(cfg, w, a, Forwarding) && a.bind.None? && a.start.None? && cfg.upnp && w.upnp && a.upnp.None?
  {
    EarlySteps(cfg, w, a);
    LaterSteps(cfg, w, a);
  }

  // ---- What a session adds to the log ----

  function Noted(log: Log, b: bool, e: Event): Log {
    if b then log + [e] else log
  }

  function Taken(log: Log, forwarder: bool, upnp: bool, run: nat): Log {
    Noted(Noted(log, forwarder, Acquired(Resource(Forwarding, run))), upnp, Acquired(Resource(PortMapping, run)))
  }

  function Given(log: Log, forwarder: bool, keepAlive: bool, upnp: bool, run: nat): Log {
    Noted(Noted(Noted(log, forwarder, Released(Resource(Forwarding, run))),
                keepAlive, Released(Resource(KeepAliveSocket, run))),
          upnp, Released(Resource(PortMapping, run)))
  }

  // The log after a session that takes these things, from start to close.
  function SessionLog(log: Log, keepAlive: bool, forwarder: bool, upnp: bool, run: nat): Log {
    if keepAlive then
      Given(Taken(log + [Acquired(Resource(KeepAliveSocket, run))], forwarder, upnp, run), forwarder, true, upnp, run)
    else log
  }

  // ---- The outside world: the log of what was taken from it and given back ----

  class World {
    var log: Log

    constructor ()
      ensures log == []
    {
      log := [];
    }

    method Record(e: Event)
      requires InOrder(log) && Allowed(log, e)
      modifies this
      ensures log == old(log) + [e]
      ensures InOrder(log) && Held(log) == After(old(Held(log)), e)
    {
      Append(log, e);
      log := log + [e];
    }
  }

  class Session {
    var forwarder: Option<nat>
    var keepAlive: Option<nat>
    var upnp: Option<nat>
    var result: Result

    constructor (run: nat)
      ensures forwarder == None && keepAlive == Some(run) && upnp == None
    {
      forwarder, keepAlive, upnp := None, Some(run), None;
      result := Result(Mapping(None, None), false);
    }

    ghost function Resources(): Holdings
      reads this
    {
      Holdings(forwarder, keepAlive, upnp)
    }

    // What a session holds is its own.
    ghost predicate Owns(run: nat)
      reads this
    {
      && (forwarder.Some? ==> forwarder.value == run)
      && (keepAlive.Some? ==> keepAlive.value == run)
      && (upnp.Some? ==> upnp.value == run)
    }

    // Releases whatever is held; the answer is the first error met.
    method Close(w: World, a: Answers, ghost run: nat) returns (err: Option<Error>)
      requires InOrder(w.log) && Held(w.log) == Resources() && Owns(run)
      modifies this, w
      ensures InOrder(w.log) && Held(w.log) == NOTHING
      ensures forwarder == None && keepAlive == None && upnp == None
      ensures w.log == Given(old(w.log), old(forwarder).Some?, old(keepAlive).Some?, old(upnp).Some?, run)
      ensures err == OrElse(When(old(forwarder).Some?, a.stop),
                            OrElse(When(old(keepAlive).Some?, a.close), When(old(upnp).Some?, a.revoke)))
    {
      err := None;
      if forwarder.Some? {
        w.Record(Released(Resource(Forwarding, forwarder.value)));
        err := a.stop;
        forwarder := None;
      }
      if keepAlive.Some? {
        w.Record(Released(Resource(KeepAliveSocket, keepAlive.value)));
        if a.close.Some? && err.None? {
          err := a.close;
        }
        keepAlive := None;
      }
      if upnp.Some? {
        w.Record(Released(Resource(PortMapping, upnp.value)));
        if a.revoke.Some? && err.None? {
          err := a.revoke;
        }
        upnp := None;
      }
    }

    // Port mapping, notification and target check: the last three steps.
    method Publish(w: World, cfg: Config, wiring: Wiring, a: Answers, run: nat) returns (err: Option<Error>)
      requires InOrder(w.log) && Held(w.log) == Resources() && Reaches(cfg, wiring, a, 9)
      requires upnp == None && Acquired(Resource(PortMapping, run)) !in w.log
      modifies this`upnp, w
      ensures InOrder(w.log) && Held(w.log) == Resources()
      ensures err == ErrorFrom(cfg, wiring, a, 9)
      ensures upnp == if Takes(cfg, wiring, a, PortMapping) then Some(run) else None
      ensures w.log == Noted(old(w.log), upnp.Some?, Acquired(Resource(PortMapping, run)))
    {
      if cfg.upnp {
        if !wiring.upnp {
          return Some({OtherError(MISSING)});
        }
        if a.upnp.None? {
          w.Record(Acquired(Resource(PortMapping, run)));
          upnp := Some(run);
        }
      }
      err := CheckPublished(cfg, wiring, a);
    }

    method CheckPublished(cfg: Config, wiring: Wiring, a: Answers) returns (err: Option<Error>)
      ensures err == ErrorFrom(cfg, wiring, a, 10)
    {
      if wiring.notify && a.notify.Some? {
        return a.notify;
      }
      if cfg.retryTarget && !cfg.udp {
        var closed := if wiring.initialCheck then a.initialClosed else a.laterClosed;
        if closed {
          return Some({ErrTargetClosed});
        }
      }
      err := None;
    }

    // The forwarder is taken when it is made, before it is started.
    method Install(w: World, cfg: Config, wiring: Wiring, a: Answers, run: nat) returns (err: Option<Error>)
      requires InOrder(w.log) && Held(w.log) == Resources() && Reaches(cfg, wiring, a, 6)
      requires forwarder == None && upnp == None
      requires Acquired(Resource(Forwarding, run)) !in w.log && Acquired(Resource(PortMapping, run)) !in w.log
      modifies this`forwarder, this`upnp, w
      ensures InOrder(w.log) && Held(w.log) == Resources()
      ensures err == ErrorFrom(cfg, wiring, a, 6)
      ensures forwarder == if Takes(cfg, wiring, a, Forwarding) then Some(run) else None
      ensures upnp == if Takes(cfg, wiring, a, PortMapping) then Some(run) else None
      ensures w.log == Taken(old(w.log), forwarder.Some?, upnp.Some?, run)
    {
      LaterSteps(cfg, wiring, a);
      if a.newForwarder.Some? {
        StopsAt(cfg, wiring, a, 6);
        return a.newForwarder;
      }
      w.Record(Acquired(Resource(Forwarding, run)));
      forwarder := Some(run);
      if a.bind.Some? {
        StopsAt(cfg, wiring, a, 7);
        return a.bind;
      }
      if a.start.Some? {
        StopsAt(cfg, wiring, a, 8);
        return a.start;
      }
      err := Publish(w, cfg, wiring, a, run);
    }

    // The steps of StartSession once the session holds its keep-alive.
    method Build(w: World, cfg: Config, wiring: Wiring, a: Answers, run: nat) returns (err: Option<Error>)
      requires InOrder(w.log) && Held(w.log) == Resources() && Reaches(cfg, wiring, a, 4) && a.firstStun.Seen?
      requires forwarder == None && keepAlive == Some(run) && upnp == None
      requires Acquired(Resource(Forwarding, run)) !in w.log && Acquired(Resource(PortMapping, run)) !in w.log
      modifies this, w
      ensures InOrder(w.log) && Held(w.log) == Resources()
      ensures err == ErrorFrom(cfg, wiring, a, 4)
      ensures keepAlive == Some(run)
      ensures forwarder == if Takes(cfg, wiring, a, Forwarding) then Some(run) else None
      ensures upnp == if Takes(cfg, wiring, a, PortMapping) then Some(run) else None
      ensures w.log == Taken(old(w.log), forwarder.Some?, upnp.Some?, run)
      ensures err.None? ==> result == ResultOf(a)
    {
      LaterSteps(cfg, wiring, a);
      var first := a.firstStun.mapping;
      if a.keepAlive.Some? {
        StopsAt(cfg, wiring, a, 4);
        return a.keepAlive;
      }
      if a.secondStun.Unseen? {
        StopsAt(cfg, wiring, a, 5);
        return Some(a.secondStun.error);
      }
      var observed := a.secondStun.mapping;
      if observed.inner.None? {
        observed := observed.(inner := first.inner);
      }
      var mapping := observed;
      if first.inner.Some? && observed.inner.Some? && observed.inner != first.inner {
        mapping := first;
      }
      err := Install(w, cfg, wiring, a, run);
      result := Result(mapping, Unstable(first, observed));
    }
  }

  // The part of StartSession that runs with the session's resources at stake.
  method Attempt(w: World, cfg: Config, wiring: Wiring, a: Answers, run: nat) returns (session: Session, err: Option<Error>)
    requires InOrder(w.log) && Held(w.log) == NOTHING && Numbered(w.log, run)
    requires Reaches(cfg, wiring, a, 4) && a.firstStun.Seen?
    modifies w
    ensures fresh(session) && InOrder(w.log) && Held(w.log) == session.Resources()
    ensures err == ErrorFrom(cfg, wiring, a, 4)
    ensures session.keepAlive == Some(run)
    ensures session.forwarder == if Takes(cfg, wiring, a, Forwarding) then Some(run) else None
    ensures session.upnp == if Takes(cfg, wiring, a, PortMapping) then Some(run) else None
    ensures w.log == Taken(old(w.log) + [Acquired(Resource(KeepAliveSocket, run))], session.forwarder.Some?, session.upnp.Some?, run)
    ensures err.None? ==> session.result == ResultOf(a)
  {
    NumberedIsFresh(w.log, run, Resource(KeepAliveSocket, run));
    NumberedIsFresh(w.log, run, Resource(Forwarding, run));
    NumberedIsFresh(w.log, run, Resource(PortMapping, run));
    w.Record(Acquired(Resource(KeepAliveSocket, run)));
    session := new Session(run);
    err := session.Build(w, cfg, wiring, a, run);
  }

  // What a started session holds and works with.
  ghost predicate Started(session: Session, w: World, cfg: Config, wiring: Wiring, a: Answers, run: nat)
    reads session, w
  {
    && Held(w.log) == session.Resources() && session.Owns(run)
    && session.keepAlive.Some? && session.forwarder.Some?
    && Takes(cfg, wiring, a, KeepAliveSocket) && Takes(cfg, wiring, a, Forwarding)
    && (session.upnp.Some? <==> Takes(cfg, wiring, a, PortMapping))
    && session.result == ResultOf(a)
  }

  // The log of a session, by what it takes.
  function LogOf(log: Log, cfg: Config, w: Wiring, a: Answers, run: nat): Log {
    SessionLog(log, Takes(cfg, w, a, KeepAliveSocket), Takes(cfg, w, a, Forwarding), Takes(cfg, w, a, PortMapping), run)
  }

  lemma NumberedNoted(log: Log, b: bool, e: Event, n: nat)
    requires Numbered(log, n) && (e.Acquired? ==> e.resource.run < n)
    ensures Numbered(Noted(log, b, e), n)
  {
    assert (log + [e])[..|log|] == log;
  }

  lemma SessionIsNumbered(log: Log, cfg: Config, w: Wiring, a: Answers, run: nat)
    requires Numbered(log, run)
    ensures Numbered(LogOf(log, cfg, w, a, run), run + 1)
  {
    var k, f, u := Takes(cfg, w, a, KeepAliveSocket), Takes(cfg, w, a, Forwarding), Takes(cfg, w, a, PortMapping);
    NumberedMore(log, run);
    var l1 := Noted(log, k, Acquired(Resource(KeepAliveSocket, run)));
    NumberedNoted(log, k, Acquired(Resource(KeepAliveSocket, run)), run + 1);
    var l2 := Noted(l1, f, Acquired(Resource(Forwarding, run)));
    NumberedNoted(l1, f, Acquired(Resource(Forwarding, run)), run + 1);
    var l3 := Noted(l2, u, Acquired(Resource(PortMapping, run)));
    NumberedNoted(l2, u, Acquired(Resource(PortMapping, run)), run + 1);
    var l4 := Noted(l3, f, Released(Resource(Forwarding, run)));
    NumberedNoted(l3, f, Released(Resource(Forwarding, run)), run + 1);
    var l5 := l4 + [Released(Resource(KeepAliveSocket, run))];
    NumberedNoted(l4, true, Released(Resource(KeepAliveSocket, run)), run + 1);
    NumberedNoted(l5, u, Released(Resource(PortMapping, run)), run + 1);
  }

  // A session that could not be completed has given back all it took.
  method Complete(w: World, cfg: Config, wiring: Wiring, a: Answers, run: nat) returns (session: Session?, err: Option<Error>)
    requires InOrder(w.log) && Held(w.log) == NOTHING && Numbered(w.log, run)
    requires Reaches(cfg, wiring, a, 4) && a.firstStun.Seen?
    modifies w
    ensures InOrder(w.log)
    ensures err == ErrorFrom(cfg, wiring, a, 4) && (session == null <==> err.Some?)
    ensures session == null ==> Held(w.log) == NOTHING && w.log == LogOf(old(w.log), cfg, wiring, a, run)
    ensures session != null ==> fresh(session) && Started(session, w, cfg, wiring, a, run)
    ensures session != null ==>
              w.log == Taken(old(w.log) + [Acquired(Resource(KeepAliveSocket, run))], true, session.upnp.Some?, run)
  {
    var s;
    s, err := Attempt(w, cfg, wiring, a, run);
    if err.Some? {
      var _ := s.Close(w, a, run);
      session := null;
    } else {
      session := s;
      ReachesTheError(cfg, wiring, a, 4);
      ReachesLess(cfg, wiring, a, 7, STEPS);
    }
  }

  method StartSession(w: World, cfg: Config, wiring: Wiring, a: Answers, run: nat) returns (session: Session?, err: Option<Error>)
    requires InOrder(w.log) && Held(w.log) == NOTHING && Numbered(w.log, run)
    modifies w
    ensures InOrder(w.log)
    ensures err == StartError(cfg, wiring, a) && (session == null <==> err.Some?)
    ensures session == null ==> Held(w.log) == NOTHING && w.log == LogOf(old(w.log), cfg, wiring, a, run)
    ensures session != null ==> fresh(session) && Started(session, w, cfg, wiring, a, run)
    ensures session != null ==>
              w.log == Taken(old(w.log) + [Acquired(Resource(KeepAliveSocket, run))], true, session.upnp.Some?, run)
  {
    session := null;
    EarlySteps(cfg, wiring, a);
    if !wiring.stun {
      StopsAt(cfg, wiring, a, 0);
      return null, Some({OtherError(MISSING)});
    }
    if a.firstStun.Unseen? {
      StopsAt(cfg, wiring, a, 1);
      ErrorSkips(cfg, wiring, a, 0, 1);
      return null, Some(a.firstStun.error);
    }
    if !wiring.keepAlive && wiring.newKeepAlive && a.newKeepAlive.Some? {
      StopsAt(cfg, wiring, a, 2);
      ErrorSkips(cfg, wiring, a, 0, 2);
      return null, a.newKeepAlive;
    }
    if !wiring.keepAlive && !wiring.newKeepAlive {
      StopsAt(cfg, wiring, a, 3);
      ErrorSkips(cfg, wiring, a, 0, 3);
      return null, Some({OtherError(MISSING)});
    }
    ErrorSkips(cfg, wiring, a, 0, 4);
    session, err := Complete(w, cfg, wiring, a, run);
  }

  // ---- RunLoop: a session, its keep-alive loop, and the deferred close ----

  // The causes are what the last failed keep-alive and the last failed recheck have inside;
  // whether AddressUnavailable is among it, the trace says.
  function LoopError(exit: Exit, a: Answers): Option<Error> {
    match exit
    case Running => None
    case Stopped => None
    case LocalAddressChanged(inRecheck) =>
      Some({ErrLocalAddressChanged, AddressUnavailable} + if inRecheck then a.recheckCause else a.keepAliveCause)
    case KeepAliveFailed => Some({ErrKeepAliveFailed} + (a.keepAliveCause - {AddressUnavailable}))
    case StunFailed => Some(a.recheckCause - {AddressUnavailable})
    case MappingChanged => Some({ErrMappingChanged})
  }

  // How a whole run ends. The end of the trace stands for the end of the context.
  function RunError(cfg: Config, wiring: Wiring, l: Limits, a: Answers): Option<Error>
    requires Positive(l)
  {
    if StartError(cfg, wiring, a).Some? then StartError(cfg, wiring, a)
    else LoopError(FirstExit(a.trace, l, ResultOf(a).mapping.outer), a)
  }

  method RunLoop(w: World, cfg: Config, wiring: Wiring, recheckEvery: int, keepAliveLimit: int, stunLimit: int, a: Answers, run: nat)
    returns (err: Option<Error>)
    requires InOrder(w.log) && Held(w.log) == NOTHING && Numbered(w.log, run)
    modifies w
    ensures InOrder(w.log) && Held(w.log) == NOTHING
    ensures w.log == LogOf(old(w.log), cfg, wiring, a, run) && Numbered(w.log, run + 1)
    ensures err == RunError(cfg, wiring, LimitsOf(recheckEvery, keepAliveLimit, stunLimit), a)
  {
    SessionIsNumbered(w.log, cfg, wiring, a, run);
    var session;
    session, err := StartSession(w, cfg, wiring, a, run);
    if session == null {
      return;
    }
    var exit, used, reports, rechecks, renewals :=
      KeepSessionAlive(a.trace, session.result.mapping.outer, recheckEvery, keepAliveLimit, stunLimit);
    ReachedIsFirst(a.trace, used, exit, LimitsOf(recheckEvery, keepAliveLimit, stunLimit), session.result.mapping.outer);
    var _ := session.Close(w, a, run);
    err := LoopError(exit, a);
  }

  // ---- RunWithRetry ----

  // Seconds, clamped to at least one second and at most one hour.
  function RetryDelay(cfg: Config): (seconds: nat)
    ensures 1 <= seconds <= 3600
    ensures 0 < cfg.keepAliveInterval <= 3600 ==> seconds == cfg.keepAliveInterval
    ensures cfg.keepAliveInterval <= 0 ==> seconds == 15
    ensures cfg.keepAliveInterval > 3600 ==> seconds == 3600
  {
    if cfg.keepAliveInterval <= 0 then 15 else if cfg.keepAliveInterval > 3600 then 3600 else cfg.keepAliveInterval
  }

  predicate Retryable(e: Error, custom: Option<Error -> bool>) {
    if custom.Some? then custom.value(e)
    else ErrMappingChanged in e || ErrKeepAliveFailed in e || ErrTargetClosed in e || ErrLocalAddressChanged in e
         || ErrNoServerAvailable in e || AddressUnavailable in e
  }

  // The run after which the engine sleeps.
  predicate Sleeps(cfg: Config, err: Option<Error>, a: Answers, custom: Option<Error -> bool>) {
    && err.Some? && !a.contextDone
    && !(cfg.exitWhenChanged && (ErrMappingChanged in err.value || ErrLocalAddressChanged in err.value))
    && Retryable(err.value, custom)
  }

  // What one run contributes: what it takes, whether the engine sleeps after it, whether
  // another run follows, and the answer if none does.
  datatype Turn = Turn(keepAlive: bool, forwarder: bool, upnp: bool, run: nat, sleeps: bool, again: bool, answer: Option<Error>)

  function TurnOf(cfg: Config, wiring: Wiring, l: Limits, custom: Option<Error -> bool>, a: Answers, run: nat): Turn
    requires Positive(l)
  {
    var err := RunError(cfg, wiring, l, a);
    var sleeps := Sleeps(cfg, err, a, custom);
    Turn(Takes(cfg, wiring, a, KeepAliveSocket), Takes(cfg, wiring, a, Forwarding), Takes(cfg, wiring, a, PortMapping), run,
         sleeps, sleeps && !a.sleepInterrupted, if a.contextDone || sleeps then None else err)
  }

  function Turns(cfg: Config, wiring: Wiring, l: Limits, custom: Option<Error -> bool>, script: seq<Answers>): (turns: seq<Turn>)
    requires Positive(l)
    ensures |turns| == |script|
  {
    if script == [] then []
    else
      var n := |script| - 1;
      Turns(cfg, wiring, l, custom, script[..n]) + [TurnOf(cfg, wiring, l, custom, script[n], n)]
  }

  function TurnLog(log: Log, t: Turn, delay: nat): Log {
    Noted(SessionLog(log, t.keepAlive, t.forwarder, t.upnp, t.run), t.sleeps, Slept(delay))
  }

  // The ledger of these runs, one after the other.
  function Ledger(turns: seq<Turn>, delay: nat): Log {
    if turns == [] then [] else TurnLog(Ledger(turns[..|turns| - 1], delay), turns[|turns| - 1], delay)
  }

  predicate KeepsTrying(turns: seq<Turn>) {
    forall t :: t in turns ==> t.again
  }

  // Whether the loop is over after these runs, and with which answer.
  predicate Ends(turns: seq<Turn>, answer: Option<Error>) {
    turns != [] && KeepsTrying(turns[..|turns| - 1]) && var last := turns[|turns| - 1]; !last.again && answer == last.answer
  }

  lemma LedgerStep(turns: seq<Turn>, t: Turn, delay: nat)
    ensures Ledger(turns + [t], delay) == TurnLog(Ledger(turns, delay), t, delay)
    ensures KeepsTrying(turns) ==> if t.again then KeepsTrying(turns + [t]) else Ends(turns + [t], t.answer)
  {
    assert (turns + [t])[..|turns|] == turns;
  }

  lemma TurnsStep(cfg: Config, wiring: Wiring, l: Limits, custom: Option<Error -> bool>, script: seq<Answers>, n: nat)
    requires Positive(l) && n < |script|
    ensures Turns(cfg, wiring, l, custom, script[..n + 1])
         == Turns(cfg, wiring, l, custom, script[..n]) + [TurnOf(cfg, wiring, l, custom, script[n], n)]
  {
    assert script[..n + 1][..n] == script[..n];
  }

  // Every condition the program knows is worth another try; nothing else is.
  lemma RetriedSentinels(e: Error)
    ensures Retryable(e, None) <==> exists s :: s in e && !s.OtherError?
  {
    if s :| s in e && !s.OtherError? {
      match s
      case ErrMappingChanged =>
      case ErrKeepAliveFailed =>
      case ErrTargetClosed =>
      case ErrLocalAddressChanged =>
      case ErrNoServerAvailable =>
      case AddressUnavailable =>
    }
  }

  // The mapping or the local address has changed.
  predicate Changed(e: Error) {
    ErrMappingChanged in e || ErrLocalAddressChanged in e
  }

  // Whether a run of the session counts as worth repeating, told from what happened in it.
  predicate WorthRepeating(cfg: Config, wiring: Wiring, l: Limits, a: Answers)
    requires Positive(l)
  {
    if StartError(cfg, wiring, a).Some? then
      var e := StartError(cfg, wiring, a).value;
      Retryable(e, None) && !(cfg.exitWhenChanged && Changed(e))
    else match FirstExit(a.trace, l, ResultOf(a).mapping.outer)
      case Running => false
      case Stopped => false
      case MappingChanged => !cfg.exitWhenChanged
      case LocalAddressChanged(_) => !cfg.exitWhenChanged
      case KeepAliveFailed => !(cfg.exitWhenChanged && Changed(a.keepAliveCause))
      case StunFailed => Retryable(a.recheckCause - {AddressUnavailable}, None) && !(cfg.exitWhenChanged && Changed(a.recheckCause))
  }

  // What is inside the error a loop leaves with.
  lemma InsideTheError(a: Answers)
    ensures LoopError(Running, a).None? && LoopError(Stopped, a).None?
    ensures LoopError(MappingChanged, a) == Some({ErrMappingChanged})
    ensures forall s :: s in LoopError(LocalAddressChanged(false), a).value
                  <==> s == ErrLocalAddressChanged || s == AddressUnavailable || s in a.keepAliveCause
    ensures forall s :: s in LoopError(LocalAddressChanged(true), a).value
                  <==> s == ErrLocalAddressChanged || s == AddressUnavailable || s in a.recheckCause
    ensures forall s :: s in LoopError(KeepAliveFailed, a).value
                  <==> s == ErrKeepAliveFailed || (s in a.keepAliveCause && s != AddressUnavailable)
    ensures forall s :: s in LoopError(StunFailed, a).value <==> s in a.recheckCause && s != AddressUnavailable
  {
  }

  // After one run: the engine sleeps if and only if the run was worth repeating and the
  // context has not ended, goes on unless the sleep is interrupted, and otherwise answers
  // with the run's error, or with none if the context has ended or the sleep was cut short.
  lemma TurnIs(cfg: Config, wiring: Wiring, l: Limits, a: Answers, run: nat)
    requires Positive(l)
    ensures var t := TurnOf(cfg, wiring, l, None, a, run);
            && (t.sleeps <==> WorthRepeating(cfg, wiring, l, a) && !a.contextDone)
            && (t.again <==> t.sleeps && !a.sleepInterrupted)
            && t.answer == if a.contextDone || WorthRepeating(cfg, wiring, l, a) then None else RunError(cfg, wiring, l, a)
  {
    InsideTheError(a);
  }

  // Without a Retryable of the caller's own, the engine is still trying after these runs
  // if and only if each of them was worth repeating and nobody ended the context.
  lemma {:induction false} KeepsTryingExactly(cfg: Config, wiring: Wiring, l: Limits, script: seq<Answers>)
    requires Positive(l)
    ensures KeepsTrying(Turns(cfg, wiring, l, None, script))
            <==> forall a :: a in script ==> WorthRepeating(cfg, wiring, l, a) && !a.contextDone && !a.sleepInterrupted
  {
    if script != [] {
      var n := |script| - 1;
      KeepsTryingExactly(cfg, wiring, l, script[..n]);
      TurnIs(cfg, wiring, l, script[n], n);
      assert script == script[..n] + [script[n]];
    }
  }

  // If the two queries at the start do not disagree about the inner address, and every
  // recheck sees the outer address of the second, the loop does not leave for a change.
  lemma StableMappingIsKept(cfg: Config, wiring: Wiring, l: Limits, a: Answers)
    requires Positive(l) && StartError(cfg, wiring, a).None? && a.firstStun.Seen? && a.secondStun.Seen?
    requires var first, second := a.firstStun.mapping, a.secondStun.mapping;
             first.inner.None? || second.inner.None? || first.inner == second.inner
    requires forall i :: 0 <= i < |a.trace| && a.trace[i].Beat? && a.trace[i].recheck.Mapped? ==>
               a.trace[i].recheck.outer == a.secondStun.mapping.outer
    ensures ResultOf(a).mapping.outer == a.secondStun.mapping.outer
    ensures FirstExit(a.trace, l, ResultOf(a).mapping.outer) != MappingChanged
    ensures a.secondStun.mapping == a.firstStun.mapping ==> !ResultOf(a).unstable
  {
    ChosenMappingIsTheOneKeptAlive(a.firstStun.mapping, a.secondStun.mapping);
    if FirstExit(a.trace, l, ResultOf(a).mapping.outer) == MappingChanged {
      ChangeWasSeen(a.trace, l, ResultOf(a).mapping.outer);
    }
  }

  // What is done about the error of a run: sleep and go on, or return this answer.
  method Decide(cfg: Config, err: Option<Error>, a: Answers, custom: Option<Error -> bool>) returns (sleeps: bool, answer: Option<Error>)
    ensures sleeps <==> Sleeps(cfg, err, a, custom)
    ensures answer == if a.contextDone || sleeps then None else err
  {
    if err.None? || a.contextDone {
      return false, None;
    }
    if cfg.exitWhenChanged && (ErrMappingChanged in err.value || ErrLocalAddressChanged in err.value) {
      return false, err;
    }
    if !Retryable(err.value, custom) {
      return false, err;
    }
    return true, None;
  }

  // One turn of the retry loop.
  method Turning(w: World, cfg: Config, wiring: Wiring, recheckEvery: int, keepAliveLimit: int, stunLimit: int,
                 a: Answers, custom: Option<Error -> bool>, run: nat)
    returns (again: bool, answer: Option<Error>)
    requires InOrder(w.log) && Held(w.log) == NOTHING && Numbered(w.log, run)
    modifies w
    ensures InOrder(w.log) && Held(w.log) == NOTHING && Numbered(w.log, run + 1)
    ensures var t := TurnOf(cfg, wiring, LimitsOf(recheckEvery, keepAliveLimit, stunLimit), custom, a, run);
            && w.log == TurnLog(old(w.log), t, RetryDelay(cfg))
            && again == t.again && (!again ==> answer == t.answer)
  {
    var err := RunLoop(w, cfg, wiring, recheckEvery, keepAliveLimit, stunLimit, a, run);
    var sleeps;
    sleeps, answer := Decide(cfg, err, a, custom);
    NumberedNoted(w.log, sleeps, Slept(RetryDelay(cfg)), run + 1);
    if sleeps {
      w.Record(Slept(RetryDelay(cfg)));
    }
    again := sleeps && !a.sleepInterrupted;
  }

  // The log is that of the first n runs of the script, and in order.
  ghost predicate Logged(log: Log, cfg: Config, wiring: Wiring, l: Limits, custom: Option<Error -> bool>, script: seq<Answers>, n: nat)
    requires Positive(l) && n <= |script|
  {
    && InOrder(log) && Held(log) == NOTHING && Numbered(log, n)
    && log == Ledger(Turns(cfg, wiring, l, custom, script[..n]), RetryDelay(cfg))
  }

  // The same, after these turns.
  method TakeTurn(w: World, cfg: Config, wiring: Wiring, recheckEvery: int, keepAliveLimit: int, stunLimit: int,
                  script: seq<Answers>, custom: Option<Error -> bool>, run: nat)
    returns (again: bool, answer: Option<Error>)
    requires run < |script|
    requires Logged(w.log, cfg, wiring, LimitsOf(recheckEvery, keepAliveLimit, stunLimit), custom, script, run)
    requires KeepsTrying(Turns(cfg, wiring, LimitsOf(recheckEvery, keepAliveLimit, stunLimit), custom, script[..run]))
    modifies w
    ensures Logged(w.log, cfg, wiring, LimitsOf(recheckEvery, keepAliveLimit, stunLimit), custom, script, run + 1)
    ensures var turns := Turns(cfg, wiring, LimitsOf(recheckEvery, keepAliveLimit, stunLimit), custom, script[..run + 1]);
            if again then KeepsTrying(turns) else Ends(turns, answer)
  {
    ghost var l := LimitsOf(recheckEvery, keepAliveLimit, stunLimit);
    ghost var t := TurnOf(cfg, wiring, l, custom, script[run], run);
    LedgerStep(Turns(cfg, wiring, l, custom, script[..run]), t, RetryDelay(cfg));
    TurnsStep(cfg, wiring, l, custom, script, run);
    again, answer := Turning(w, cfg, wiring, recheckEvery, keepAliveLimit, stunLimit, script[run], custom, run);
  }

  // The loop is watched for |script| runs; returned says whether it was over by then.
  method RunWithRetry(w: World, cfg: Config, wiring: Wiring, recheckEvery: int, keepAliveLimit: int, stunLimit: int,
                      script: seq<Answers>, custom: Option<Error -> bool>)
    returns (returned: bool, err: Option<Error>, runs: nat)
    requires w.log == []
    modifies w
    ensures InOrder(w.log) && Held(w.log) == NOTHING
    ensures runs <= |script| && (!returned ==> runs == |script|)
    ensures var turns := Turns(cfg, wiring, LimitsOf(recheckEvery, keepAliveLimit, stunLimit), custom, script[..runs]);
            && w.log == Noted(Ledger(turns, RetryDelay(cfg)), returned, Returned)
            && if returned then Ends(turns, err) else KeepsTrying(turns)
  {
    ghost var l := LimitsOf(recheckEvery, keepAliveLimit, stunLimit);
    returned, err, runs := false, None, 0;
    while runs < |script|
      invariant runs <= |script| && !returned
      invariant Logged(w.log, cfg, wiring, l, custom, script, runs)
      invariant KeepsTrying(Turns(cfg, wiring, l, custom, script[..runs]))
    {
      var again;
      again, err := TakeTurn(w, cfg, wiring, recheckEvery, keepAliveLimit, stunLimit, script, custom, runs);
      runs := runs + 1;
      if !again {
        w.Record(Returned);
        returned := true;
        return;
      }
    }
  }
}
