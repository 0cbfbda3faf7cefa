// The UDP relay's client set (forward/socket.go): one outbound socket per source
// address, shared by the receive loop, one reader per socket, and the idle sweeper.

// What each locked section does to the map.
module UdpClientMap {
  import opened Text

  type Key = string
  type Socket = nat

  datatype Client = Client(conn: Socket, seen: int)

  type Clients = map<Key, Client>

  function Touch(m: Clients, key: Key, now: int): Clients {
    if key in m then m[key := m[key].(seen := now)] else m
  }

  function Add(m: Clients, max: nat, key: Key, conn: Socket, now: int): Clients {
    if |m| >= max then m else m[key := Client(conn, now)]
  }

  predicate Registers(m: Clients, key: Key, conn: Socket) {
    key in m && m[key].conn == conn
  }

  function Forget(m: Clients, key: Key, conn: Socket): Clients {
    if Registers(m, key, conn) then m - {key} else m
  }

  function Expired(m: Clients, now: int, idle: int): set<Key> {
    set k | k in m && now - m[k].seen >= idle
  }

  function Sockets(m: Clients, keys: set<Key>): set<Socket> {
    set k | k in keys && k in m :: m[k].conn
  }

  // The set as the program holds it. Each method is one locked section; the sockets it
  // returns are closed by the caller after the lock is released.
  class UdpClientSet {
    var clients: Clients
    const max: nat
    const idle: int

    constructor (max: nat, idle: int)
      ensures clients == map[] && this.max == max && this.idle == idle
    {
      clients := map[];
      this.max, this.idle := max, idle;
    }

    method TouchClient(key: Key, now: int) returns (found: Option<Socket>)
      modifies this
      ensures clients == Touch(old(clients), key, now)
      ensures found == if key in old(clients) then Some(old(clients)[key].conn) else None
    {
      if key in clients {
        clients := clients[key := clients[key].(seen := now)];
        return Some(clients[key].conn);
      }
      return None;
    }

    method AddClient(key: Key, conn: Socket, now: int) returns (added: bool)
      requires |clients| <= max
      modifies this
      ensures clients == Add(old(clients), max, key, conn, now) && |clients| <= max
      ensures added <==> |old(clients)| < max
    {
      if |clients| >= max {
        return false;
      }
      var grown := clients[key := Client(conn, now)];
      assert grown.Keys == clients.Keys + {key};
      clients := grown;
      return true;
    }

    method ForgetClient(key: Key, conn: Socket) returns (close: bool)
      modifies this
      ensures clients == Forget(old(clients), key, conn)
      ensures close <==> Registers(old(clients), key, conn)
    {
      if key !in clients || clients[key].conn != conn {
        return false;
      }
      clients := clients - {key};
      return true;
    }

    method SweepIdle(now: int) returns (expired: seq<Socket>)
      modifies this
      ensures clients == old(clients) - Expired(old(clients), now, idle)
      ensures forall c :: c in expired <==> c in Sockets(old(clients), Expired(old(clients), now, idle))
      ensures |expired| == |Expired(old(clients), now, idle)|
    {
      expired := [];
      var todo := clients.Keys;
      ghost var gone: set<Key> := {};
      while todo != {}
        invariant todo <= old(clients).Keys && gone !! todo
        invariant gone == set k | k in old(clients).Keys - todo && now - old(clients)[k].seen >= idle
        invariant clients == old(clients) - gone
        invariant forall c :: c in expired <==> c in Sockets(old(clients), gone)
        invariant |expired| == |gone|
        decreases todo
      {
        var key :| key in todo;
        todo := todo - {key};
        if now - clients[key].seen >= idle {
          expired := expired + [clients[key].conn];
          clients := clients - {key};
          assert Sockets(old(clients), gone + {key}) == Sockets(old(clients), gone) + {old(clients)[key].conn};
          gone := gone + {key};
        }
      }
      assert gone == Expired(old(clients), now, idle);
    }

    method CloseAll() returns (conns: seq<Socket>)
      modifies this
      ensures clients == map[]
      ensures forall c :: c in conns <==> c in Sockets(old(clients), old(clients).Keys)
      ensures |conns| == |old(clients)|
    {
      conns := [];
      ghost var gone: set<Key> := {};
      while clients.Keys != {}
        invariant gone <= old(clients).Keys && clients == old(clients) - gone
        invariant forall c :: c in conns <==> c in Sockets(old(clients), gone)
        invariant |conns| == |gone|
        decreases clients.Keys
      {
        var key :| key in clients.Keys;
        conns := conns + [clients[key].conn];
        clients := clients - {key};
        assert Sockets(old(clients), gone + {key}) == Sockets(old(clients), gone) + {old(clients)[key].conn};
        gone := gone + {key};
      }
      assert gone == old(clients).Keys;
      assert |gone| == |old(clients)|;
    }
  }
}

// The receive loop, the readers and the sweeper as one state machine. A step is one
// locked section, one close, or one network event.
module UdpRelay {
  import opened UdpClientMap

  datatype LoopPc =
    | Reading
    | Dialing(key: Key)
    | Created(key: Key, conn: Socket)
    | Rejecting(conn: Socket)
    | Writing(key: Key, conn: Socket)
    | Forgetting(key: Key, conn: Socket)
    | ClosingOne(conn: Socket)
    | Draining
    | ClosingAll(todo: set<Socket>)
    | Done

  datatype ReaderPc = Active | Failing | ClosingOwn | Gone

  // Sockets are numbered as they are created; keys, readers and closes are indexed by
  // socket, and closes counts the calls of Close.
  datatype State = State(
    clients: Clients,
    max: nat,
    idle: int,
    loop: LoopPc,
    sweeping: set<Socket>,
    keys: seq<Key>,
    readers: seq<ReaderPc>,
    closes: seq<nat>)

  datatype Action =
    | Receive(key: Key, now: int)
    | Dial(ok: bool)
    | Register(now: int)
    | Reject
    | Write(ok: bool)
    | LoopForget
    | LoopClose
    | Quit
    | CloseAll
    | CloseNext(conn: Socket)
    | Finish
    | ReaderFails(conn: Socket)
    | ReaderForgets(conn: Socket)
    | ReaderCloses(conn: Socket)
    | Sweep(now: int)
    | SweeperCloses(conn: Socket)

  predicate Enabled(s: State, a: Action) {
    match a
    case Receive(key, now) => s.loop.Reading?
    case Dial(ok) => s.loop.Dialing?
    case Register(now) => s.loop.Created?
    case Reject => s.loop.Rejecting? && s.loop.conn < |s.closes|
    case Write(ok) => s.loop.Writing?
    case LoopForget => s.loop.Forgetting?
    case LoopClose => s.loop.ClosingOne? && s.loop.conn < |s.closes|
    case Quit => s.loop.Reading?
    case CloseAll => s.loop.Draining?
    case CloseNext(c) => s.loop.ClosingAll? && c in s.loop.todo && c < |s.closes|
    case Finish => s.loop == ClosingAll({})
    case ReaderFails(c) => c < |s.readers| && s.readers[c] == Active
    case ReaderForgets(c) => c < |s.readers| && c < |s.keys| && s.readers[c] == Failing
    case ReaderCloses(c) => c < |s.readers| && c < |s.closes| && s.readers[c] == ClosingOwn
    case Sweep(now) => s.sweeping == {}
    case SweeperCloses(c) => c in s.sweeping && c < |s.closes|
  }

  function Closed(s: State, c: Socket): seq<nat>
    requires c < |s.closes|
  {
    s.closes[c := s.closes[c] + 1]
  }

  function Next(s: State, a: Action): State
    requires Enabled(s, a)
  {
    match a
    case Receive(key, now) =>
      s.(clients := Touch(s.clients, key, now),
         loop := if key in s.clients then Writing(key, s.clients[key].conn) else Dialing(key))
    case Dial(ok) =>
      if !ok then s.(loop := Reading)
      else s.(loop := Created(s.loop.key, |s.keys|), keys := s.keys + [s.loop.key],
              readers := s.readers + [Active], closes := s.closes + [0])
    case Register(now) =>
      s.(clients := Add(s.clients, s.max, s.loop.key, s.loop.conn, now),
         loop := if |s.clients| >= s.max then Rejecting(s.loop.conn) else Writing(s.loop.key, s.loop.conn))
    case Reject => s.(closes := Closed(s, s.loop.conn), loop := Reading)
    case Write(ok) => s.(loop := if ok then Reading else Forgetting(s.loop.key, s.loop.conn))
    case LoopForget =>
      s.(clients := Forget(s.clients, s.loop.key, s.loop.conn),
         loop := if Registers(s.clients, s.loop.key, s.loop.conn) then ClosingOne(s.loop.conn) else Reading)
    case LoopClose => s.(closes := Closed(s, s.loop.conn), loop := Reading)
    case Quit => s.(loop := Draining)
    case CloseAll => s.(clients := map[], loop := ClosingAll(Sockets(s.clients, s.clients.Keys)))
    case CloseNext(c) => s.(closes := Closed(s, c), loop := ClosingAll(s.loop.todo - {c}))
    case Finish => s.(loop := Done)
    case ReaderFails(c) => s.(readers := s.readers[c := Failing])
    case ReaderForgets(c) =>
      s.(clients := Forget(s.clients, s.keys[c], c),
         readers := s.readers[c := if Registers(s.clients, s.keys[c], c) then ClosingOwn else Gone])
    case ReaderCloses(c) => s.(closes := Closed(s, c), readers := s.readers[c := Gone])
    case Sweep(now) =>
      var gone := Expired(s.clients, now, s.idle);
      s.(clients := s.clients - gone, sweeping := Sockets(s.clients, gone))
    case SweeperCloses(c) => s.(closes := Closed(s, c), sweeping := s.sweeping - {c})
  }

  function Init(max: nat, idle: int): State {
    State(map[], max, idle, Reading, {}, [], [], [])
  }

  predicate Runs(s: State, actions: seq<Action>)
    decreases |actions|
  {
    actions == [] || (Enabled(s, actions[0]) && Runs(Next(s, actions[0]), actions[1..]))
  }

  function After(s: State, actions: seq<Action>): State
    requires Runs(s, actions)
    decreases |actions|
  {
    if actions == [] then s else After(Next(s, actions[0]), actions[1..])
  }

  // ---- Who is responsible for closing socket c ----

  function One(b: bool): nat {
    if b then 1 else 0
  }

  predicate LoopHolds(l: LoopPc, c: Socket) {
    match l
    case Created(key, conn) => conn == c
    case Rejecting(conn) => conn == c
    case ClosingOne(conn) => conn == c
    case ClosingAll(todo) => c in todo
    case _ => false
  }

  function Holders(s: State, c: Socket): nat
    requires c < |s.keys| && c < |s.readers|
  {
    One(Registers(s.clients, s.keys[c], c)) + One(LoopHolds(s.loop, c))
    + One(s.readers[c] == ClosingOwn) + One(c in s.sweeping)
  }

  ghost predicate Sane(s: State) {
    && |s.keys| == |s.readers| == |s.closes|
    && (forall k :: k in s.clients ==> s.clients[k].conn < |s.keys| && s.keys[s.clients[k].conn] == k)
    && (forall c: nat :: LoopHolds(s.loop, c) || c in s.sweeping ==> c < |s.keys|)
    && (s.loop.Dialing? ==> s.loop.key !in s.clients)
    && (s.loop.Created? ==> s.loop.conn < |s.keys| && s.loop.key !in s.clients && s.keys[s.loop.conn] == s.loop.key)
    && (s.loop.ClosingAll? || s.loop.Done? ==> s.clients == map[])
  }

  // Conservation: the closes a socket has had and those still owed to it add up to one.
  ghost predicate Conserved(s: State) {
    && |s.keys| == |s.readers| == |s.closes|
    && forall c :: 0 <= c < |s.keys| ==> s.closes[c] + Holders(s, c) == 1
  }

  ghost predicate Inv(s: State) {
    Sane(s) && Conserved(s) && |s.clients| <= s.max
  }

  predicate IsClose(a: Action) {
    a.Reject? || a.LoopClose? || a.CloseNext? || a.ReaderCloses? || a.SweeperCloses?
  }

  lemma CloseStep(s: State, a: Action)
    requires Inv(s) && Enabled(s, a) && IsClose(a)
    ensures Inv(Next(s, a))
  {
    var t := Next(s, a);
    forall c: nat | LoopHolds(t.loop, c) || c in t.sweeping ensures c < |t.keys| {
      assert LoopHolds(s.loop, c) || c in s.sweeping;
    }
  }

  // The steps that put a socket into the map or take one out.
  predicate ChangesMap(a: Action) {
    a.Receive? || a.Register? || a.LoopForget? || a.CloseAll? || a.ReaderForgets? || a.Sweep?
  }

  lemma MapStepKeepsSane(s: State, a: Action)
    requires Inv(s) && Enabled(s, a) && ChangesMap(a)
    ensures Sane(Next(s, a))
  {
  }

  lemma OtherStepKeepsSane(s: State, a: Action)
    requires Inv(s) && Enabled(s, a) && !ChangesMap(a) && !IsClose(a)
    ensures Sane(Next(s, a))
  {
  }

  lemma StepKeepsSane(s: State, a: Action)
    requires Inv(s) && Enabled(s, a) && !IsClose(a)
    ensures Sane(Next(s, a))
  {
    if ChangesMap(a) {
      MapStepKeepsSane(s, a);
    } else {
      OtherStepKeepsSane(s, a);
    }
  }

  lemma StepKeepsConserved(s: State, a: Action)
    requires Inv(s) && Enabled(s, a) && !IsClose(a)
    ensures Conserved(Next(s, a))
  {
    var t := Next(s, a);
    forall c | 0 <= c < |t.keys| ensures t.closes[c] + Holders(t, c) == 1 {
      assert c < |s.keys| ==> s.closes[c] + Holders(s, c) == 1 && t.keys[c] == s.keys[c];
    }
  }

  lemma RegisterKeepsBound(s: State, now: int)
    requires Inv(s) && Enabled(s, Register(now))
    ensures |Next(s, Register(now)).clients| <= s.max == Next(s, Register(now)).max
  {
    var t := Next(s, Register(now));
    Smaller(t.clients.Keys, s.clients.Keys + {s.loop.key});
  }

  lemma NoneIsAdded(s: State, a: Action)
    requires Enabled(s, a) && !a.Register?
    ensures Next(s, a).clients.Keys <= s.clients.Keys && Next(s, a).max == s.max
  {
  }

  lemma StepKeepsBound(s: State, a: Action)
    requires Inv(s) && Enabled(s, a)
    ensures |Next(s, a).clients| <= s.max == Next(s, a).max
  {
    if a.Register? {
      RegisterKeepsBound(s, a.now);
    } else {
      NoneIsAdded(s, a);
      Smaller(Next(s, a).clients.Keys, s.clients.Keys);
    }
  }

  lemma Smaller<T>(x: set<T>, y: set<T>)
    requires x <= y
    ensures |x| <= |y|
  {
    assert y == x + (y - x);
  }

  lemma StepKeepsInv(s: State, a: Action)
    requires Inv(s) && Enabled(s, a)
    ensures Inv(Next(s, a))
  {
    if IsClose(a) {
      CloseStep(s, a);
    } else {
      StepKeepsSane(s, a);
      StepKeepsConserved(s, a);
      StepKeepsBound(s, a);
    }
  }

  // ---- Main results ----

  lemma {:induction false} EveryRunConserves(s: State, actions: seq<Action>)
    requires Inv(s) && Runs(s, actions)
    ensures Inv(After(s, actions)) && After(s, actions).max == s.max
    decreases |actions|
  {
    if actions != [] {
      StepKeepsInv(s, actions[0]);
      StepKeepsBound(s, actions[0]);
      EveryRunConserves(Next(s, actions[0]), actions[1..]);
    }
  }

  // In every run: at most max sockets are registered, none of them has been closed,
  // two addresses never share one, and no socket is closed twice.
  lemma RegisteredSocketsAreOpen(max: nat, idle: int, actions: seq<Action>)
    requires Runs(Init(max, idle), actions)
    ensures var t := After(Init(max, idle), actions);
            && |t.clients| <= max
            && (forall k :: k in t.clients ==> t.clients[k].conn < |t.closes| && t.closes[t.clients[k].conn] == 0)
            && (forall k, l :: k in t.clients && l in t.clients && k != l ==> t.clients[k].conn != t.clients[l].conn)
            && (forall c :: 0 <= c < |t.closes| ==> t.closes[c] <= 1)
  {
    EveryRunConserves(Init(max, idle), actions);
    var t := After(Init(max, idle), actions);
    forall k | k in t.clients ensures t.closes[t.clients[k].conn] == 0 {
      assert Registers(t.clients, t.keys[t.clients[k].conn], t.clients[k].conn);
    }
  }

  predicate Settled(s: State) {
    s.loop.Done? && s.sweeping == {} && forall c :: 0 <= c < |s.readers| ==> s.readers[c] != ClosingOwn
  }

  // Once the loop has run closeAll and the pending closes have finished, every socket
  // ever created has been closed exactly once.
  lemma EverySocketIsClosedOnce(max: nat, idle: int, actions: seq<Action>)
    requires Runs(Init(max, idle), actions) && Settled(After(Init(max, idle), actions))
    ensures var t := After(Init(max, idle), actions);
            |t.closes| == |t.keys| && forall c :: 0 <= c < |t.closes| ==> t.closes[c] == 1
  {
    EveryRunConserves(Init(max, idle), actions);
    var t := After(Init(max, idle), actions);
    forall c | 0 <= c < |t.closes| ensures t.closes[c] == 1 {
      assert t.closes[c] + Holders(t, c) == 1;
    }
  }

  function Owed(s: State): set<Socket> {
    s.sweeping + set c | 0 <= c < |s.readers| && s.readers[c] == ClosingOwn
  }

  lemma OwedStep(s: State, c: Socket)
    requires Inv(s) && s.loop.Done? && c in Owed(s)
    ensures var a := if c in s.sweeping then SweeperCloses(c) else ReaderCloses(c);
            Enabled(s, a) && Inv(Next(s, a)) && Next(s, a).loop.Done? && Owed(Next(s, a)) == Owed(s) - {c}
  {
    assert s.closes[c] + Holders(s, c) == 1;
    CloseStep(s, if c in s.sweeping then SweeperCloses(c) else ReaderCloses(c));
  }

  // The pending closes can always be carried out: nothing waits for another step.
  lemma {:induction false} PendingClosesCanFinish(s: State) returns (rest: seq<Action>)
    requires Inv(s) && s.loop.Done?
    ensures Runs(s, rest) && Settled(After(s, rest)) && |rest| == |Owed(s)|
    decreases |Owed(s)|
  {
    rest := [];
    if Owed(s) != {} {
      var c :| c in Owed(s);
      var a := if c in s.sweeping then SweeperCloses(c) else ReaderCloses(c);
      OwedStep(s, c);
      var more := PendingClosesCanFinish(Next(s, a));
      RunsCons(s, a, more);
      rest := [a] + more;
    } else {
      assert forall c :: 0 <= c < |s.readers| && s.readers[c] == ClosingOwn ==> c in Owed(s);
    }
  }

  // Registering never replaces an entry, and forgetting a socket leaves every entry
  // that names another socket, also a newer one under the same address.
  lemma EntriesAreNotStolen(s: State, a: Action, k: Key)
    requires Inv(s) && Enabled(s, a) && k in s.clients
    requires a.Register? || a.LoopForget? || a.ReaderForgets?
    requires a.LoopForget? ==> s.clients[k].conn != s.loop.conn
    requires a.ReaderForgets? ==> s.clients[k].conn != a.conn
    ensures k in Next(s, a).clients && Next(s, a).clients[k] == s.clients[k]
  {
  }

  // ---- Which registered sockets have no reader ----

  predicate Registered(s: State, c: Socket) {
    exists k :: k in s.clients && s.clients[k].conn == c
  }

  // The reader of socket c has left the map, so that nothing reads from c any more.
  predicate HasLeft(s: State, c: Socket) {
    c < |s.readers| && (s.readers[c] == ClosingOwn || s.readers[c] == Gone)
  }

  lemma {:induction false} RunsLast(s: State, actions: seq<Action>, n: nat)
    requires n < |actions| && Runs(s, actions)
    ensures Runs(s, actions[..n]) && Enabled(After(s, actions[..n]), actions[n])
    ensures Runs(s, actions[..n + 1]) && After(s, actions[..n + 1]) == Next(After(s, actions[..n]), actions[n])
    decreases |actions|
  {
    var a, rest := actions[0], actions[1..];
    if n == 0 {
      assert actions[..1] == [a] + [];
      RunsCons(s, a, []);
    } else {
      RunsLast(Next(s, a), rest, n - 1);
      RunsCons(s, a, rest[..n - 1]);
      RunsCons(s, a, rest[..n]);
      assert actions[..n] == [a] + rest[..n - 1] && actions[..n + 1] == [a] + rest[..n];
    }
  }

  lemma LeavingStep(s: State, a: Action, c: Socket)
    requires Inv(s) && Enabled(s, a)
    ensures HasLeft(Next(s, a), c) <==> HasLeft(s, c) || a == ReaderForgets(c)
  {
  }

  lemma RegisteringStep(s: State, a: Action, c: Socket)
    requires Inv(s) && Enabled(s, a) && Registered(Next(s, a), c)
    ensures (Registered(s, c) && a != ReaderForgets(c)) || Registering(s, a, c)
  {
    var t := Next(s, a);
    var k :| k in t.clients && t.clients[k].conn == c;
  }

  predicate Registering(s: State, a: Action, c: Socket) {
    a.Register? && s.loop.Created? && s.loop.conn == c && |s.clients| < s.max
  }

  // What action n of a run does for socket c.
  lemma ActionAt(s0: State, actions: seq<Action>, n: nat, c: Socket)
    requires Inv(s0) && Runs(s0, actions) && n < |actions|
    ensures Runs(s0, actions[..n]) && Runs(s0, actions[..n + 1])
    ensures var s, t := After(s0, actions[..n]), After(s0, actions[..n + 1]);
            && (HasLeft(t, c) <==> HasLeft(s, c) || actions[n] == ReaderForgets(c))
            && (Registered(t, c) ==> (Registered(s, c) && actions[n] != ReaderForgets(c)) || Registering(s, actions[n], c))
  {
    RunsLast(s0, actions, n);
    EveryRunConserves(s0, actions[..n]);
    StepFor(After(s0, actions[..n]), actions[n], After(s0, actions[..n + 1]), c);
  }

  lemma StepFor(s: State, a: Action, t: State, c: Socket)
    requires Inv(s) && Enabled(s, a) && t == Next(s, a)
    ensures HasLeft(t, c) <==> HasLeft(s, c) || a == ReaderForgets(c)
    ensures Registered(t, c) ==> (Registered(s, c) && a != ReaderForgets(c)) || Registering(s, a, c)
  {
    LeavingStep(s, a, c);
    if Registered(t, c) {
      RegisteringStep(s, a, c);
    }
  }

  // A reader has left exactly if it has forgotten its socket.
  lemma {:induction false} LeftByForgetting(s0: State, actions: seq<Action>, n: nat, c: Socket)
    requires Inv(s0) && s0.readers == [] && Runs(s0, actions) && n <= |actions|
    ensures Runs(s0, actions[..n])
    ensures HasLeft(After(s0, actions[..n]), c) <==> ReaderForgets(c) in actions[..n]
  {
    if n > 0 {
      LeftByForgetting(s0, actions, n - 1, c);
      ActionAt(s0, actions, n - 1, c);
      TakenUpTo(actions, n, ReaderForgets(c));
    }
  }

  lemma TakenUpTo(actions: seq<Action>, n: nat, a: Action)
    requires 0 < n <= |actions|
    ensures a in actions[..n] <==> a in actions[..n - 1] || a == actions[n - 1]
  {
    assert actions[..n] == actions[..n - 1] + [actions[n - 1]];
  }

  // Action j registers socket c.
  predicate RegistersAt(s0: State, actions: seq<Action>, j: nat, c: Socket) {
    j < |actions| && Runs(s0, actions[..j]) && Registering(After(s0, actions[..j]), actions[j], c)
  }

  lemma NotAtFirst(s0: State, actions: seq<Action>, n: nat, c: Socket)
    requires s0.clients == map[] && n <= |actions| && Runs(s0, actions[..n]) && Registered(After(s0, actions[..n]), c)
    ensures n > 0
  {
    assert actions[..0] == [];
  }

  // A registered socket was registered by some action, and not forgotten by its reader
  // since.
  lemma {:induction false} RegisteredBy(s0: State, actions: seq<Action>, n: nat, c: Socket) returns (j: nat)
    requires Inv(s0) && s0.clients == map[] && Runs(s0, actions) && n <= |actions| && Runs(s0, actions[..n])
    requires Registered(After(s0, actions[..n]), c)
    ensures j < n && RegistersAt(s0, actions, j, c)
    ensures forall i :: j <= i < n ==> actions[i] != ReaderForgets(c)
  {
    NotAtFirst(s0, actions, n, c);
    ActionAt(s0, actions, n - 1, c);
    if Registering(After(s0, actions[..n - 1]), actions[n - 1], c) {
      j := n - 1;
    } else {
      j := RegisteredBy(s0, actions, n - 1, c);
    }
  }

  // In every run: a registered socket has no reader if and only if its reader forgot it
  // before it was registered.
  lemma OrphansExactly(max: nat, idle: int, actions: seq<Action>, c: Socket)
    requires Runs(Init(max, idle), actions) && Registered(After(Init(max, idle), actions), c)
    ensures var t := After(Init(max, idle), actions);
            && c < |t.readers|
            && (t.readers[c] == Gone
                <==> exists i, j :: 0 <= i < j < |actions| && actions[i] == ReaderForgets(c) && RegistersAt(Init(max, idle), actions, j, c))
  {
    var s0 := Init(max, idle);
    var t, n := After(s0, actions), |actions|;
    assert actions[..n] == actions;
    EveryRunConserves(s0, actions);
    LeftByForgetting(s0, actions, n, c);
    RegisteredIsHeld(t, c);
    var j := RegisteredBy(s0, actions, n, c);
    if ReaderForgets(c) in actions {
      var i :| 0 <= i < |actions| && actions[i] == ReaderForgets(c);
    }
  }

  lemma RegisteredIsHeld(t: State, c: Socket)
    requires Inv(t) && Registered(t, c)
    ensures c < |t.readers| && t.readers[c] != ClosingOwn
  {
    var k :| k in t.clients && t.clients[k].conn == c;
    assert t.closes[c] + Holders(t, c) == 1 && Registers(t.clients, t.keys[c], c);
  }

  // It happens: a reader may fail before its socket is registered.
  lemma ReaderCanBeGoneBeforeRegistration(max: nat, idle: int, key: Key)
    requires max > 0
    ensures var actions := [Receive(key, 0), Dial(true), ReaderFails(0), ReaderForgets(0), Register(0)];
            && Runs(Init(max, idle), actions)
            && var t := After(Init(max, idle), actions);
               key in t.clients && t.clients[key].conn == 0 && t.readers == [Gone]
  {
    var s0 := Init(max, idle);
    var s1 := Next(s0, Receive(key, 0));
    var s2 := Next(s1, Dial(true));
    var s3 := Next(s2, ReaderFails(0));
    var s4 := Next(s3, ReaderForgets(0));
    RunsCons(s4, Register(0), []);
    RunsCons(s3, ReaderForgets(0), [Register(0)]);
    RunsCons(s2, ReaderFails(0), [ReaderForgets(0), Register(0)]);
    RunsCons(s1, Dial(true), [ReaderFails(0), ReaderForgets(0), Register(0)]);
    RunsCons(s0, Receive(key, 0), [Dial(true), ReaderFails(0), ReaderForgets(0), Register(0)]);
    assert [Register(0)] + [] == [Register(0)];
    assert [ReaderForgets(0)] + [Register(0)] == [ReaderForgets(0), Register(0)];
    assert [ReaderFails(0)] + [ReaderForgets(0), Register(0)] == [ReaderFails(0), ReaderForgets(0), Register(0)];
    assert [Dial(true)] + [ReaderFails(0), ReaderForgets(0), Register(0)]
           == [Dial(true), ReaderFails(0), ReaderForgets(0), Register(0)];
    assert [Receive(key, 0)] + [Dial(true), ReaderFails(0), ReaderForgets(0), Register(0)]
           == [Receive(key, 0), Dial(true), ReaderFails(0), ReaderForgets(0), Register(0)];
  }

  lemma RunsCons(s: State, a: Action, rest: seq<Action>)
    requires Enabled(s, a) && Runs(Next(s, a), rest)
    ensures Runs(s, [a] + rest) && After(s, [a] + rest) == After(Next(s, a), rest)
  {
    assert ([a] + rest)[1..] == rest;
  }

  // ---- Which clients the sweeper takes ----

  // At time now, action a is traffic for socket c under key k: a datagram of a known
  // client, or the registration of a new one.
  predicate Traffic(s: State, a: Action, k: Key, c: Socket, now: int) {
    || (a == Receive(k, now) && Registers(s.clients, k, c))
    || (a == Register(now) && s.loop == Created(k, c) && |s.clients| < s.max)
  }

  // Somebody other than the sweeper takes out socket c, registered under k.
  predicate TakesOut(s: State, a: Action, k: Key, c: Socket) {
    a.CloseAll? || (a.LoopForget? && s.loop == Forgetting(k, c)) || a == ReaderForgets(c)
  }

  // A run without traffic for k, in which only the sweeper may take socket c out.
  predicate Idles(s: State, actions: seq<Action>, k: Key, c: Socket)
    requires Runs(s, actions)
    decreases |actions|
  {
    actions == []
    || (&& !(actions[0].Receive? && actions[0].key == k) && !TakesOut(s, actions[0], k, c)
        && Idles(Next(s, actions[0]), actions[1..], k, c))
  }

  // k has socket c, last used at time t.
  ghost predicate UsedAt(s: State, k: Key, c: Socket, t: int) {
    k in s.clients && s.clients[k] == Client(c, t)
  }

  // c is not under k, and will not be again.
  ghost predicate OutForGood(s: State, k: Key, c: Socket) {
    c < |s.keys| && !Registers(s.clients, k, c) && !(s.loop.Created? && s.loop.conn == c)
  }

  lemma TrafficIsSeen(s: State, a: Action, k: Key, c: Socket, t: int)
    requires Inv(s) && Enabled(s, a) && Traffic(s, a, k, c, t)
    ensures UsedAt(Next(s, a), k, c, t)
  {
  }

  lemma IdleSweep(s: State, now: int, k: Key, c: Socket, t: int)
    requires Inv(s) && Enabled(s, Sweep(now)) && UsedAt(s, k, c, t)
    ensures now - t < s.idle ==> UsedAt(Next(s, Sweep(now)), k, c, t)
    ensures now - t >= s.idle ==> k !in Next(s, Sweep(now)).clients && c in Next(s, Sweep(now)).sweeping
    ensures now - t >= s.idle ==> OutForGood(Next(s, Sweep(now)), k, c)
  {
    assert Registers(s.clients, s.keys[c], c) ==> s.closes[c] + Holders(s, c) == 1;
  }

  lemma IdleStep(s: State, a: Action, k: Key, c: Socket, t: int)
    requires Inv(s) && Enabled(s, a) && UsedAt(s, k, c, t)
    requires !(a.Receive? && a.key == k) && !TakesOut(s, a, k, c) && !a.Sweep?
    ensures UsedAt(Next(s, a), k, c, t)
  {
  }

  lemma OutStep(s: State, a: Action, k: Key, c: Socket)
    requires Inv(s) && Enabled(s, a) && OutForGood(s, k, c)
    ensures OutForGood(Next(s, a), k, c)
  {
  }

  lemma {:induction false} StaysOut(s: State, actions: seq<Action>, k: Key, c: Socket)
    requires Inv(s) && Runs(s, actions) && OutForGood(s, k, c)
    ensures !Registers(After(s, actions).clients, k, c)
    decreases |actions|
  {
    if actions != [] {
      OutStep(s, actions[0], k, c);
      StepKeepsInv(s, actions[0]);
      StaysOut(Next(s, actions[0]), actions[1..], k, c);
    }
  }

  // No sweep of the run comes idle or more after t.
  predicate NoLateSweep(actions: seq<Action>, t: int, idle: int) {
    forall a :: a in actions && a.Sweep? ==> a.now < t + idle
  }

  lemma {:induction false} IdleRun(s: State, actions: seq<Action>, k: Key, c: Socket, t: int)
    requires Inv(s) && Runs(s, actions) && Idles(s, actions, k, c) && UsedAt(s, k, c, t)
    ensures Registers(After(s, actions).clients, k, c) <==> NoLateSweep(actions, t, s.idle)
    ensures NoLateSweep(actions, t, s.idle) ==> UsedAt(After(s, actions), k, c, t)
    decreases |actions|
  {
    if actions != [] {
      var a, rest := actions[0], actions[1..];
      assert actions == [a] + rest;
      StepKeepsInv(s, a);
      IdleIsKept(s, a);
      if a.Sweep? {
        IdleSweep(s, a.now, k, c, t);
      } else {
        IdleStep(s, a, k, c, t);
      }
      if a.Sweep? && a.now - t >= s.idle {
        StaysOut(Next(s, a), rest, k, c);
      } else {
        IdleRun(Next(s, a), rest, k, c, t);
      }
    }
  }

  lemma IdleIsKept(s: State, a: Action)
    requires Enabled(s, a)
    ensures Next(s, a).idle == s.idle
  {
  }

  // After the last traffic for a socket, at time t, and as long as nobody else takes it
  // out: it is registered exactly while no sweep has come idle or more after t. The
  // sweep that does owes it a close.
  lemma IdleClientsGoExactly(s: State, a: Action, rest: seq<Action>, k: Key, c: Socket, t: int)
    requires Inv(s) && Enabled(s, a) && Traffic(s, a, k, c, t)
    requires Runs(Next(s, a), rest) && Idles(Next(s, a), rest, k, c)
    ensures var u := After(Next(s, a), rest);
            && (Registers(u.clients, k, c) <==> NoLateSweep(rest, t, s.idle))
            && (NoLateSweep(rest, t, s.idle) ==>
                  forall now :: Enabled(u, Sweep(now)) && now >= t + s.idle ==>
                    k !in Next(u, Sweep(now)).clients && c in Next(u, Sweep(now)).sweeping)
  {
    TrafficIsSeen(s, a, k, c, t);
    StepKeepsInv(s, a);
    IdleIsKept(s, a);
    IdleRun(Next(s, a), rest, k, c, t);
    EveryRunConserves(Next(s, a), rest);
    IdleOverARun(Next(s, a), rest);
    if NoLateSweep(rest, t, s.idle) {
      var u := After(Next(s, a), rest);
      forall now | Enabled(u, Sweep(now)) && now >= t + s.idle
        ensures k !in Next(u, Sweep(now)).clients && c in Next(u, Sweep(now)).sweeping
      {
        IdleSweep(u, now, k, c, t);
      }
    }
  }

  lemma {:induction false} IdleOverARun(s: State, actions: seq<Action>)
    requires Runs(s, actions)
    ensures After(s, actions).idle == s.idle
    decreases |actions|
  {
    if actions != [] {
      IdleIsKept(s, actions[0]);
      IdleOverARun(Next(s, actions[0]), actions[1..]);
    }
  }
}
