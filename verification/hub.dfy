/**
 * The websocket hub at the granularity of its locks: threads run Send, Broadcast, register, unregister and
 * the exit of readPump one step at a time, in any interleaving.
 */
module Hub {
  import opened Base

  const SendCapacity: nat := 64

  /**
   * A connection: the thread that serves it and whether that has registered it, who holds its lock, its
   * closed flag, and its channel's closings and backlog.
   */
  datatype Conn = Conn(server: nat, registered: bool, lock: Option<nat>, closed: bool, closings: nat, queued: nat)

  /** Where a thread is. The connection is the one it works on, rest the ones a broadcast still goes to. */
  datatype Pc =
    | Done
    | SendWait(c: nat)            // before c.mu.Lock
    | SendLocked(c: nat)          // before reading c.closed
    | SendClose(c: nat)           // after c.closed = true, before close(c.send)
    | SendUnlock(c: nat, full: bool)
    | ExitWait(c: nat)
    | ExitLocked(c: nat)
    | ExitClose(c: nat)
    | ExitUnlock(c: nat)
    | UnregisterWait(c: nat)      // before hub.mu.Lock
    | UnregisterLocked(c: nat)
    | RegisterWait(c: nat)
    | RegisterLocked(c: nat)
    | HubUnlock
    | BroadcastWait
    | BroadcastNext(rest: set<nat>)
    | BroadcastConn(c: nat, rest: set<nat>)    // before conn.mu.Lock
    | BroadcastLocked(c: nat, rest: set<nat>)
    | BroadcastClose(c: nat, rest: set<nat>)
    | BroadcastUnlock(c: nat, rest: set<nat>)

  /** panicked records a close of a closed channel or a send on one. */
  datatype State = State(hubLock: Option<nat>, conns: set<nat>, all: map<nat, Conn>, threads: map<nat, Pc>,
                         panicked: bool)

  /** The connection whose lock a thread holds. */
  function HoldsConn(pc: Pc): Option<nat> {
    match pc
    case SendLocked(c) => Some(c)
    case SendClose(c) => Some(c)
    case SendUnlock(c, _) => Some(c)
    case ExitLocked(c) => Some(c)
    case ExitClose(c) => Some(c)
    case ExitUnlock(c) => Some(c)
    case BroadcastLocked(c, _) => Some(c)
    case BroadcastClose(c, _) => Some(c)
    case BroadcastUnlock(c, _) => Some(c)
    case _ => None
  }

  predicate HoldsHub(pc: Pc) {
    pc.UnregisterLocked? || pc.RegisterLocked? || pc.HubUnlock? || pc.BroadcastNext? || pc.BroadcastConn?
    || pc.BroadcastLocked? || pc.BroadcastClose? || pc.BroadcastUnlock?
  }

  /** The thread has set closed and not yet closed the channel. */
  predicate Closing(pc: Pc) {
    pc.SendClose? || pc.ExitClose? || pc.BroadcastClose?
  }

  predicate WaitsForHub(pc: Pc) {
    pc.UnregisterWait? || pc.RegisterWait? || pc.BroadcastWait?
  }

  function WaitsForConn(pc: Pc): Option<nat> {
    match pc
    case SendWait(c) => Some(c)
    case ExitWait(c) => Some(c)
    case BroadcastConn(c, _) => Some(c)
    case _ => None
  }

  /** The connections a thread may still touch. */
  predicate Touches(pc: Pc, c: nat) {
    match pc
    case Done => false
    case HubUnlock => false
    case BroadcastWait => false
    case BroadcastNext(rest) => c in rest
    case BroadcastConn(d, rest) => c == d || c in rest
    case BroadcastLocked(d, rest) => c == d || c in rest
    case BroadcastClose(d, rest) => c == d || c in rest
    case BroadcastUnlock(d, rest) => c == d || c in rest
    case _ => c == pc.c
  }

  /** A thread that has yet to unregister the connection. */
  predicate WillUnregister(pc: Pc, c: nat) {
    (pc.SendClose? || (pc.SendUnlock? && pc.full) || pc.ExitWait? || pc.ExitLocked? || pc.ExitClose? || pc.ExitUnlock?
     || pc.UnregisterWait? || pc.UnregisterLocked?) && pc.c == c
  }

  /** A thread can take its next step: it is not done, and the lock it waits for is free. */
  predicate Enabled(s: State, t: nat) {
    t in s.threads && !s.threads[t].Done?
    && (WaitsForHub(s.threads[t]) ==> s.hubLock == None)
    && (WaitsForConn(s.threads[t]).Some? ==>
          WaitsForConn(s.threads[t]).value in s.all && s.all[WaitsForConn(s.threads[t]).value].lock == None)
  }

  /**
   * What a step does: where its thread goes, and what becomes of the hub's lock and connections and of one
   * connection.
   */
  datatype Effect = Effect(pc: Pc, hubLock: Option<nat>, conns: set<nat>, c: nat, d: Conn, panics: bool)

  function Become(s: State, t: nat, e: Effect): State {
    State(e.hubLock, e.conns, if e.c in s.all then s.all[e.c := e.d]
        else s.all, s.threads[t := e.pc], s.panicked || e.panics)
  }

  /** The connection's state; steps that are about none are given one that is idle. */
  function ConnAt(s: State, c: nat): Conn {
    if c in s.all then s.all[c] else Conn(0, false, None, false, 0, 0)
  }

  function Local(s: State, c: nat, d: Conn, pc: Pc): Effect {
    Effect(pc, s.hubLock, s.conns, c, d, false)
  }

  /** The non-blocking send; when the channel is full, the closed flag is set instead. */
  function TrySend(s: State, c: nat, d: Conn, sent: Pc, full: Pc): Effect {
    if d.queued < SendCapacity then Local(s, c, d.(queued := d.queued + 1), sent).(panics := d.closings > 0)
    else Local(s, c, d.(closed := true), full)
  }

  function CloseChannel(s: State, c: nat, d: Conn, next: Pc): Effect {
    Local(s, c, d.(closings := d.closings + 1), next).(panics := d.closings > 0)
  }

  /** The connection that a thread's next step is about. */
  function Subject(pc: Pc, pick: nat): nat {
    match pc
    case Done => pick
    case HubUnlock => pick
    case BroadcastWait => pick
    case BroadcastNext(_) => pick
    case _ => pc.c
  }

  /**
   * One step of thread t with connection c in state d; a broadcast goes on to the connection pick if that is left to
   * do.
   */
  function EffectOf(s: State, t: nat, c: nat, d: Conn): Effect
    requires t in s.threads
  {
    match s.threads[t]
    case SendWait(_) => Local(s, c, d.(lock := Some(t)), SendLocked(c))
    case SendLocked(_) => if d.closed then Local(s, c, d, SendUnlock(c, false))
        else TrySend(s, c, d, SendUnlock(c, false), SendClose(c))
    case SendClose(_) => CloseChannel(s, c, d, SendUnlock(c, true))
    case SendUnlock(_, full) => Local(s, c, d.(lock := None), if full then UnregisterWait(c) else Done)
    case ExitWait(_) => Local(s, c, d.(lock := Some(t)), ExitLocked(c))
    case ExitLocked(_) => if d.closed then Local(s, c, d, ExitUnlock(c))
        else Local(s, c, d.(closed := true), ExitClose(c))
    case ExitClose(_) => CloseChannel(s, c, d, ExitUnlock(c))
    case ExitUnlock(_) => Local(s, c, d.(lock := None), UnregisterWait(c))
    case UnregisterWait(_) => Local(s, c, d, UnregisterLocked(c)).(hubLock := Some(t))
    case UnregisterLocked(_) => Local(s, c, d, HubUnlock).(conns := s.conns - {c})
    case RegisterWait(_) => Local(s, c, d, RegisterLocked(c)).(hubLock := Some(t))
    case RegisterLocked(_) => Local(s, c, d.(registered := true), HubUnlock).(conns := s.conns + {c})
    case HubUnlock => Local(s, c, d, Done).(hubLock := None)
    case BroadcastWait => Local(s, c, d, BroadcastNext(s.conns)).(hubLock := Some(t))
    case BroadcastNext(rest) =>
      Local(s, c, d, if rest == {} then HubUnlock else if c in rest then BroadcastConn(c, rest - {c})
          else BroadcastNext(rest))
    case BroadcastConn(_, rest) => Local(s, c, d.(lock := Some(t)), BroadcastLocked(c, rest))
    case BroadcastLocked(_, rest) =>
      if d.closed then Local(s, c, d, BroadcastUnlock(c, rest))
      else if d.queued < SendCapacity then TrySend(s, c, d, BroadcastUnlock(c, rest), BroadcastClose(c, rest))
      else TrySend(s, c, d, BroadcastUnlock(c, rest), BroadcastClose(c, rest)).(conns := s.conns - {c})
    case BroadcastClose(_, rest) => CloseChannel(s, c, d, BroadcastUnlock(c, rest))
    case BroadcastUnlock(_, rest) => Local(s, c, d.(lock := None), BroadcastNext(rest))
    case Done => Local(s, c, d, Done)
  }

  function ThreadStep(s: State, t: nat, pick: nat): State
    requires Enabled(s, t)
  {
    var c := Subject(s.threads[t], pick);
    Become(s, t, EffectOf(s, t, c, ConnAt(s, c)))
  }

  /**
   * The calls that start: a new connection's register, then Send and the readPump exit on registered ones, and
   * Broadcast.
   */
  predicate Starts(s: State, pc: Pc) {
    pc.BroadcastWait? || ((pc.SendWait? || pc.ExitWait?) && pc.c in s.all && s.all[pc.c].registered)
  }

  datatype Event =
    | Connect(t: nat, c: nat)       // ServeHTTP makes a connection and registers it
    | Start(t: nat, pc: Pc)
    | Drain(c: nat)                 // writePump takes a message out of the channel
    | Run(t: nat, pick: nat)

  /** One event of the whole system; events that are not possible change nothing. */
  function Next(s: State, e: Event): State {
    match e
    case Connect(t, c) =>
      if t in s.threads || c in s.all then s
      else s.(all := s.all[c := Conn(t, false, None, false, 0, 0)], threads := s.threads[t := RegisterWait(c)])
    case Start(t, pc) => if t in s.threads || !Starts(s, pc) then s else s.(threads := s.threads[t := pc])
    case Drain(c) => if c in s.all &&
        s.all[c].queued > 0 then s.(all := s.all[c := s.all[c].(queued := s.all[c].queued - 1)]) else s
    case Run(t, pick) => if Enabled(s, t) then ThreadStep(s, t, pick) else s
  }

  function After(s: State, events: seq<Event>): State {
    if events == [] then s else Next(After(s, events[..|events| - 1]), events[|events| - 1])
  }

  const Empty: State := State(None, {}, map[], map[], false)

  /* ---- what every interleaving keeps ---- */

  /** The hub's lock is held by the thread that is inside it. */
  ghost predicate HubOk(s: State) {
    && (forall t :: t in s.threads && HoldsHub(s.threads[t]) ==> s.hubLock == Some(t))
    && (s.hubLock.Some? ==> s.hubLock.value in s.threads && HoldsHub(s.threads[s.hubLock.value]))
  }

  ghost predicate ThreadOk(s: State, t: nat)
    requires t in s.threads
  {
    && (HoldsConn(s.threads[t]).Some? ==>
          HoldsConn(s.threads[t]).value in s.all && s.all[HoldsConn(s.threads[t]).value].lock == Some(t))
    && (forall c :: Touches(s.threads[t], c) ==> c in s.all && TouchOk(s.all[c], t, s.threads[t]))
  }

  /** Until a connection is registered only the thread that serves it knows it. */
  predicate TouchOk(d: Conn, t: nat, pc: Pc) {
    if pc.RegisterWait? || pc.RegisterLocked? then !d.registered && d.server == t else d.registered
  }

  /** The closed flag says whether the channel is closed, but for the holder of the lock that is about to close it. */
  predicate FlagOk(d: Conn, closing: bool) {
    if closing then d.closed && d.closings == 0 else d.closings == if d.closed then 1 else 0
  }

  ghost predicate ConnOk(s: State, c: nat)
    requires c in s.all
  {
    var d := s.all[c];
    && (d.lock.Some? ==> d.lock.value in s.threads && HoldsConn(s.threads[d.lock.value]) == Some(c))
    && FlagOk(d, d.lock.Some? && Closing(s.threads[d.lock.value]))
    && (c in s.conns || d.closed ==> d.registered)
  }

  /** A closed connection that the hub still has is one that some thread will unregister. */
  ghost predicate CleanOk(s: State, c: nat)
    requires c in s.all
  {
    c in s.conns && s.all[c].closed ==> exists t :: t in s.threads && WillUnregister(s.threads[t], c)
  }

  ghost predicate Inv(s: State) {
    && HubOk(s) && !s.panicked && s.conns <= s.all.Keys
    && (forall c :: c in s.all ==> ConnOk(s, c) && CleanOk(s, c))
    && (forall t :: t in s.threads ==> ThreadOk(s, t))
  }

  /** What each step respects, seen from its own thread and connection: the locks it takes and gives back. */
  predicate LockStep(s: State, t: nat, pc: Pc, c: nat, d: Conn, e: Effect) {
    && e.c == c && HoldsConn(pc) in [None, Some(c)]
    && (if e.d.lock == d.lock then HoldsConn(e.pc) == HoldsConn(pc)
        else if d.lock == None then e.d.lock == Some(t) && HoldsConn(pc) == None && HoldsConn(e.pc) == Some(c)
        else d.lock == Some(t) && e.d.lock == None && HoldsConn(pc) == Some(c) && HoldsConn(e.pc) == None)
    && (if e.hubLock == s.hubLock then HoldsHub(e.pc) == HoldsHub(pc)
        else if s.hubLock == None then e.hubLock == Some(t) && !HoldsHub(pc) && HoldsHub(e.pc)
        else s.hubLock == Some(t) && e.hubLock == None && HoldsHub(pc) && !HoldsHub(e.pc))
  }

  /** And what it does to the connection and to the hub's connections. */
  predicate DataStep(s: State, t: nat, pc: Pc, c: nat, d: Conn, e: Effect) {
    && !e.panics
    && (if d.lock == Some(t) || e.d.lock == Some(t) then FlagOk(e.d, e.d.lock == Some(t) && Closing(e.pc))
        else e.d.closed == d.closed && e.d.closings == d.closings)
    && (Closing(e.pc) ==> HoldsConn(e.pc) == Some(c))
    && e.d.server == d.server && (d.registered ==> e.d.registered)
    && (e.d.registered != d.registered ==> pc.RegisterLocked? && pc.c == c && e.pc.HubUnlock?)
    && (e.conns == s.conns || e.conns == s.conns - {c} ||
        (e.conns == s.conns + {c} && e.d.registered && !d.closed && pc.RegisterLocked? && pc.c == c))
  }

  predicate StepOk(s: State, t: nat, pc: Pc, c: nat, d: Conn, e: Effect) {
    LockStep(s, t, pc, c, d, e) && DataStep(s, t, pc, c, d, e)
  }

  /** What a thread relies on before its step. */
  predicate Situated(s: State, t: nat, pc: Pc, c: nat, d: Conn) {
    && (HoldsHub(pc) ==> s.hubLock == Some(t)) && (WaitsForHub(pc) ==> s.hubLock == None)
    && (HoldsConn(pc) == Some(c) <==> d.lock == Some(t)) && (WaitsForConn(pc) == Some(c) ==> d.lock == None)
    && (d.lock == Some(t) || d.lock == None ==> FlagOk(d, Closing(pc) && HoldsConn(pc) == Some(c)))
    && (pc.RegisterLocked? ==> !d.closed)
  }

  lemma ThreadSituated(s: State, t: nat, pick: nat)
    requires Inv(s) && Enabled(s, t)
    ensures var c := Subject(s.threads[t], pick); Situated(s, t, s.threads[t], c, ConnAt(s, c))
  {
    var c := Subject(s.threads[t], pick);
    assert ThreadOk(s, t) && (c in s.all ==> ConnOk(s, c));
    assert s.threads[t].RegisterLocked? ==> Touches(s.threads[t], c);
  }

  lemma EffectLocks(s: State, t: nat, c: nat, d: Conn, pick: nat)
    requires t in s.threads && c == Subject(s.threads[t], pick) && Situated(s, t, s.threads[t], c, d)
    ensures LockStep(s, t, s.threads[t], c, d, EffectOf(s, t, c, d))
  {
  }

  lemma EffectData(s: State, t: nat, c: nat, d: Conn, pick: nat)
    requires t in s.threads && c == Subject(s.threads[t], pick) && Situated(s, t, s.threads[t], c, d)
    ensures DataStep(s, t, s.threads[t], c, d, EffectOf(s, t, c, d))
  {
  }

  /** What a step may newly touch, and what it leaves to be unregistered. */
  ghost predicate StepTidy(s: State, pc: Pc, c: nat, d: Conn, e: Effect) {
    && (forall x :: Touches(e.pc, x) ==> Touches(pc, x) || (pc.BroadcastWait? && x in s.conns))
    && (e.pc.RegisterWait? || e.pc.RegisterLocked? ==> pc.RegisterWait?)
    && (pc.RegisterWait? || pc.RegisterLocked? ==> e.pc.RegisterLocked? || e.pc.HubUnlock?)
    && (forall x :: WillUnregister(pc, x) ==> WillUnregister(e.pc, x) || (x == c && x !in e.conns))
    && (e.d.closed && !d.closed ==> WillUnregister(e.pc, c) || c !in e.conns)
  }

  lemma EffectTidy(s: State, t: nat, c: nat, d: Conn, pick: nat)
    requires t in s.threads && c == Subject(s.threads[t], pick)
    ensures StepTidy(s, s.threads[t], c, d, EffectOf(s, t, c, d))
  {
  }

  lemma HubKept(s: State, t: nat, e: Effect)
    requires Inv(s) && t in s.threads && StepOk(s, t, s.threads[t], e.c, ConnAt(s, e.c), e)
    ensures HubOk(Become(s, t, e)) && !Become(s, t, e).panicked && e.conns <= Become(s, t, e).all.Keys
  {
  }

  lemma ThreadKept(s: State, t: nat, e: Effect, u: nat)
    requires Inv(s) && t in s.threads && StepOk(s, t, s.threads[t], e.c, ConnAt(s, e.c), e)
    requires StepTidy(s, s.threads[t], e.c, ConnAt(s, e.c), e) && u in s.threads
    ensures ThreadOk(Become(s, t, e), u)
  {
    assert ThreadOk(s, u) && ThreadOk(s, t);
    if u == t {
      forall x | Touches(e.pc, x) ensures x in s.all && TouchOk(Become(s, t, e).all[x], t, e.pc) {
        if !Touches(s.threads[t], x) {
          assert ConnOk(s, x);
        }
      }
    } else {
      forall x | Touches(s.threads[u], x) ensures x in s.all && TouchOk(Become(s, t, e).all[x], u, s.threads[u]) {
        assert x == e.c && e.d.registered != s.all[x].registered ==> Touches(s.threads[t], x);
      }
    }
  }

  lemma ConnKept(s: State, t: nat, e: Effect, x: nat)
    requires Inv(s) && t in s.threads && StepOk(s, t, s.threads[t], e.c, ConnAt(s, e.c), e) && x in s.all
    requires Situated(s, t, s.threads[t], e.c, ConnAt(s, e.c)) && (e.d.closed ==> e.d.registered)
    ensures ConnOk(Become(s, t, e), x)
  {
    assert ConnOk(s, x) && ThreadOk(s, t);
  }

  lemma CleanKept(s: State, t: nat, e: Effect, x: nat)
    requires Inv(s) && t in s.threads && StepOk(s, t, s.threads[t], e.c, ConnAt(s, e.c), e) && x in s.all
    requires StepTidy(s, s.threads[t], e.c, ConnAt(s, e.c), e)
    ensures CleanOk(Become(s, t, e), x)
  {
    var n := Become(s, t, e);
    if x in n.conns && n.all[x].closed {
      if x in s.conns && s.all[x].closed {
        assert CleanOk(s, x);
        var u :| u in s.threads && WillUnregister(s.threads[u], x);
        assert WillUnregister(n.threads[u], x);
      } else {
        assert WillUnregister(n.threads[t], x);
      }
    }
  }

  lemma StepKeeps(s: State, t: nat, pick: nat)
    requires Inv(s) && Enabled(s, t)
    ensures Inv(ThreadStep(s, t, pick))
  {
    var c := Subject(s.threads[t], pick);
    var e := EffectOf(s, t, c, ConnAt(s, c));
    ThreadSituated(s, t, pick);
    EffectLocks(s, t, c, ConnAt(s, c), pick);
    EffectData(s, t, c, ConnAt(s, c), pick);
    EffectTidy(s, t, c, ConnAt(s, c), pick);
    ClosedIsRegistered(s, t, pick);
    StepInv(s, t, e);
  }

  lemma ClosedIsRegistered(s: State, t: nat, pick: nat)
    requires Inv(s) && Enabled(s, t)
    ensures var c := Subject(s.threads[t], pick); EffectOf(s, t, c, ConnAt(s, c)).d.closed ==>
      EffectOf(s, t, c, ConnAt(s, c)).d.registered
  {
    var c := Subject(s.threads[t], pick);
    assert ThreadOk(s, t) && (c in s.all ==> ConnOk(s, c));
    assert s.threads[t].SendLocked? || s.threads[t].ExitLocked? || s.threads[t].BroadcastLocked? ==>
        Touches(s.threads[t], c);
  }

  lemma StepInv(s: State, t: nat, e: Effect)
    requires Inv(s) && t in s.threads && StepOk(s, t, s.threads[t], e.c, ConnAt(s, e.c), e)
    requires StepTidy(s, s.threads[t], e.c, ConnAt(s, e.c), e) && Situated(s, t, s.threads[t], e.c, ConnAt(s, e.c))
    requires e.d.closed ==> e.d.registered
    ensures Inv(Become(s, t, e))
  {
    HubKept(s, t, e);
    forall x | x in s.all ensures ConnOk(Become(s, t, e), x) && CleanOk(Become(s, t, e), x) {
      ConnKept(s, t, e, x);
      CleanKept(s, t, e, x);
    }
    forall u | u in s.threads ensures ThreadOk(Become(s, t, e), u) {
      ThreadKept(s, t, e, u);
    }
  }

  lemma NewThreadKeeps(s: State, t: nat, pc: Pc)
    requires Inv(s) && t !in s.threads && Starts(s, pc)
    ensures Inv(s.(threads := s.threads[t := pc]))
  {
    var n := s.(threads := s.threads[t := pc]);
    forall u | u in n.threads ensures ThreadOk(n, u) {
      assert u != t ==> ThreadOk(s, u);
    }
    forall x | x in n.all ensures ConnOk(n, x) && CleanOk(n, x) {
      assert ConnOk(s, x) && CleanOk(s, x);
      if x in s.conns && s.all[x].closed {
        var u :| u in s.threads && WillUnregister(s.threads[u], x);
        assert WillUnregister(n.threads[u], x);
      }
    }
  }

  lemma ConnectKeeps(s: State, t: nat, c: nat)
    requires Inv(s) && t !in s.threads && c !in s.all
    ensures Inv(Next(s, Connect(t, c)))
  {
    var n := Next(s, Connect(t, c));
    forall u | u in n.threads ensures ThreadOk(n, u) {
      assert u != t ==> ThreadOk(s, u);
    }
    forall x | x in n.all ensures ConnOk(n, x) && CleanOk(n, x) {
      if x != c {
        assert ConnOk(s, x) && CleanOk(s, x);
        if x in s.conns && s.all[x].closed {
          var u :| u in s.threads && WillUnregister(s.threads[u], x);
          assert WillUnregister(n.threads[u], x);
        }
      }
    }
  }

  lemma DrainKeeps(s: State, c: nat)
    requires Inv(s)
    ensures Inv(Next(s, Drain(c)))
  {
    var n := Next(s, Drain(c));
    forall u | u in n.threads ensures ThreadOk(n, u) {
      assert ThreadOk(s, u);
    }
    forall x | x in n.all ensures ConnOk(n, x) && CleanOk(n, x) {
      assert ConnOk(s, x) && CleanOk(s, x);
    }
  }

  lemma NextKeeps(s: State, e: Event)
    requires Inv(s)
    ensures Inv(Next(s, e))
  {
    match e
    case Connect(t, c) =>
      if t !in s.threads && c !in s.all {
        ConnectKeeps(s, t, c);
      }
    case Start(t, pc) =>
      if t !in s.threads && Starts(s, pc) {
        NewThreadKeeps(s, t, pc);
      }
    case Drain(c) => DrainKeeps(s, c);
    case Run(t, pick) =>
      if Enabled(s, t) {
        StepKeeps(s, t, pick);
      }
  }

  lemma {:induction false} AlwaysInv(events: seq<Event>)
    ensures Inv(After(Empty, events))
  {
    if events != [] {
      AlwaysInv(events[..|events| - 1]);
      NextKeeps(After(Empty, events[..|events| - 1]), events[|events| - 1]);
    }
  }

  /**
   * In every interleaving: nothing is ever sent on or closed twice on a channel, and while no thread holds a
   * connection's lock its closed flag says exactly whether its channel has been closed.
   */
  lemma ChannelSafety(events: seq<Event>, c: nat)
    requires c in After(Empty, events).all
    ensures var s := After(Empty, events);
      !s.panicked && s.all[c].closings <= 1 && (s.all[c].lock == None ==> (s.all[c].closed <==> s.all[c].closings == 1))
  {
    AlwaysInv(events);
    assert ConnOk(After(Empty, events), c);
  }

  /** When every call has returned, the hub has no closed connection left. */
  lemma QuietHubIsClean(events: seq<Event>, c: nat)
    requires var s := After(Empty, events); c in s.conns && forall t :: t in s.threads ==> s.threads[t].Done?
    ensures c in After(Empty, events).all && !After(Empty, events).all[c].closed
  {
    AlwaysInv(events);
    assert CleanOk(After(Empty, events), c);
  }

  /** The holder of a connection's lock never waits. */
  lemma ConnHolderRuns(s: State, c: nat)
    requires Inv(s) && c in s.all && s.all[c].lock.Some?
    ensures Enabled(s, s.all[c].lock.value)
  {
    assert ConnOk(s, c);
  }

  /** The holder of the hub's lock runs, or waits for a connection whose holder runs. */
  lemma HubHolderProgress(s: State) returns (t: nat)
    requires Inv(s) && s.hubLock.Some?
    ensures Enabled(s, t)
  {
    t := s.hubLock.value;
    assert ThreadOk(s, t);
    t := ConnProgress(s, t);
  }

  lemma ConnProgress(s: State, t: nat) returns (u: nat)
    requires Inv(s) && t in s.threads && !s.threads[t].Done? && !WaitsForHub(s.threads[t])
    ensures Enabled(s, u)
  {
    u := t;
    if WaitsForConn(s.threads[t]).Some? {
      var c := WaitsForConn(s.threads[t]).value;
      assert ThreadOk(s, t) && Touches(s.threads[t], c);
      if s.all[c].lock.Some? {
        ConnHolderRuns(s, c);
        u := s.all[c].lock.value;
      }
    }
  }

  /** A thread that can step can step to another place. */
  lemma StepMoves(s: State, t: nat) returns (pick: nat)
    requires Enabled(s, t)
    ensures ThreadStep(s, t, pick).threads[t] != s.threads[t]
  {
    pick := 0;
    if s.threads[t].BroadcastNext? && s.threads[t].rest != {} {
      pick :| pick in s.threads[t].rest;
    }
  }

  /** No interleaving deadlocks: while some call has not returned, some thread can go on. */
  lemma NoDeadlock(events: seq<Event>, t: nat) returns (u: nat, pick: nat)
    requires t in After(Empty, events).threads && !After(Empty, events).threads[t].Done?
    ensures Enabled(After(Empty, events), u)
    ensures ThreadStep(After(Empty, events), u, pick).threads[u] != After(Empty, events).threads[u]
  {
    var s := After(Empty, events);
    AlwaysInv(events);
    if WaitsForHub(s.threads[t]) {
      if s.hubLock.Some? {
        u := HubHolderProgress(s);
      } else {
        u := t;
      }
    } else {
      u := ConnProgress(s, t);
    }
    pick := StepMoves(s, u);
  }
}
