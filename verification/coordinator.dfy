/** The coordinator's round counter and onion batches, over every run with persist failures, crashes and reloads. */
module Coordinator {
  import opened Base

  /**
   * What one process and its disk hold, and the logs of what clients saw: rounds announced, onions accepted by round,
   * batches sent.
   */
  datatype State = State(
    disk: nat, round: nat, onions: seq<nat>, running: bool, mixing: Option<nat>,
    announced: seq<nat>, accepted: seq<nat>, batches: seq<Batch>)

  /** The round a batch was sent for, and its onions by their place in the log of accepted ones. */
  datatype Batch = Batch(round: nat, onions: seq<nat>)

  /** A write of the state: it can fail, and a failed write can still have reached the disk. */
  datatype Write = Written | NotWritten | WrittenButFailed

  datatype Event =
    | Start                      // Run, when no loop runs
    | Begin(write: Write)        // the top of the loop: increment, persist, announce
    | Onion(round: nat)          // a client's onion message
    | Mix                        // the onions go to the mixers as the round's batch
    | GiveUp                     // the loop goes on to its next iteration after an error
    | Stop                       // the loop ends after an error or Close
    | Persist(write: Write)
    | Crash                      // the process dies; a new one loads the persisted round

  function NextRound(round: nat): nat {
    (round + 1) % TwoTo32
  }

  function Save(s: State, write: Write): State {
    if write.NotWritten? then s else s.(disk := s.round)
  }

  /** The loop's increment, persist and announcement. */
  function BeginRound(s: State, write: Write): State {
    var t := Save(s.(round := NextRound(s.round)), write);
    if write.Written? then t.(mixing := Some(t.round), announced := t.announced + [t.round])
    else t.(running := false)
  }

  function Accept(s: State, round: nat): State {
    if round == s.round then s.(onions := s.onions + [|s.accepted|], accepted := s.accepted + [round]) else s
  }

  function Step(s: State, e: Event): State {
    match e
    case Start => if s.running then s else s.(onions := [], running := true, mixing := None)
    case Begin(write) => if s.running && s.mixing == None then BeginRound(s, write) else s
    case Onion(round) => Accept(s, round)
    case Mix => if s.mixing.Some? then
        s.(batches := s.batches + [Batch(s.mixing.value, s.onions)], onions := [], mixing := None) else s
    case GiveUp => s.(mixing := None)
    case Stop => s.(mixing := None, running := false)
    case Persist(write) => Save(s, write)
    case Crash => s.(round := s.disk, onions := [], running := false, mixing := None)
  }

  function After(s: State, events: seq<Event>): State {
    if events == [] then s else Step(After(s, events[..|events| - 1]), events[|events| - 1])
  }

  /** A process that has just loaded a persisted round, or starts at 0 without one. */
  function Loaded(disk: nat): State {
    State(disk, disk, [], false, None, [], [], [])
  }

  /* ---- what every run keeps ---- */

  predicate Increasing(rounds: seq<nat>) {
    forall i, j :: 0 <= i < j < |rounds| ==> rounds[i] < rounds[j]
  }

  /** No onion is twice in the list, and each was accepted for the round at the latest. */
  predicate Fits(onions: seq<nat>, accepted: seq<nat>, round: nat) {
    && (forall i :: 0 <= i < |onions| ==> onions[i] < |accepted| && accepted[onions[i]] <= round)
    && (forall i, j :: 0 <= i < j < |onions| ==> onions[i] != onions[j])
  }

  predicate Apart(a: seq<nat>, b: seq<nat>) {
    forall i, j :: 0 <= i < |a| && 0 <= j < |b| ==> a[i] != b[j]
  }

  predicate RoundsOk(s: State) {
    && Increasing(s.announced) && (forall i :: 0 <= i < |s.announced| ==> s.announced[i] <= s.disk)
    && s.disk <= s.round && (s.mixing.Some? ==> s.mixing.value == s.round)
  }

  predicate OnionsOk(s: State) {
    && Fits(s.onions, s.accepted, s.round)
    && (forall b :: 0 <= b < |s.batches| ==>
        Fits(s.batches[b].onions, s.accepted, s.batches[b].round) && Apart(s.onions, s.batches[b].onions))
    && (forall a, b :: 0 <= a < b < |s.batches| ==> Apart(s.batches[a].onions, s.batches[b].onions))
  }

  /** The counter goes past the 32-bit limit: an iteration begins at the last round. */
  predicate Wraps(s: State, e: Event) {
    e.Begin? && s.running && s.mixing == None && s.round == TwoTo32 - 1
  }

  /** No iteration of the run goes past the limit. */
  predicate WithinLimit(disk: nat, events: seq<Event>) {
    forall n :: 0 <= n < |events| ==> !Wraps(After(Loaded(disk), events[..n]), events[n])
  }

  lemma AcceptKeepsOnions(s: State, round: nat)
    requires OnionsOk(s)
    ensures OnionsOk(Accept(s, round))
  {
    var t := Accept(s, round);
    forall b | 0 <= b < |t.batches|
      ensures Fits(t.batches[b].onions, t.accepted, t.batches[b].round) && Apart(t.onions, t.batches[b].onions)
    {
      assert Fits(s.batches[b].onions, s.accepted, s.batches[b].round) && Apart(s.onions, s.batches[b].onions);
    }
  }

  lemma StepKeepsRounds(s: State, e: Event)
    requires RoundsOk(s) && s.round < TwoTo32 && !Wraps(s, e)
    ensures RoundsOk(Step(s, e)) && Step(s, e).round < TwoTo32
  {
  }

  lemma StepKeepsOnions(s: State, e: Event)
    requires RoundsOk(s) && OnionsOk(s) && s.round < TwoTo32 && !Wraps(s, e)
    ensures OnionsOk(Step(s, e))
  {
    match e
    case Onion(round) => AcceptKeepsOnions(s, round);
    case _ =>
  }

  /** As long as the counter does not go past the 32-bit limit, every run keeps both. */
  lemma {:induction false} RunKeeps(disk: nat, events: seq<Event>)
    requires disk < TwoTo32 && WithinLimit(disk, events)
    ensures RoundsOk(After(Loaded(disk), events)) && OnionsOk(After(Loaded(disk), events))
    ensures After(Loaded(disk), events).round < TwoTo32
  {
    if events != [] {
      var before := events[..|events| - 1];
      forall n | 0 <= n < |before| ensures !Wraps(After(Loaded(disk), before[..n]), before[n]) {
        assert before[..n] == events[..n];
      }
      RunKeeps(disk, before);
      StepKeepsRounds(After(Loaded(disk), before), events[|events| - 1]);
      StepKeepsOnions(After(Loaded(disk), before), events[|events| - 1]);
    }
  }

  /** Fewer events than rounds are left stay within the limit. */
  lemma {:induction false} ShortRunsStayWithin(disk: nat, events: seq<Event>)
    requires disk + |events| < TwoTo32
    ensures WithinLimit(disk, events)
  {
    forall n | 0 <= n < |events| ensures !Wraps(After(Loaded(disk), events[..n]), events[n]) {
      RoundsCount(disk, events[..n]);
    }
  }

  lemma {:induction false} RoundsCount(disk: nat, events: seq<Event>)
    requires disk + |events| < TwoTo32
    ensures var s := After(Loaded(disk), events);
      s.round <= disk + |events| && s.disk <= disk + |events|
  {
    if events != [] {
      RoundsCount(disk, events[..|events| - 1]);
    }
  }

  /** Announced rounds strictly increase, whatever writes fail and whenever the process dies. */
  lemma AnnouncedIncrease(disk: nat, events: seq<Event>, i: nat, j: nat)
    requires disk < TwoTo32 && WithinLimit(disk, events) && i < j < |After(Loaded(disk), events).announced|
    ensures After(Loaded(disk), events).announced[i] < After(Loaded(disk), events).announced[j]
  {
    RunKeeps(disk, events);
  }

  /** Every accepted onion is in one place of one batch at most, and that batch is of its own round or a later one. */
  lemma OnionsConserved(disk: nat, events: seq<Event>, a: nat, i: nat, b: nat, j: nat)
    requires disk < TwoTo32 && WithinLimit(disk, events)
    requires var s := After(Loaded(disk), events);
      && a < |s.batches| && b < |s.batches| && i < |s.batches[a].onions| && j < |s.batches[b].onions|
      && s.batches[a].onions[i] == s.batches[b].onions[j]
    ensures a == b && i == j
    ensures var s := After(Loaded(disk), events);
      s.batches[a].onions[i] < |s.accepted| && s.accepted[s.batches[a].onions[i]] <= s.batches[a].round
  {
    RunKeeps(disk, events);
    var s := After(Loaded(disk), events);
    assert Fits(s.batches[a].onions, s.accepted, s.batches[a].round);
    assert a < b ==> Apart(s.batches[a].onions, s.batches[b].onions);
    assert b < a ==> Apart(s.batches[b].onions, s.batches[a].onions);
  }

  /**
   * Once something has been announced, the next announcement keeps the order exactly when the counter is below the
   * limit.
   */
  lemma NextIncreasesIff(s: State)
    requires RoundsOk(s) && s.round < TwoTo32 && s.running && s.mixing == None && s.announced != []
    ensures Increasing(Step(s, Begin(Written)).announced) <==> s.round < TwoTo32 - 1
  {
    var t := Step(s, Begin(Written));
    var n := |s.announced|;
    if s.round == TwoTo32 - 1 {
      assert t.announced[n - 1] == s.announced[n - 1] && t.announced[n] == 0;
    }
  }

  /**
   * Over a run that has announced something within the limit, a next announcement keeps the order exactly when it is
   * within the limit too.
   */
  lemma RunIncreasesIff(disk: nat, events: seq<Event>)
    requires disk < TwoTo32 && WithinLimit(disk, events)
    requires var s := After(Loaded(disk), events); s.running && s.mixing == None && s.announced != []
    ensures Increasing(After(Loaded(disk), events + [Begin(Written)]).announced) <==>
      WithinLimit(disk, events + [Begin(Written)])
  {
    var more, s := events + [Begin(Written)], After(Loaded(disk), events);
    assert more[..|events|] == events;
    RunKeeps(disk, events);
    NextIncreasesIff(s);
    forall n | 0 <= n < |events| ensures !Wraps(After(Loaded(disk), more[..n]), more[n]) {
      assert more[..n] == events[..n];
    }
    if WithinLimit(disk, more) {
      assert !Wraps(After(Loaded(disk), more[..|events|]), more[|events|]);
    }
  }

  /** At the limit the counter wraps, and the next announced round is 0. */
  lemma CounterWraps(s: State)
    requires s.running && s.mixing == None && s.round == TwoTo32 - 1
    ensures Step(s, Begin(Written)).announced == s.announced + [0]
  {
  }

  /* ---- the server ---- */

  /** The coordinator process; the loop's local copy of the round is mixing. */
  class Server {
    var disk: nat
    var round: nat
    var onions: seq<nat>
    var running: bool
    var mixing: Option<nat>
    ghost var announced: seq<nat>
    var accepted: seq<nat>
    ghost var batches: seq<Batch>

    ghost function St(): State
      reads this
    {
      State(disk, round, onions, running, mixing, announced, accepted, batches)
    }

    constructor (disk: nat)
      ensures St() == Loaded(disk)
    {
      this.disk, round, onions, running, mixing := disk, disk, [], false, None;
      announced, accepted, batches := [], [], [];
    }

    method PersistLocked(write: Write) returns (ok: bool)
      modifies this`disk
      ensures ok == write.Written? && St() == Save(old(St()), write)
    {
      if !write.NotWritten? {
        disk := round;
      }
      ok := write.Written?;
    }

    /** Starts the loop. */
    method Run()
      modifies this
      ensures St() == Step(old(St()), Start)
    {
      if !running {
        onions, running, mixing := [], true, None;
      }
    }

    /** The top of an iteration; the round is announced only once it is on disk. */
    method BeginIteration(write: Write) returns (newRound: Option<nat>)
      requires running && mixing == None
      modifies this
      ensures St() == Step(old(St()), Begin(write))
      ensures newRound == if write.Written? then Some(NextRound(old(round))) else None
    {
      round := (round + 1) % TwoTo32;
      var ok := PersistLocked(write);
      if !ok {
        running := false;
        return None;
      }
      mixing := Some(round);
      announced := announced + [round];
      return Some(round);
    }

    /** A client's onion is kept if it is for the current round; otherwise the client is told which round that is. */
    method IncomingOnion(o: nat) returns (wrongRound: Option<nat>)
      modifies this
      ensures St() == Step(old(St()), Onion(o))
      ensures wrongRound == if o == old(round) then None else Some(old(round))
    {
      if o == round {
        onions := onions + [|accepted|];
        accepted := accepted + [o];
        return None;
      }
      return Some(round);
    }

    /** The end of an iteration: what came in becomes the batch of the round. */
    method EndIteration() returns (batch: Batch)
      requires mixing.Some?
      modifies this
      ensures St() == Step(old(St()), Mix) && batches == old(batches) + [batch]
    {
      batch := Batch(mixing.value, onions);
      batches := batches + [batch];
      onions, mixing := [], None;
    }

    /** A new process loads the persisted round. */
    method CrashAndReload()
      modifies this
      ensures St() == Step(old(St()), Crash)
    {
      round, onions, running, mixing := disk, [], false, None;
    }
  }
}
