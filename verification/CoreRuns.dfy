/** Whole runs of the embedded controller core of src/runtime.cpp since begin. */
module CoreRuns {
  import C = Control
  import E = Ekf
  import G = Guidance
  import K = Core
  import R = Runtime
  import opened Modes
  import opened Reals
  import opened Words

  /** What reaches the core, with its time on the unbounded clock. A stop is a request, or the queue overflow
      that reaches the threshold. */
  datatype Event =
    | SelfTestStarts
    | SelfTestEnds(passed: bool)
    | Handshake(at: int)
    | Stop
    | NewRoute(points: G.Route)
    | Advance(at: int, input: K.Input)

  /** The same event for the state machine, unless it is a step or a route. */
  function EventFor(e: Event): R.Event
    requires !e.NewRoute? && !e.Advance?
  {
    match e
    case SelfTestStarts => R.SelfTestStarts
    case SelfTestEnds(passed) => R.SelfTestEnds(passed)
    case Handshake(at) => R.HeardAt(at)
    case Stop => R.Stop
  }

  ghost predicate Runnable(c: K.Config, t: Trig) {
    K.ValidConfig(c) && ExactRoots(t) && PositiveRoots(t)
  }

  ghost function Next(c: K.Config, t: Trig, s: K.CoreState, e: Event): (s': K.CoreState)
    requires Runnable(c, t) && K.Sane(c, s)
    ensures K.Sane(c, s')
  {
    match e
    case Advance(_, i) => K.StepKeeps(c, t, s, i); K.Step(c, t, s, i).0
    case NewRoute(points) => s.(controller := C.WithRoute(c.control, s.controller, points).0)
    case _ => s.(machine := R.NextMachine(c.runtime, s.machine, EventFor(e)))
  }

  ghost function Run(c: K.Config, t: Trig, s: K.CoreState, es: seq<Event>): (s': K.CoreState)
    requires Runnable(c, t) && K.Sane(c, s)
    ensures K.Sane(c, s')
    decreases |es|
  {
    if es == [] then s else Run(c, t, Next(c, t, s, es[0]), es[1..])
  }

  // ------------------------------------------------------- faults and stops

  /** A failed self test, or a step whose frame fails numerically. */
  ghost predicate Causes(c: K.Config, t: Trig, s: K.CoreState, e: Event)
    requires Runnable(c, t) && K.Sane(c, s)
  {
    (e.SelfTestEnds? && s.machine.state == SelfTest && !e.passed) ||
    (e.Advance? && K.FrameFaults(c, t, s.filter, e.input))
  }

  /** The state only moves towards a stop, and to Fault only with a cause. */
  lemma NextRank(c: K.Config, t: Trig, s: K.CoreState, e: Event)
    requires Runnable(c, t) && K.Sane(c, s)
    ensures Rank(Next(c, t, s, e).machine.state) >= Rank(s.machine.state)
    ensures s.machine.state != Fault && Next(c, t, s, e).machine.state == Fault ==> Causes(c, t, s, e)
  {
    if e.Advance? {
      K.StepKeeps(c, t, s, e.input);
    }
  }

  /** Main result on runs: Running and Degraded always mean an initialized, healthy estimator (the invariant
      of Run), and a run reaches Fault only through a failed self test or a numerically failed frame. */
  lemma {:induction false} FaultHasCause(c: K.Config, t: Trig, s: K.CoreState, es: seq<Event>) returns (k: nat)
    requires Runnable(c, t) && K.Sane(c, s) && s.machine.state != Fault
    requires Run(c, t, s, es).machine.state == Fault
    ensures k < |es| && Causes(c, t, Run(c, t, s, es[..k]), es[k])
    decreases |es|
  {
    var s' := Next(c, t, s, es[0]);
    if s'.machine.state == Fault {
      NextRank(c, t, s, es[0]);
      k := 0;
    } else {
      var j := FaultHasCause(c, t, s', es[1..]);
      RunPrefix(c, t, s, es, j);
      k := j + 1;
    }
  }

  lemma RunPrefix(c: K.Config, t: Trig, s: K.CoreState, es: seq<Event>, j: nat)
    requires Runnable(c, t) && K.Sane(c, s) && j < |es|
    ensures Run(c, t, s, es[..j + 1]) == Run(c, t, Next(c, t, s, es[0]), es[1..][..j])
  {
    assert es[..j + 1][0] == es[0] && es[..j + 1][1..] == es[1..][..j];
  }

  /** Main result on the state: no run ever moves it back. */
  lemma {:induction false} RankNeverFalls(c: K.Config, t: Trig, s: K.CoreState, es: seq<Event>)
    requires Runnable(c, t) && K.Sane(c, s)
    ensures Rank(Run(c, t, s, es).machine.state) >= Rank(s.machine.state)
    decreases |es|
  {
    if es != [] {
      NextRank(c, t, s, es[0]);
      RankNeverFalls(c, t, Next(c, t, s, es[0]), es[1..]);
    }
  }

  /** This step commands the safe stop. */
  ghost predicate StopsAt(c: K.Config, t: Trig, s: K.CoreState, i: K.Input)
    requires Runnable(c, t) && K.Sane(c, s)
  {
    E.Shaped(K.Sensed(c, t, s, i).0) &&
    var (s', out) := K.Step(c, t, s, i);
    |s'.filter.state| == E.N && out.command == C.SafeStopCommand(c.control, s'.filter.state[3])
  }

  lemma LatchedStops(c: K.Config, t: Trig, s: K.CoreState, i: K.Input)
    requires Runnable(c, t) && K.Sane(c, s) && Latched(s.machine.state)
    ensures StopsAt(c, t, s, i)
  {
    K.SensedSane(c, t, s, i);
    var (f, m) := K.Sensed(c, t, s, i);
    K.DecidedSane(c, t, f, s.controller, m, i.now, i.dt);
  }

  /** Main result on stops: after a stop or a fault, whatever follows, every step commands the safe stop. */
  lemma StoppedForGood(c: K.Config, t: Trig, s: K.CoreState, es: seq<Event>, i: K.Input)
    requires Runnable(c, t) && K.Sane(c, s) && Latched(s.machine.state)
    ensures Latched(Run(c, t, s, es).machine.state) && StopsAt(c, t, Run(c, t, s, es), i)
  {
    RankNeverFalls(c, t, s, es);
    LatchedStops(c, t, Run(c, t, s, es), i);
  }

  // ------------------------------------------------------- the host, over whole runs

  /** The account of the timers after a frame with this outcome. */
  function AfterAccount(m: R.Machine, a: R.Account, outcome: K.Outcome, at: int): R.Account {
    if outcome == K.Committed then R.HeardAccount(m, a, at) else a
  }

  function SensedAccount(c: K.Config, t: Trig, s: K.CoreState, a: R.Account, at: int, i: K.Input): R.Account
    requires K.ValidConfig(c) && E.Shaped(s.filter) && PositiveRoots(t)
  {
    var m := if i.manualStop then R.Stopping(s.machine) else s.machine;
    if i.frame.None? then a
    else AfterAccount(m, a, K.Process(c.ekf, t, s.filter, i.frame.value, i.dt, i.now).1, at)
  }

  function StepAccount(c: K.Config, t: Trig, s: K.CoreState, a: R.Account, at: int, i: K.Input): R.Account
    requires K.ValidConfig(c) && E.Shaped(s.filter) && PositiveRoots(t)
  {
    var (f, m) := K.Sensed(c, t, s, i);
    R.TickAccount(c.runtime, m, SensedAccount(c, t, s, a, at, i), at, K.InputsFor(c, f, s.controller, i.now))
  }

  function NextAccount(c: K.Config, t: Trig, s: K.CoreState, a: R.Account, e: Event): R.Account
    requires K.ValidConfig(c) && E.Shaped(s.filter) && PositiveRoots(t)
  {
    match e
    case Advance(at, i) => StepAccount(c, t, s, a, at, i)
    case NewRoute(_) => a
    case _ => R.NextAccount(c.runtime, s.machine, a, EventFor(e))
  }

  ghost function RunAccount(c: K.Config, t: Trig, s: K.CoreState, a: R.Account, es: seq<Event>): R.Account
    requires Runnable(c, t) && K.Sane(c, s)
    decreases |es|
  {
    if es == [] then a else RunAccount(c, t, Next(c, t, s, es[0]), NextAccount(c, t, s, a, es[0]), es[1..])
  }

  predicate Timed(e: Event) {
    e.Handshake? || e.Advance?
  }

  function Later(since: int, e: Event): int {
    if Timed(e) then e.at else since
  }

  /** Time does not go back, and the clock the core sees is its lower 32 bits. */
  predicate Clocked(since: int, es: seq<Event>)
    decreases |es|
  {
    es == [] || if Timed(es[0]) then
                  since <= es[0].at && (es[0].Advance? ==> es[0].input.now == Wrap(es[0].at)) &&
                  Clocked(es[0].at, es[1..])
                else Clocked(since, es[1..])
  }

  lemma AfterConsistent(c: R.Config, m: R.Machine, a: R.Account, outcome: K.Outcome, at: int)
    requires R.ValidConfig(c) && R.Consistent(c, m, a) && R.Latest(a) <= at
    ensures R.Consistent(c, K.After(m, outcome, Wrap(at)), AfterAccount(m, a, outcome, at))
    ensures R.Latest(AfterAccount(m, a, outcome, at)) <= at
  {
    match outcome
    case Committed => R.NextConsistent(c, m, a, at, R.HeardAt(at));
    case RejectedInput =>
    case NumericalFault => R.NextConsistent(c, m, a, at, R.Failure);
  }

  lemma SensedConsistent(c: K.Config, t: Trig, s: K.CoreState, a: R.Account, at: int, i: K.Input)
    requires Runnable(c, t) && K.Sane(c, s) && R.Consistent(c.runtime, s.machine, a)
    requires R.Latest(a) <= at && i.now == Wrap(at)
    ensures R.Consistent(c.runtime, K.Sensed(c, t, s, i).1, SensedAccount(c, t, s, a, at, i))
    ensures R.Latest(SensedAccount(c, t, s, a, at, i)) <= at
  {
    R.NextConsistent(c.runtime, s.machine, a, at, R.Stop);
    if i.frame.Some? {
      AfterConsistent(c.runtime, if i.manualStop then R.Stopping(s.machine) else s.machine, a,
                      K.Process(c.ekf, t, s.filter, i.frame.value, i.dt, i.now).1, at);
    }
  }

  lemma NextConsistent(c: K.Config, t: Trig, s: K.CoreState, a: R.Account, since: int, e: Event)
    requires Runnable(c, t) && K.Sane(c, s) && R.Consistent(c.runtime, s.machine, a) && R.Latest(a) <= since
    requires Timed(e) ==> since <= e.at
    requires e.Advance? ==> e.input.now == Wrap(e.at)
    ensures R.Consistent(c.runtime, Next(c, t, s, e).machine, NextAccount(c, t, s, a, e))
    ensures R.Latest(NextAccount(c, t, s, a, e)) <= Later(since, e)
  {
    match e
    case Advance(at, i) =>
      SensedConsistent(c, t, s, a, at, i);
      var (f, m) := K.Sensed(c, t, s, i);
      R.TickConsistent(c.runtime, m, SensedAccount(c, t, s, a, at, i), at, K.InputsFor(c, f, s.controller, i.now));
    case NewRoute(_) =>
    case _ => R.NextConsistent(c.runtime, s.machine, a, since, EventFor(e));
  }

  lemma {:induction false} RunConsistent(c: K.Config, t: Trig, s: K.CoreState, a: R.Account, since: int, es: seq<Event>)
    requires Runnable(c, t) && K.Sane(c, s) && R.Consistent(c.runtime, s.machine, a) && R.Latest(a) <= since &&
             Clocked(since, es)
    ensures R.Consistent(c.runtime, Run(c, t, s, es).machine, RunAccount(c, t, s, a, es))
    decreases |es|
  {
    if es != [] {
      NextConsistent(c, t, s, a, since, es[0]);
      RunConsistent(c, t, Next(c, t, s, es[0]), NextAccount(c, t, s, a, es[0]), Later(since, es[0]), es[1..]);
    }
  }

  /** Main result on the host: after any run of the core, a step that commands anything but the safe stop or neutral
      has a committed frame or a handshake at most the host timeout behind it. */
  lemma TrackingNeedsLiveHost(c: K.Config, t: Trig, s: K.CoreState, a: R.Account, since: int, es: seq<Event>, at: int,
                              i: K.Input)
    requires Runnable(c, t) && K.Sane(c, s) && R.Consistent(c.runtime, s.machine, a) && R.Latest(a) <= since &&
             Clocked(since, es)
    requires var b := RunAccount(c, t, s, a, es);
             R.Latest(b) <= at && i.now == Wrap(at)
    ensures var s', b := Run(c, t, s, es), SensedAccount(c, t, Run(c, t, s, es), RunAccount(c, t, s, a, es), at, i);
            && E.Shaped(K.Sensed(c, t, s', i).0)
            && (K.Step(c, t, s', i).1.command.valid && !K.Step(c, t, s', i).1.command.safeStop ==>
                  R.StillLive(c.runtime, b, at) ==> at - b.inputAt <= c.runtime.hostTimeout)
  {
    var s', b := Run(c, t, s, es), RunAccount(c, t, s, a, es);
    RunConsistent(c, t, s, a, since, es);
    K.StepKeeps(c, t, s', i);
    SensedConsistent(c, t, s', b, at, i);
    var (f, m) := K.Sensed(c, t, s', i);
    R.TickConsistent(c.runtime, m, SensedAccount(c, t, s', b, at, i), at, K.InputsFor(c, f, s'.controller, i.now));
  }
}
