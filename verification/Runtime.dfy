/** Navigation modes of include/navbench/ekf.hpp and safety states of include/navbench/runtime.hpp. */
module Modes {
  datatype NavigationMode = Unavailable | DeadReckoning | LandmarkAided | GnssAided | DegradedNav

  datatype SafetyState = Startup | SelfTest | Ready | Running | Degraded | SafeStop | Fault

  predicate Aided(mode: NavigationMode) {
    mode == GnssAided || mode == LandmarkAided
  }

  /** Position on the way to a stop. */
  function Rank(s: SafetyState): nat {
    match s
    case Startup => 0
    case SelfTest => 1
    case Ready => 2
    case Running => 3
    case Degraded => 3
    case SafeStop => 4
    case Fault => 5
  }

  predicate Moving(s: SafetyState) {
    s == Running || s == Degraded
  }

  predicate Latched(s: SafetyState) {
    s == SafeStop || s == Fault
  }
}

/** RuntimeCore of src/runtime.cpp: the latching safety state machine with its watchdog and grace timer. */
module Runtime {
  import opened Words
  import opened Modes

  datatype Config = Config(hostTimeout: u32, unavailableGrace: u32, overflowThreshold: u16)

  predicate ValidConfig(c: Config) {
    c.hostTimeout > 0 && c.unavailableGrace > 0 && c.overflowThreshold > 0
  }

  datatype Decision = Decision(state: SafetyState, permitControl: bool, forceSafeStop: bool, outputNeutral: bool)

  /** What a tick sees. */
  datatype Inputs = Inputs(mode: NavigationMode, healthy: bool, ready: bool)

  /** The state after a tick: watchdog, then estimator fault, then navigation. */
  function NextState(s: SafetyState, hostSeen: bool, hostLate: bool, graceOver: bool, i: Inputs): SafetyState {
    if (s == Ready || Moving(s)) && hostSeen && hostLate then SafeStop
    else if Moving(s) && !i.healthy then Fault
    else if s == Ready && hostSeen && i.healthy && i.ready && i.mode != Unavailable then
      if Aided(i.mode) then Running else Degraded
    else if Moving(s) then
      if Aided(i.mode) then Running
      else if i.mode == Unavailable && graceOver then SafeStop
      else Degraded
    else s
  }

  function DecisionFor(s: SafetyState, i: Inputs): Decision {
    if Moving(s) && i.healthy && i.mode != Unavailable && i.ready then Decision(s, true, false, false)
    else if Latched(s) then Decision(s, false, true, false)
    else Decision(s, false, false, true)
  }

  /** The state machine only ever moves towards a stop; Running and Degraded are on one level. */
  lemma NextStateNeverFalls(s: SafetyState, hostSeen: bool, hostLate: bool, graceOver: bool, i: Inputs)
    ensures Rank(NextState(s, hostSeen, hostLate, graceOver, i)) >= Rank(s)
    ensures Latched(s) ==> NextState(s, hostSeen, hostLate, graceOver, i) == s
    ensures Moving(NextState(s, hostSeen, hostLate, graceOver, i)) ==>
              (s == Ready || Moving(s)) && i.healthy && (s == Ready ==> hostSeen) && !(hostSeen && hostLate)
  {
  }

  // ------------------------------------------------------- timers on the unbounded clock

  /** The registers of the state machine. */
  datatype Machine = Machine(state: SafetyState, hostSeen: bool, lastValidInput: u32, timerActive: bool,
                             unavailableSince: u32)

  /** On the unbounded clock: the last tick, the last accepted input, the start of the current outage; and
      whether the clock was sampled often enough for neither timer to wrap, since that input (`live`) and since
      the outage began (`sampled`). */
  datatype Account = Account(tickAt: int, inputAt: int, outage: Option<int>, live: bool, sampled: bool)

  /** When the machine last looked at the clock. */
  function Latest(a: Account): int {
    if a.tickAt < a.inputAt then a.inputAt else a.tickAt
  }

  /** What holds on every run since begin. */
  ghost predicate Consistent(c: Config, m: Machine, a: Account) {
    && m.lastValidInput == Wrap(a.inputAt)
    && (Moving(m.state) ==> m.hostSeen) && (m.hostSeen ==> Rank(m.state) >= Rank(Ready))
    && (a.live && m.hostSeen && !Latched(m.state) ==> Latest(a) - a.inputAt <= c.hostTimeout)
    && (m.state == Degraded ==> (m.timerActive <==> a.outage.Some?))
    && (a.outage.Some? ==> m.state == Degraded || Latched(m.state))
    && (m.timerActive ==> m.state == Degraded || Latched(m.state))
    && (a.outage.Some? && m.state == Degraded ==>
          m.unavailableSince == Wrap(a.outage.value) && a.outage.value <= a.tickAt &&
          (a.sampled ==> a.tickAt - a.outage.value < c.unavailableGrace))
  }

  /** The registers after a tick. */
  function TickMachine(c: Config, m: Machine, now: u32, i: Inputs): Machine {
    var late := Sub32(now, m.lastValidInput) > c.hostTimeout;
    var over := m.timerActive && Sub32(now, m.unavailableSince) >= c.unavailableGrace;
    var next := NextState(m.state, m.hostSeen, late, over, i);
    if Moving(m.state) && !(m.hostSeen && late) && i.healthy then
      if i.mode != Unavailable then m.(state := next, timerActive := false)
      else m.(state := next, timerActive := true, unavailableSince := if m.timerActive then m.unavailableSince else now)
    else
      m.(state := next)
  }

  /** The registers after an accepted input or a handshake. */
  function Heard(m: Machine, now: u32): Machine {
    if m.state == Ready || Moving(m.state) then m.(hostSeen := true, lastValidInput := now) else m
  }

  /** The registers after a stop that does not hide a fault. */
  function Stopping(m: Machine): Machine {
    if m.state == Fault then m else m.(state := SafeStop)
  }

  function TickAccount(c: Config, m: Machine, a: Account, t: int, i: Inputs): Account {
    var out := Moving(TickMachine(c, m, Wrap(t), i).state) && i.mode == Unavailable;
    Account(t, a.inputAt, if !out then None else if a.outage.Some? then a.outage else Some(t), StillLive(c, a, t),
            out && a.outage.Some? ==> StillSampled(c, a, t))
  }

  function HeardAccount(m: Machine, a: Account, t: int): Account {
    if m.state == Ready || Moving(m.state) then a.(inputAt := t, live := true) else a
  }

  /** A tick soon enough after the last look at the clock for the watchdog not to wrap. */
  predicate StillLive(c: Config, a: Account, t: int) {
    a.live && t - Latest(a) + c.hostTimeout < TWO32
  }

  /** A tick soon enough after the last one for the grace timer not to wrap. */
  predicate StillSampled(c: Config, a: Account, t: int) {
    a.sampled && t - a.tickAt + c.unavailableGrace < TWO32
  }

  /** While the clock is sampled often enough, the wrapped timers measure true ages. */
  lemma TimersExact(c: Config, m: Machine, a: Account, t: int)
    requires Consistent(c, m, a) && a.tickAt <= t && a.inputAt <= t
    ensures StillLive(c, a, t) && m.hostSeen && !Latched(m.state) ==> Sub32(Wrap(t), m.lastValidInput) == t - a.inputAt
    ensures StillSampled(c, a, t) && m.state == Degraded && a.outage.Some? ==>
              Sub32(Wrap(t), m.unavailableSince) == t - a.outage.value
  {
    if StillLive(c, a, t) && m.hostSeen && !Latched(m.state) {
      Elapsed(t, a.inputAt);
    }
    if StillSampled(c, a, t) && m.state == Degraded && a.outage.Some? {
      Elapsed(t, a.outage.value);
    }
  }

  lemma TickConsistent(c: Config, m: Machine, a: Account, t: int, i: Inputs)
    requires ValidConfig(c) && Consistent(c, m, a) && a.tickAt <= t && a.inputAt <= t
    ensures Consistent(c, TickMachine(c, m, Wrap(t), i), TickAccount(c, m, a, t, i))
  {
    TimersExact(c, m, a, t);
  }

  /** Main result on permission: control needs a host that has been seen, whose last accepted input or
      handshake is at most the timeout old, a healthy estimator, navigation and a route. */
  lemma PermitNeedsLiveHost(c: Config, m: Machine, a: Account, t: int, i: Inputs)
    requires ValidConfig(c) && Consistent(c, m, a) && a.tickAt <= t && a.inputAt <= t
    requires DecisionFor(TickMachine(c, m, Wrap(t), i).state, i).permitControl
    ensures m.hostSeen && i.healthy && i.mode != Unavailable && i.ready
    ensures StillLive(c, a, t) ==> t - a.inputAt <= c.hostTimeout
  {
    TickConsistent(c, m, a, t, i);
  }

  /** Main result on decisions: control is permitted exactly in Ready, Running or Degraded with a host heard in time, a
      healthy estimator, navigation and a route; then the vehicle runs if its navigation is aided and is degraded
      otherwise. Without permission the output is the safe stop in the latched states and neutral in all others. */
  lemma PermittedExactly(c: Config, m: Machine, now: u32, i: Inputs)
    requires Moving(m.state) ==> m.hostSeen
    ensures var s := TickMachine(c, m, now, i).state;
            var d := DecisionFor(s, i);
            && (d.permitControl <==>
                  && (m.state == Ready || m.state == Running || m.state == Degraded)
                  && m.hostSeen && Sub32(now, m.lastValidInput) <= c.hostTimeout
                  && i.healthy && i.ready && i.mode != Unavailable)
            && (d.permitControl ==>
                  s == if i.mode == GnssAided || i.mode == LandmarkAided then Running else Degraded)
            && d.state == s && (d.forceSafeStop <==> s == SafeStop || s == Fault)
            && (d.outputNeutral <==> !d.permitControl && !d.forceSafeStop)
  {
  }

  /** Main result on stopping: a tick faults exactly a moving vehicle without a healthy estimator, and stops exactly one
      whose host is late, or that moves and has been without navigation for the grace period. */
  lemma StoppedExactly(c: Config, m: Machine, now: u32, i: Inputs)
    ensures var s, late := TickMachine(c, m, now, i).state, m.hostSeen && Sub32(now, m.lastValidInput) > c.hostTimeout;
            && (s == Fault <==>
                  m.state == Fault || ((m.state == Running || m.state == Degraded) && !late && !i.healthy))
            && (s == SafeStop <==>
                  || m.state == SafeStop
                  || ((m.state == Ready || m.state == Running || m.state == Degraded) && late)
                  || ((m.state == Running || m.state == Degraded) && i.healthy && i.mode == Unavailable &&
                      m.timerActive && Sub32(now, m.unavailableSince) >= c.unavailableGrace))
            && (s == Startup <==> m.state == Startup) && (s == SelfTest <==> m.state == SelfTest)
  {
  }

  // ------------------------------------------------------- whole runs

  /** Everything that reaches the state machine after begin. A stop is a request or the overflow that reaches the
      threshold; a failure is a numerical fault. */
  datatype Event =
    | TickAt(t: int, inputs: Inputs)
    | HeardAt(t: int)
    | SelfTestStarts
    | SelfTestEnds(passed: bool)
    | Stop
    | Failure

  function NextMachine(c: Config, m: Machine, e: Event): Machine {
    match e
    case TickAt(t, i) => TickMachine(c, m, Wrap(t), i)
    case HeardAt(t) => Heard(m, Wrap(t))
    case SelfTestStarts => if m.state == Startup then m.(state := SelfTest) else m
    case SelfTestEnds(passed) => if m.state == SelfTest then m.(state := if passed then Ready else Fault) else m
    case Stop => Stopping(m)
    case Failure => m.(state := Fault)
  }

  function NextAccount(c: Config, m: Machine, a: Account, e: Event): Account {
    match e
    case TickAt(t, i) => TickAccount(c, m, a, t, i)
    case HeardAt(t) => HeardAccount(m, a, t)
    case _ => a
  }

  function Run(c: Config, m: Machine, a: Account, es: seq<Event>): (Machine, Account)
    decreases |es|
  {
    if es == [] then (m, a) else Run(c, NextMachine(c, m, es[0]), NextAccount(c, m, a, es[0]), es[1..])
  }

  predicate Timed(e: Event) {
    e.TickAt? || e.HeardAt?
  }

  function Later(since: int, e: Event): int {
    if Timed(e) then e.t else since
  }

  /** Time does not go back. */
  predicate Ordered(since: int, es: seq<Event>)
    decreases |es|
  {
    es == [] || if Timed(es[0]) then since <= es[0].t && Ordered(es[0].t, es[1..]) else Ordered(since, es[1..])
  }

  lemma NextConsistent(c: Config, m: Machine, a: Account, since: int, e: Event)
    requires ValidConfig(c) && Consistent(c, m, a) && Latest(a) <= since && (Timed(e) ==> since <= e.t)
    ensures Consistent(c, NextMachine(c, m, e), NextAccount(c, m, a, e))
    ensures Latest(NextAccount(c, m, a, e)) <= Later(since, e)
    ensures Rank(NextMachine(c, m, e).state) >= Rank(m.state)
  {
    if e.TickAt? {
      TickConsistent(c, m, a, e.t, e.inputs);
    }
  }

  /** Main result on runs: whatever happens after begin, the registers agree with the account, so that every later
      tick is covered by the results above; and the state never moves back. */
  lemma {:induction false} RunConsistent(c: Config, m: Machine, a: Account, since: int, es: seq<Event>)
    requires ValidConfig(c) && Consistent(c, m, a) && Latest(a) <= since && Ordered(since, es)
    ensures Consistent(c, Run(c, m, a, es).0, Run(c, m, a, es).1)
    ensures Rank(Run(c, m, a, es).0.state) >= Rank(m.state)
    decreases |es|
  {
    if es != [] {
      NextConsistent(c, m, a, since, es[0]);
      RunConsistent(c, NextMachine(c, m, es[0]), NextAccount(c, m, a, es[0]), Later(since, es[0]), es[1..]);
    }
  }

  // ------------------------------------------------------- outages

  /** Every tick finds navigation unavailable. */
  predicate Blind(es: seq<Event>) {
    forall k :: 0 <= k < |es| && es[k].TickAt? ==> es[k].inputs.mode == Unavailable
  }

  /** The ticks are close enough together for the grace timer not to wrap. */
  predicate Sampled(c: Config, tickAt: int, es: seq<Event>)
    decreases |es|
  {
    es == [] || if es[0].TickAt? then es[0].t - tickAt + c.unavailableGrace < TWO32 && Sampled(c, es[0].t, es[1..])
                else Sampled(c, tickAt, es[1..])
  }

  predicate FirstTick(es: seq<Event>, t: int)
    decreases |es|
  {
    es != [] && if es[0].TickAt? then es[0].t == t else FirstTick(es[1..], t)
  }

  /** Without navigation nothing starts to move. */
  lemma {:induction false} StaysStill(c: Config, m: Machine, a: Account, es: seq<Event>)
    requires !Moving(m.state) && Blind(es)
    ensures !Moving(Run(c, m, a, es).0.state)
    decreases |es|
  {
    if es != [] {
      StaysStill(c, NextMachine(c, m, es[0]), NextAccount(c, m, a, es[0]), es[1..]);
    }
  }

  /** Main result on outages, over every run of ticks, inputs, handshakes, stops and faults: if every tick finds
      navigation unavailable from t0 on, then after a tick that comes at least the grace period after t0 the
      vehicle is out of Running and Degraded, however live the host is. */
  lemma {:induction false} OutageStops(c: Config, m: Machine, a: Account, since: int, es: seq<Event>, t0: int, k: nat)
    requires ValidConfig(c) && Consistent(c, m, a) && Latest(a) <= since && Ordered(since, es)
    requires Blind(es) && Sampled(c, a.tickAt, es)
    requires if a.outage.Some? then a.outage.value == t0 && a.sampled else FirstTick(es, t0)
    requires k < |es| && es[k].TickAt? && es[k].t - t0 >= c.unavailableGrace
    ensures !Moving(Run(c, m, a, es).0.state)
    decreases |es|
  {
    var m', a' := NextMachine(c, m, es[0]), NextAccount(c, m, a, es[0]);
    NextConsistent(c, m, a, since, es[0]);
    if !Moving(m'.state) {
      StaysStill(c, m', a', es[1..]);
    } else {
      OutageStops(c, m', a', Later(since, es[0]), es[1..], t0, k - 1);
    }
  }

  /** A stop or a fault is for good. */
  lemma {:induction false} LatchedForever(c: Config, m: Machine, a: Account, es: seq<Event>)
    requires Latched(m.state)
    ensures Latched(Run(c, m, a, es).0.state) && (m.state == Fault ==> Run(c, m, a, es).0.state == Fault)
    decreases |es|
  {
    if es != [] {
      LatchedForever(c, NextMachine(c, m, es[0]), NextAccount(c, m, a, es[0]), es[1..]);
    }
  }

  // ------------------------------------------------------- the class

  datatype Stats = Stats(acceptedInputs: u32, rejectedInputs: u32, queueOverflows: u32, watchdogTimeouts: u32,
                         manualSafeStops: u32, numericalFaults: u32, stateTransitions: u32)

  class RuntimeCore {
    var config: Config
    var state: SafetyState
    var stateEntered: u32
    var lastValidInput: u32
    var unavailableSince: u32
    var hostSeen: bool
    var timerActive: bool
    var stats: Stats
    ghost var account: Account
    ghost var overflows: nat  // since begin

    ghost function Registers(): Machine
      reads this
    {
      Machine(state, hostSeen, lastValidInput, timerActive, unavailableSince)
    }

    ghost predicate Valid()
      reads this
    {
      && ValidConfig(config) && Consistent(config, Registers(), account)
      && stats.queueOverflows == Wrap(overflows)
      && (overflows >= config.overflowThreshold ==> Latched(state))
    }

    ghost predicate NotBefore(t: int)
      reads this`account
    {
      account.tickAt <= t && account.inputAt <= t
    }

    constructor ()
      ensures Valid() && state == Startup && config == Config(500, 250, 1) && !hostSeen && overflows == 0
      ensures account == Account(0, 0, None, true, true)
    {
      config := Config(500, 250, 1);
      state, stateEntered, lastValidInput, unavailableSince := Startup, 0, 0, 0;
      hostSeen, timerActive, stats := false, false, Stats(0, 0, 0, 0, 0, 0, 0);
      account, overflows := Account(0, 0, None, true, true), 0;
    }

    method Begin(now: u32, ghost t: int)
      requires ValidConfig(config) && now == Wrap(t)
      modifies this
      ensures Valid() && state == Startup && !hostSeen && overflows == 0 && config == old(config)
      ensures account == Account(t, t, None, true, true)
    {
      state, stateEntered, lastValidInput, unavailableSince := Startup, now, now, now;
      hostSeen, timerActive, stats := false, false, Stats(0, 0, 0, 0, 0, 0, 0);
      account, overflows := Account(t, t, None, true, true), 0;
    }

    /** A new configuration restarts the state machine; an invalid one changes nothing. */
    method SetConfig(c: Config) returns (ok: bool)
      requires Valid()
      modifies this
      ensures Valid() && ok == ValidConfig(c)
      ensures ok ==> config == c && state == Startup && !hostSeen
      ensures !ok ==> unchanged(this)
    {
      if !ValidConfig(c) {
        return false;
      }
      config := c;
      Begin(0, 0);
      return true;
    }

    method Transition(next: SafetyState, now: u32)
      modifies this`state, this`stateEntered, this`stats
      ensures state == next
      ensures stats == old(stats).(stateTransitions := stats.stateTransitions)
      ensures stats.stateTransitions == if next == old(state) then old(stats).stateTransitions
                                        else Wrap(old(stats).stateTransitions + 1)
    {
      if next != state {
        state, stateEntered := next, now;
        stats := stats.(stateTransitions := Wrap(stats.stateTransitions + 1));
      }
    }

    method StartSelfTest() returns (ok: bool)
      requires Valid()
      modifies this`state, this`stateEntered, this`stats
      ensures Valid() && ok == (old(state) == Startup) && state == if ok then SelfTest else old(state)
      ensures stats.acceptedInputs == old(stats).acceptedInputs
    {
      if state != Startup {
        return false;
      }
      Transition(SelfTest, stateEntered);
      return true;
    }

    method CompleteSelfTest(passed: bool, now: u32) returns (ok: bool)
      requires Valid()
      modifies this`state, this`stateEntered, this`stats
      ensures Valid() && ok == (old(state) == SelfTest)
      ensures state == if !ok then old(state) else if passed then Ready else Fault
      ensures stats.acceptedInputs == old(stats).acceptedInputs
    {
      if state != SelfTest {
        return false;
      }
      Transition(if passed then Ready else Fault, now);
      return true;
    }

    /** Host activity counts only between Ready and a stop. */
    method NotifyHandshake(now: u32, ghost t: int)
      requires Valid() && now == Wrap(t) && NotBefore(t)
      modifies this`hostSeen, this`lastValidInput, this`account
      ensures Valid() && NotBefore(t)
      ensures Registers() == Heard(old(Registers()), now) && account == HeardAccount(old(Registers()), old(account), t)
    {
      if state == Ready || state == Running || state == Degraded {
        hostSeen, lastValidInput := true, now;
        account := account.(inputAt := t, live := true);
      }
    }

    method AcceptInput(now: u32, ghost t: int)
      requires Valid() && now == Wrap(t) && NotBefore(t)
      modifies this`hostSeen, this`lastValidInput, this`account, this`stats
      ensures Valid() && NotBefore(t)
      ensures Registers() == Heard(old(Registers()), now) && account == HeardAccount(old(Registers()), old(account), t)
      ensures stats == if state == Ready || Moving(state) then
                         old(stats).(acceptedInputs := Wrap(old(stats).acceptedInputs + 1))
                       else old(stats)
    {
      if state == Ready || state == Running || state == Degraded {
        hostSeen, lastValidInput := true, now;
        account := account.(inputAt := t, live := true);
        stats := stats.(acceptedInputs := Wrap(stats.acceptedInputs + 1));
      }
    }

    /** Rejected inputs are counted and change nothing else. */
    method RecordRejectedInput()
      requires Valid()
      modifies this`stats
      ensures Valid() && stats == old(stats).(rejectedInputs := Wrap(old(stats).rejectedInputs + 1))
    {
      stats := stats.(rejectedInputs := Wrap(stats.rejectedInputs + 1));
    }

    /** From the configured number of overflows on, the machine is stopped for good. */
    method RecordQueueOverflow()
      requires Valid()
      modifies this`state, this`stateEntered, this`stats, this`overflows
      ensures Valid() && overflows == old(overflows) + 1
      ensures state == if old(state) == Fault then Fault
                       else if Latched(old(state)) || overflows >= config.overflowThreshold then SafeStop
                       else old(state)
      ensures stats.acceptedInputs == old(stats).acceptedInputs
    {
      WrapShift(overflows, stats.queueOverflows, 1);
      stats := stats.(queueOverflows := Wrap(stats.queueOverflows + 1));
      overflows := overflows + 1;
      if stats.queueOverflows >= config.overflowThreshold && state != Fault {
        Transition(SafeStop, lastValidInput);
      }
    }

    method RequestSafeStop()
      requires Valid()
      modifies this`state, this`stateEntered, this`stats
      ensures Valid() && state == (if old(state) == Fault then Fault else SafeStop)
      ensures stats.acceptedInputs == old(stats).acceptedInputs
    {
      stats := stats.(manualSafeStops := Wrap(stats.manualSafeStops + 1));
      if state != Fault {
        Transition(SafeStop, lastValidInput);
      }
    }

    method ReportNumericalFault()
      requires Valid()
      modifies this`state, this`stateEntered, this`stats
      ensures Valid() && state == Fault
      ensures stats.acceptedInputs == old(stats).acceptedInputs
    {
      stats := stats.(numericalFaults := Wrap(stats.numericalFaults + 1));
      Transition(Fault, lastValidInput);
    }

    /** One tick, by the branches of the source, is the tick of the specification. */
    method Tick(now: u32, ghost t: int, i: Inputs) returns (d: Decision)
      requires Valid() && now == Wrap(t) && NotBefore(t)
      modifies this
      ensures Valid() && config == old(config) && overflows == old(overflows)
      ensures Registers() == TickMachine(config, old(Registers()), now, i)
      ensures account == TickAccount(config, old(Registers()), old(account), t, i)
      ensures d == DecisionFor(state, i) && stats.acceptedInputs == old(stats).acceptedInputs
    {
      TickConsistent(config, Registers(), account, t, i);
      account := TickAccount(config, Registers(), account, t, i);
      CheckTimers(now, i);
      Navigate(now, i);
      d := DecisionFor(state, i);
    }

    /** Watchdog and estimator health. */
    method CheckTimers(now: u32, i: Inputs)
      modifies this`state, this`stateEntered, this`stats
      ensures state == if (old(state) == Ready || Moving(old(state))) && hostSeen &&
              Sub32(now, lastValidInput) > config.hostTimeout
                       then SafeStop else if Moving(old(state)) && !i.healthy then Fault else old(state)
      ensures stats.acceptedInputs == old(stats).acceptedInputs && stats.queueOverflows == old(stats).queueOverflows
    {
      if (state == Ready || state == Running || state == Degraded) && hostSeen &&
         Sub32(now, lastValidInput) > config.hostTimeout {
        stats := stats.(watchdogTimeouts := Wrap(stats.watchdogTimeouts + 1));
        Transition(SafeStop, now);
      }
      if (state == Running || state == Degraded) && !i.healthy {
        stats := stats.(numericalFaults := Wrap(stats.numericalFaults + 1));
        Transition(Fault, lastValidInput);
      }
    }

    method Navigate(now: u32, i: Inputs)
      modifies this`state, this`stateEntered, this`stats, this`timerActive, this`unavailableSince
      ensures var s := old(state);
              var over := old(timerActive) && Sub32(now, old(unavailableSince)) >= config.unavailableGrace;
              && state == (if s == Ready && hostSeen && i.healthy && i.ready && i.mode != Unavailable then
                             (if Aided(i.mode) then Running else Degraded)
                           else if Moving(s) then
                             (if Aided(i.mode) then Running
                              else if s == Degraded && i.mode == Unavailable && over then SafeStop else Degraded)
                           else s)
              && timerActive == (if Moving(s) then i.mode == Unavailable else old(timerActive))
              && unavailableSince == (if Moving(s) && i.mode == Unavailable &&
                                      (s == Running || !old(timerActive)) then now
                                      else old(unavailableSince))
      ensures stats.acceptedInputs == old(stats).acceptedInputs && stats.queueOverflows == old(stats).queueOverflows
    {
      if state == Ready && hostSeen && i.healthy && i.ready {
        if Aided(i.mode) {
          Transition(Running, now);
        } else if i.mode == DeadReckoning || i.mode == DegradedNav {
          Transition(Degraded, now);
        }
      } else if state == Running {
        if i.mode == DeadReckoning || i.mode == DegradedNav {
          timerActive := false;
          Transition(Degraded, now);
        } else if i.mode == Unavailable {
          timerActive, unavailableSince := true, now;
          Transition(Degraded, now);
        } else {
          timerActive := false;
        }
      } else if state == Degraded {
        if Aided(i.mode) {
          timerActive := false;
          Transition(Running, now);
        } else if i.mode == DeadReckoning || i.mode == DegradedNav {
          timerActive := false;
        } else {
          if !timerActive {
            timerActive, unavailableSince := true, now;
          } else if Sub32(now, unavailableSince) >= config.unavailableGrace {
            Transition(SafeStop, now);
          }
        }
      }
    }
  }
}
