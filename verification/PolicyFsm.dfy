/**
 * The robot's policy state machine: four states, events that are handled only if the current state lists
 * them, policy controllers that are switched after a warm-up, and recovery from a fall.
 */
module PolicyFsm {
  import opened Wrappers

  datatype Mode = Waiting | InitPose | PolicyRunning | PolicySwitching

  datatype Controller = Standing | Walking | Robust | WaveGreeting | Handshake | HeadSurvey | BeyondMimic

  // The velocity events only change the command.
  datatype Event = InitPoseEvent | RunPolicy | Enable(c: Controller) | PolicySwitch | Velocity

  // What is done to a policy controller.
  datatype Action = Init(c: Controller) | Stop(c: Controller) | WarmUp(c: Controller) | Step(c: Controller)

  // Fall recovery as configured: confirmCycles ticks of tilt, and at least cooldown between recoveries.
  datatype Config = Config(enabled: bool, confirmCycles: int, cooldown: int, switchingTime: int)

  // since is when the switch under way began, lastTrigger when recovery last began; 0 is never.
  datatype State = State(mode: Mode, current: Controller, target: Controller, switching: bool, since: nat, tilts: nat, lastTrigger: nat)

  // What the sensors and the clock say in a tick, and whether the current trajectory is at its end.
  datatype Sensed = Sensed(now: nat, tilted: bool, finished: bool)

  datatype Input = Event(e: Event) | Tick(s: Sensed)

  // ---- the source's functions ------------------------------------------------------------------

  // The events that each state lists.
  predicate Admits(mode: Mode, e: Event) {
    match mode
    case Waiting => e == InitPoseEvent || e == Enable(BeyondMimic)
    case InitPose => e == RunPolicy || e == Enable(BeyondMimic)
    case PolicyRunning => e.Velocity? || e.Enable?
    case PolicySwitching => e == PolicySwitch || e == Enable(BeyondMimic)
  }

  // EnableBeyondMimicRecovery
  function Recover(s: State): State {
    if s.current == BeyondMimic then s.(target := BeyondMimic, switching := false)
    else s.(current := BeyondMimic, target := BeyondMimic, switching := false)
  }

  function RecoverActions(s: State): seq<Action> {
    if s.current == BeyondMimic then [] else [Stop(s.current), Init(BeyondMimic), WarmUp(BeyondMimic)]
  }

  function Handle(s: State, e: Event): State {
    match e
    case InitPoseEvent => s.(mode := InitPose)
    case RunPolicy => s.(current := Standing, mode := PolicyRunning)
    case Enable(c) =>
      if c == BeyondMimic then Recover(s).(mode := PolicyRunning)
      else if s.current == c then s.(mode := PolicyRunning)
      else s.(target := c, mode := PolicySwitching)
    case PolicySwitch => s.(current := s.target, mode := PolicyRunning)
    case Velocity => s
  }

  function HandleActions(s: State, e: Event): seq<Action> {
    match e
    case InitPoseEvent | Velocity => []
    case RunPolicy => [Init(Standing)]
    case Enable(c) => if c == BeyondMimic then RecoverActions(s) else if s.current == c then [] else [Init(c)]
    case PolicySwitch => [Stop(s.current)]
  }

  // ShouldEnterFallRecovery: the answer, the counter, and when recovery last began.
  function FallCheck(cfg: Config, s: State, x: Sensed): (bool, State) {
    if !cfg.enabled || s.current == BeyondMimic || !x.tilted then (false, s.(tilts := 0))
    else
      var tilts := s.tilts + 1;
      if tilts < cfg.confirmCycles || (s.lastTrigger != 0 && x.now - s.lastTrigger < cfg.cooldown) then (false, s.(tilts := tilts))
      else (true, s.(tilts := 0, lastTrigger := x.now))
  }

  function RunningTick(cfg: Config, s: State, x: Sensed): State {
    var (fallen, s1) := FallCheck(cfg, s, x);
    if fallen then Recover(s1) else s1
  }

  function SwitchingTick(cfg: Config, s: State, x: Sensed): State {
    var since := if s.switching then s.since else x.now;
    s.(since := since, switching := x.now - since < cfg.switchingTime)
  }

  function TickActions(cfg: Config, s: State, x: Sensed): seq<Action> {
    match s.mode
    case Waiting => []
    case InitPose => [WarmUp(s.target)]
    case PolicyRunning =>
      var (fallen, s1) := FallCheck(cfg, s, x);
      (if fallen then RecoverActions(s1) else []) + [Step(RunningTick(cfg, s, x).current)]
    case PolicySwitching => if SwitchingTick(cfg, s, x).switching then [Step(s.current), WarmUp(s.target)] else []
  }

  // The event that a tick emits.
  function Emitted(cfg: Config, s: State, x: Sensed): Option<Event> {
    match s.mode
    case PolicyRunning => if RunningTick(cfg, s, x).current == BeyondMimic && x.finished then Some(Enable(Standing)) else None
    case PolicySwitching => if SwitchingTick(cfg, s, x).switching then None else Some(PolicySwitch)
    case _ => None
  }

  // An event that the current state does not list is ignored.
  function Next(cfg: Config, s: State, i: Input): State {
    match i
    case Event(e) => if Admits(s.mode, e) then Handle(s, e) else s
    case Tick(x) =>
      match s.mode
      case PolicyRunning => RunningTick(cfg, s, x)
      case PolicySwitching => SwitchingTick(cfg, s, x)
      case _ => s
  }

  function Actions(cfg: Config, s: State, i: Input): seq<Action> {
    match i
    case Event(e) => if Admits(s.mode, e) then HandleActions(s, e) else []
    case Tick(x) => TickActions(cfg, s, x)
  }

  const START: State := State(Waiting, Standing, Standing, false, 0, 0, 0)

  // ---- controllers -----------------------------------------------------------------------------

  // c has been initialised after it was last stopped.
  ghost predicate Ready(log: seq<Action>, c: Controller) {
    exists i {:trigger log[i]} :: 0 <= i < |log| && log[i] == Init(c) && forall j {:trigger log[j]} :: i < j < |log| ==> log[j] != Stop(c)
  }

  // No controller is stepped that is not ready.
  ghost predicate StepsReady(log: seq<Action>) {
    forall k {:trigger log[k]} :: 0 <= k < |log| && log[k].Step? ==> Ready(log[..k], log[k].c)
  }

  lemma ReadyNext(log: seq<Action>, a: Action, c: Controller)
    ensures Ready(log + [a], c) <==> a == Init(c) || (Ready(log, c) && a != Stop(c))
  {
    var more := log + [a];
    if a == Init(c) {
      assert more[|log|] == Init(c);
    } else if Ready(log, c) && a != Stop(c) {
      var i :| 0 <= i < |log| && log[i] == Init(c) && forall j {:trigger log[j]} :: i < j < |log| ==> log[j] != Stop(c);
      assert more[i] == Init(c);
    } else if Ready(more, c) {
      var i :| 0 <= i < |more| && more[i] == Init(c) && forall j {:trigger more[j]} :: i < j < |more| ==> more[j] != Stop(c);
      assert log[i] == Init(c);
      assert more[|log|] == a;
      forall j | i < j < |log| ensures log[j] != Stop(c) {
        assert more[j] == log[j];
      }
    }
  }

  lemma StepsNext(log: seq<Action>, a: Action)
    requires StepsReady(log) && (a.Step? ==> Ready(log, a.c))
    ensures StepsReady(log + [a])
  {
    var more := log + [a];
    forall k | 0 <= k < |more| && more[k].Step? ensures Ready(more[..k], more[k].c) {
      if k < |log| {
        assert more[..k] == log[..k] && more[k] == log[k];
      } else {
        assert more[..k] == log;
      }
    }
  }

  // ---- the invariant ---------------------------------------------------------------------------

  // The controller that runs is ready, and so is the one that is to replace it; they differ while switching only.
  ghost predicate Inv(s: State, log: seq<Action>) {
    && StepsReady(log)
    && (s.mode == PolicySwitching <==> s.current != s.target)
    && (s.mode == PolicyRunning || s.mode == PolicySwitching ==> Ready(log, s.current) && Ready(log, s.target))
    && (s.mode == Waiting || s.mode == InitPose ==> s.target == Standing)
  }

  lemma OneAction(s: State, log: seq<Action>, a: Action)
    requires StepsReady(log) && (a.Step? ==> Ready(log, a.c))
    ensures StepsReady(log + [a])
    ensures forall c :: Ready(log + [a], c) <==> a == Init(c) || (Ready(log, c) && a != Stop(c))
  {
    StepsNext(log, a);
    forall c ensures Ready(log + [a], c) <==> a == Init(c) || (Ready(log, c) && a != Stop(c)) {
      ReadyNext(log, a, c);
    }
  }

  // Recovery stops what runs, unless that is the recovery controller, which it initialises.
  lemma RecoverOk(s: State, log: seq<Action>)
    requires StepsReady(log) && (s.current == BeyondMimic ==> Ready(log, BeyondMimic))
    ensures StepsReady(log + RecoverActions(s)) && Ready(log + RecoverActions(s), BeyondMimic)
    ensures Recover(s).current == Recover(s).target == BeyondMimic
  {
    if s.current == BeyondMimic {
      assert log + [] == log;
    } else {
      OneAction(s, log, Stop(s.current));
      OneAction(s, log + [Stop(s.current)], Init(BeyondMimic));
      OneAction(s, log + [Stop(s.current)] + [Init(BeyondMimic)], WarmUp(BeyondMimic));
      assert log + [Stop(s.current)] + [Init(BeyondMimic)] + [WarmUp(BeyondMimic)] == log + RecoverActions(s);
    }
  }

  lemma EventOk(s: State, e: Event, log: seq<Action>)
    requires Inv(s, log) && Admits(s.mode, e)
    ensures Inv(Handle(s, e), log + HandleActions(s, e))
  {
    assert log + [] == log;
    match e
    case InitPoseEvent | Velocity =>
    case RunPolicy => OneAction(s, log, Init(Standing));
    case Enable(c) =>
      if c == BeyondMimic {
        RecoverFrom(s, log);
        RecoverOk(s, log);
      } else {
        OneAction(s, log, Init(c));
      }
    case PolicySwitch => OneAction(s, log, Stop(s.current));
  }

  // Before a policy runs, the current one is not the recovery controller.
  lemma RecoverFrom(s: State, log: seq<Action>)
    requires Inv(s, log)
    ensures s.current == BeyondMimic ==> Ready(log, BeyondMimic)
  {
  }

  lemma TickOk(cfg: Config, s: State, x: Sensed, log: seq<Action>)
    requires Inv(s, log)
    ensures Inv(Next(cfg, s, Tick(x)), log + TickActions(cfg, s, x))
  {
    assert log + [] == log;
    match s.mode
    case Waiting =>
    case InitPose => OneAction(s, log, WarmUp(s.target));
    case PolicyRunning =>
      var (fallen, s1) := FallCheck(cfg, s, x);
      var t := RunningTick(cfg, s, x);
      if fallen {
        RecoverOk(s1, log);
        OneAction(t, log + RecoverActions(s1), Step(t.current));
        assert log + RecoverActions(s1) + [Step(t.current)] == log + TickActions(cfg, s, x);
      } else {
        OneAction(t, log, Step(t.current));
        assert [] + [Step(t.current)] == [Step(t.current)];
      }
    case PolicySwitching =>
      OneAction(s, log, Step(s.current));
      OneAction(s, log + [Step(s.current)], WarmUp(s.target));
      assert log + [Step(s.current)] + [WarmUp(s.target)] == log + [Step(s.current), WarmUp(s.target)];
  }

  lemma NextOk(cfg: Config, s: State, i: Input, log: seq<Action>)
    requires Inv(s, log)
    ensures Inv(Next(cfg, s, i), log + Actions(cfg, s, i))
  {
    match i
    case Event(e) =>
      if Admits(s.mode, e) {
        EventOk(s, e, log);
      } else {
        assert log + [] == log;
      }
    case Tick(x) => TickOk(cfg, s, x, log);
  }

  // ---- all runs --------------------------------------------------------------------------------

  function After(cfg: Config, inputs: seq<Input>): State {
    if inputs == [] then START else Next(cfg, After(cfg, inputs[..|inputs| - 1]), inputs[|inputs| - 1])
  }

  function Log(cfg: Config, inputs: seq<Input>): seq<Action> {
    if inputs == [] then []
    else Log(cfg, inputs[..|inputs| - 1]) + Actions(cfg, After(cfg, inputs[..|inputs| - 1]), inputs[|inputs| - 1])
  }

  lemma {:induction false} InvAlways(cfg: Config, inputs: seq<Input>)
    ensures Inv(After(cfg, inputs), Log(cfg, inputs))
  {
    if inputs != [] {
      InvAlways(cfg, inputs[..|inputs| - 1]);
      NextOk(cfg, After(cfg, inputs[..|inputs| - 1]), inputs[|inputs| - 1], Log(cfg, inputs[..|inputs| - 1]));
    }
  }

  // In every run each step of a controller comes after an Init with no Stop in between; current and target
  // differ exactly while switching.
  lemma RunsAreSafe(cfg: Config, inputs: seq<Input>, k: nat)
    ensures k < |Log(cfg, inputs)| && Log(cfg, inputs)[k].Step? ==> Ready(Log(cfg, inputs)[..k], Log(cfg, inputs)[k].c)
    ensures After(cfg, inputs).mode == PolicySwitching <==> After(cfg, inputs).current != After(cfg, inputs).target
  {
    InvAlways(cfg, inputs);
  }

  // The switch stops the controller that ran, never the one that is to run.
  lemma SwitchStopsTheOther(cfg: Config, inputs: seq<Input>)
    requires After(cfg, inputs).mode == PolicySwitching
    ensures var s := After(cfg, inputs);
            var t := After(cfg, inputs + [Event(PolicySwitch)]);
            HandleActions(s, PolicySwitch) == [Stop(s.current)] && t.current == s.target != s.current
            && Ready(Log(cfg, inputs + [Event(PolicySwitch)]), t.current)
  {
    InvAlways(cfg, inputs);
    InvAlways(cfg, inputs + [Event(PolicySwitch)]);
    assert (inputs + [Event(PolicySwitch)])[..|inputs|] == inputs;
  }

  // ---- what an event leads to ------------------------------------------------------------------

  function AllTicks(xs: seq<Sensed>): seq<Input> { seq(|xs|, i requires 0 <= i < |xs| => Tick(xs[i])) }

  // Ticks alone leave a switch under way as it is.
  lemma {:induction false} TicksSwitch(cfg: Config, inputs: seq<Input>, xs: seq<Sensed>)
    requires After(cfg, inputs).mode == PolicySwitching
    ensures var s, t := After(cfg, inputs), After(cfg, inputs + AllTicks(xs));
            t.mode == PolicySwitching && t.current == s.current && t.target == s.target
  {
    if xs == [] {
      assert inputs + AllTicks(xs) == inputs;
    } else {
      var n := |xs| - 1;
      TicksSwitch(cfg, inputs, xs[..n]);
      assert inputs + AllTicks(xs) == (inputs + AllTicks(xs[..n])) + [Tick(xs[n])];
      AfterNext(cfg, inputs + AllTicks(xs[..n]), Tick(xs[n]));
    }
  }

  // Enabling another controller than the recovery one: it is initialised and waits, the current one goes on,
  // and whenever the switch is handled it runs.
  lemma EnableSwitches(cfg: Config, inputs: seq<Input>, c: Controller, xs: seq<Sensed>)
    requires After(cfg, inputs).mode == PolicyRunning && c != BeyondMimic && c != After(cfg, inputs).current
    ensures var run := inputs + [Event(Enable(c))];
            && After(cfg, run).mode == PolicySwitching && After(cfg, run).target == c
            && After(cfg, run).current == After(cfg, inputs).current
            && Ready(Log(cfg, run), c) && Log(cfg, run) == Log(cfg, inputs) + [Init(c)]
    ensures var run := inputs + [Event(Enable(c))] + AllTicks(xs) + [Event(PolicySwitch)];
            After(cfg, run).mode == PolicyRunning && After(cfg, run).current == c && Ready(Log(cfg, run), c)
  {
    var e := inputs + [Event(Enable(c))];
    AfterNext(cfg, inputs, Event(Enable(c)));
    LogNext(cfg, inputs, Event(Enable(c)));
    InvAlways(cfg, e);
    TicksSwitch(cfg, e, xs);
    AfterNext(cfg, e + AllTicks(xs), Event(PolicySwitch));
    InvAlways(cfg, e + AllTicks(xs) + [Event(PolicySwitch)]);
  }

  // Enabling the controller that runs changes nothing.
  lemma EnableCurrent(cfg: Config, inputs: seq<Input>)
    requires After(cfg, inputs).mode == PolicyRunning && After(cfg, inputs).current != BeyondMimic
    ensures var run := inputs + [Event(Enable(After(cfg, inputs).current))];
            After(cfg, run) == After(cfg, inputs) && Log(cfg, run) == Log(cfg, inputs)
  {
    AfterNext(cfg, inputs, Event(Enable(After(cfg, inputs).current)));
    LogNext(cfg, inputs, Event(Enable(After(cfg, inputs).current)));
  }

  // The recovery controller can be enabled in every state and runs at once; the others only while a policy runs.
  lemma RecoveryAnywhere(cfg: Config, inputs: seq<Input>, c: Controller)
    ensures var run := inputs + [Event(Enable(BeyondMimic))];
            && After(cfg, run).mode == PolicyRunning && After(cfg, run).current == After(cfg, run).target == BeyondMimic
            && Ready(Log(cfg, run), BeyondMimic)
            && (After(cfg, inputs).current != BeyondMimic ==>
                  Log(cfg, run) == Log(cfg, inputs) + [Stop(After(cfg, inputs).current), Init(BeyondMimic), WarmUp(BeyondMimic)])
    ensures c != BeyondMimic && After(cfg, inputs).mode != PolicyRunning ==>
            After(cfg, inputs + [Event(Enable(c))]) == After(cfg, inputs)
  {
    AfterNext(cfg, inputs, Event(Enable(BeyondMimic)));
    LogNext(cfg, inputs, Event(Enable(BeyondMimic)));
    InvAlways(cfg, inputs + [Event(Enable(BeyondMimic))]);
    AfterNext(cfg, inputs, Event(Enable(c)));
  }

  // From the start, through the initial pose, to standing.
  lemma StartsStanding(cfg: Config, xs: seq<Sensed>, ys: seq<Sensed>)
    ensures var run := AllTicks(xs) + [Event(InitPoseEvent)] + AllTicks(ys) + [Event(RunPolicy)];
            After(cfg, run).mode == PolicyRunning && After(cfg, run).current == Standing && Ready(Log(cfg, run), Standing)
  {
    var a := AllTicks(xs);
    assert [] + a == a;
    TicksWait(cfg, [], xs);
    AfterNext(cfg, a, Event(InitPoseEvent));
    TicksWait(cfg, a + [Event(InitPoseEvent)], ys);
    AfterNext(cfg, a + [Event(InitPoseEvent)] + AllTicks(ys), Event(RunPolicy));
    InvAlways(cfg, a + [Event(InitPoseEvent)] + AllTicks(ys) + [Event(RunPolicy)]);
  }

  lemma {:induction false} TicksWait(cfg: Config, inputs: seq<Input>, xs: seq<Sensed>)
    requires After(cfg, inputs).mode == Waiting || After(cfg, inputs).mode == InitPose
    ensures After(cfg, inputs + AllTicks(xs)) == After(cfg, inputs)
  {
    if xs == [] {
      assert inputs + AllTicks(xs) == inputs;
    } else {
      var n := |xs| - 1;
      TicksWait(cfg, inputs, xs[..n]);
      assert inputs + AllTicks(xs) == (inputs + AllTicks(xs[..n])) + [Tick(xs[n])];
      AfterNext(cfg, inputs + AllTicks(xs[..n]), Tick(xs[n]));
    }
  }

  // A tick of PolicyRunning steps exactly one controller, the one current after it, as its last action.
  lemma TickSteps(cfg: Config, inputs: seq<Input>, x: Sensed)
    requires After(cfg, inputs).mode == PolicyRunning
    ensures var run := inputs + [Tick(x)];
            var before, log := |Log(cfg, inputs)|, Log(cfg, run);
            && After(cfg, run).mode == PolicyRunning && before < |log| && log[..before] == Log(cfg, inputs)
            && log[|log| - 1] == Step(After(cfg, run).current)
            && forall k {:trigger log[k]} :: before <= k < |log| - 1 ==> !log[k].Step?
  {
    AfterNext(cfg, inputs, Tick(x));
    LogNext(cfg, inputs, Tick(x));
  }

  // A tick of PolicyRunning emits an event exactly if the recovery controller runs and its trajectory is at its
  // end.  When that event is handled next, the robot goes over to standing, and stands once the switch is handled.
  lemma RecoveryEnds(cfg: Config, inputs: seq<Input>, x: Sensed, xs: seq<Sensed>)
    requires After(cfg, inputs).mode == PolicyRunning
    ensures var up := inputs + [Tick(x)];
            Emitted(cfg, After(cfg, inputs), x).Some? <==> After(cfg, up).current == BeyondMimic && x.finished
    ensures var emitted := Emitted(cfg, After(cfg, inputs), x);
            emitted.Some? ==>
              var run := inputs + [Tick(x)] + [Event(emitted.value)];
              && After(cfg, run).mode == PolicySwitching && After(cfg, run).current == BeyondMimic
              && After(cfg, run).target == Standing && Ready(Log(cfg, run), Standing)
    ensures var emitted := Emitted(cfg, After(cfg, inputs), x);
            emitted.Some? ==>
              var run := inputs + [Tick(x)] + [Event(emitted.value)] + AllTicks(xs) + [Event(PolicySwitch)];
              After(cfg, run).mode == PolicyRunning && After(cfg, run).current == Standing && Ready(Log(cfg, run), Standing)
  {
    AfterNext(cfg, inputs, Tick(x));
    if Emitted(cfg, After(cfg, inputs), x).Some? {
      EnableSwitches(cfg, inputs + [Tick(x)], Standing, xs);
    }
  }

  lemma LogNext(cfg: Config, inputs: seq<Input>, i: Input)
    ensures Log(cfg, inputs + [i]) == Log(cfg, inputs) + Actions(cfg, After(cfg, inputs), i)
  {
    assert (inputs + [i])[..|inputs|] == inputs;
  }

  // ---- how long a switch takes -----------------------------------------------------------------

  // The state after ticks alone.
  function Ticks(cfg: Config, s: State, xs: seq<Sensed>): State {
    if xs == [] then s else Next(cfg, Ticks(cfg, s, xs[..|xs| - 1]), Tick(xs[|xs| - 1]))
  }

  // The last of the ticks emits the switch.
  predicate Ends(cfg: Config, s: State, xs: seq<Sensed>) {
    xs != [] && Emitted(cfg, Ticks(cfg, s, xs[..|xs| - 1]), xs[|xs| - 1]) == Some(PolicySwitch)
  }

  // It is the first that does.
  ghost predicate EndsFirst(cfg: Config, s: State, xs: seq<Sensed>) {
    Ends(cfg, s, xs) && forall k {:trigger xs[..k]} :: 0 <= k < |xs| ==> !Ends(cfg, s, xs[..k])
  }

  // When the timer of a switch with these ticks was started.
  function Begun(s: State, xs: seq<Sensed>): nat
    requires xs != []
  {
    if s.switching then s.since else xs[0].now
  }

  predicate Within(cfg: Config, s: State, xs: seq<Sensed>, n: nat)
    requires n <= |xs|
  {
    forall k {:trigger xs[k]} :: 0 <= k < n ==> xs[k].now - Begun(s, xs) < cfg.switchingTime
  }

  lemma {:induction false} StillSwitching(cfg: Config, s: State, xs: seq<Sensed>, n: nat)
    requires s.mode == PolicySwitching && n <= |xs| && Within(cfg, s, xs, n)
    ensures Ticks(cfg, s, xs[..n]) == if n == 0 then s else s.(since := Begun(s, xs), switching := true)
  {
    if n > 0 {
      StillSwitching(cfg, s, xs, n - 1);
      assert xs[..n][..n - 1] == xs[..n - 1] && xs[..n][n - 1] == xs[n - 1];
    }
  }

  lemma EndsIf(cfg: Config, s: State, xs: seq<Sensed>, n: nat)
    requires s.mode == PolicySwitching && n < |xs| && Within(cfg, s, xs, n)
    ensures Ends(cfg, s, xs[..n + 1]) <==> xs[n].now - Begun(s, xs) >= cfg.switchingTime
  {
    StillSwitching(cfg, s, xs, n);
    assert xs[..n + 1][..n] == xs[..n] && xs[..n + 1][n] == xs[n];
  }

  lemma {:induction false} NotYet(cfg: Config, s: State, xs: seq<Sensed>, n: nat)
    requires s.mode == PolicySwitching && n <= |xs|
    requires forall k {:trigger xs[..k]} :: 0 <= k <= n ==> !Ends(cfg, s, xs[..k])
    ensures Within(cfg, s, xs, n)
  {
    if n > 0 {
      NotYet(cfg, s, xs, n - 1);
      EndsIf(cfg, s, xs, n - 1);
    }
  }

  // A switch ends with the first tick that comes switchingTime after its timer was started: by its own
  // first tick if it is entered with the flag down, by an earlier switch if it is entered with the flag up.
  lemma SwitchEnds(cfg: Config, s: State, xs: seq<Sensed>)
    requires s.mode == PolicySwitching && xs != []
    ensures EndsFirst(cfg, s, xs) <==>
            Within(cfg, s, xs, |xs| - 1) && xs[|xs| - 1].now - Begun(s, xs) >= cfg.switchingTime
  {
    var n := |xs| - 1;
    assert xs[..n + 1] == xs;
    if EndsFirst(cfg, s, xs) {
      NotYet(cfg, s, xs, n);
      EndsIf(cfg, s, xs, n);
    } else if Within(cfg, s, xs, n) {
      forall k {:trigger xs[..k]} | 0 <= k < |xs| ensures !Ends(cfg, s, xs[..k]) {
        if k > 0 {
          EndsIf(cfg, s, xs, k - 1);
        }
      }
      EndsIf(cfg, s, xs, n);
    }
  }

  // Before switchingTime has passed since the first tick.
  ghost predicate EndsEarly(cfg: Config, s: State, xs: seq<Sensed>) {
    xs != [] && EndsFirst(cfg, s, xs) && xs[|xs| - 1].now - xs[0].now < cfg.switchingTime
  }

  // A switch whose first tick is x can end early exactly if it is entered with the flag up and a timer
  // started before that tick.
  lemma EarlyIffStale(cfg: Config, s: State, x: Sensed)
    requires s.mode == PolicySwitching
    ensures (exists xs {:trigger EndsEarly(cfg, s, xs)} :: EndsEarly(cfg, s, xs) && xs[0] == x) <==>
            s.switching && s.since < x.now && cfg.switchingTime > 0
  {
    if xs :| EndsEarly(cfg, s, xs) && xs[0] == x {
      SwitchEnds(cfg, s, xs);
    }
    if s.switching && s.since < x.now && cfg.switchingTime > 0 {
      var xs := if x.now - s.since >= cfg.switchingTime then [x] else [x, x.(now := s.since + cfg.switchingTime)];
      SwitchEnds(cfg, s, xs);
      assert EndsEarly(cfg, s, xs);
    }
  }

  // ---- when the flag is up ---------------------------------------------------------------------

  // A tick of PolicySwitching sets the flag anew, and a recovery clears it.
  predicate SetsFlag(cfg: Config, s: State, i: Input) {
    || (s.mode == PolicySwitching && i.Tick?)
    || (i == Event(Enable(BeyondMimic)) && Admits(s.mode, i.e))
    || Triggers(cfg, s, i)
  }

  ghost predicate KeptFrom(cfg: Config, inputs: seq<Input>, k: nat) {
    forall j {:trigger inputs[..j]} :: k < j < |inputs| ==> !SetsFlag(cfg, After(cfg, inputs[..j]), inputs[j])
  }

  // Input k is a switch that is handled while the flag is up.
  predicate Late(cfg: Config, inputs: seq<Input>, k: nat) {
    && k < |inputs| && inputs[k] == Event(PolicySwitch)
    && After(cfg, inputs[..k]).mode == PolicySwitching && After(cfg, inputs[..k]).switching
  }

  lemma KeptBefore(cfg: Config, inputs: seq<Input>, k: nat)
    requires inputs != [] && KeptFrom(cfg, inputs, k)
    ensures KeptFrom(cfg, inputs[..|inputs| - 1], k)
  {
    var before := inputs[..|inputs| - 1];
    forall j {:trigger before[..j]} | k < j < |before| ensures !SetsFlag(cfg, After(cfg, before[..j]), before[j]) {
      assert before[..j] == inputs[..j] && before[j] == inputs[j];
    }
  }

  lemma {:induction false} LateKept(cfg: Config, inputs: seq<Input>, k: nat)
    requires Late(cfg, inputs, k) && KeptFrom(cfg, inputs, k)
    ensures After(cfg, inputs).switching
  {
    var n := |inputs| - 1;
    if k < n {
      assert inputs[..n][..k] == inputs[..k];
      KeptBefore(cfg, inputs, k);
      LateKept(cfg, inputs[..n], k);
      assert !SetsFlag(cfg, After(cfg, inputs[..n]), inputs[n]);
    }
  }

  lemma {:induction false} UpWasLate(cfg: Config, inputs: seq<Input>) returns (k: nat)
    requires After(cfg, inputs).mode != PolicySwitching && After(cfg, inputs).switching
    ensures Late(cfg, inputs, k) && KeptFrom(cfg, inputs, k)
  {
    var n := |inputs| - 1;
    var before, s := inputs[..n], After(cfg, inputs[..n]);
    assert !SetsFlag(cfg, s, inputs[n]);
    if s.mode == PolicySwitching {
      k := n;
    } else {
      k := UpWasLate(cfg, before);
      assert before[..k] == inputs[..k];
      forall j {:trigger inputs[..j]} | k < j < |inputs| ensures !SetsFlag(cfg, After(cfg, inputs[..j]), inputs[j]) {
        if j < n {
          assert before[..j] == inputs[..j];
        }
      }
    }
  }

  // In every run, outside PolicySwitching the flag is up exactly if a switch was handled while it was up
  // and since then there was neither a tick of PolicySwitching nor a recovery.
  lemma FlagUpIff(cfg: Config, inputs: seq<Input>)
    requires After(cfg, inputs).mode != PolicySwitching
    ensures After(cfg, inputs).switching <==> exists k: nat {:trigger Late(cfg, inputs, k)} :: Late(cfg, inputs, k) && KeptFrom(cfg, inputs, k)
  {
    if After(cfg, inputs).switching {
      var k := UpWasLate(cfg, inputs);
    }
    if k: nat :| Late(cfg, inputs, k) && KeptFrom(cfg, inputs, k) {
      LateKept(cfg, inputs, k);
    }
  }

  // The controllers are switched as the timer says, but another tick comes before the event is handled.
  function LateRun(cfg: Config, t: nat, u: nat): seq<Input>
    requires cfg.switchingTime > 0
  {
    [Event(InitPoseEvent), Event(RunPolicy), Event(Enable(Walking)), Tick(Sensed(t, false, false)),
     Tick(Sensed(t + cfg.switchingTime, false, false)), Tick(Sensed(u, false, false)), Event(PolicySwitch), Event(Enable(Robust))]
  }

  // The next switch can then end with its first tick.
  lemma StaleTimer(cfg: Config, t: nat, u: nat)
    requires cfg.switchingTime > 0
    ensures var run := LateRun(cfg, t, u);
            && Emitted(cfg, After(cfg, run[..4]), run[4].s) == Some(PolicySwitch) && Late(cfg, run, 6)
            && After(cfg, run).mode == PolicySwitching && After(cfg, run).switching && After(cfg, run).since == u
            && EndsEarly(cfg, After(cfg, run), [Sensed(u + cfg.switchingTime, false, false)])
  {
    var run := LateRun(cfg, t, u);
    Unroll(cfg, run);
    SwitchEnds(cfg, After(cfg, run), [Sensed(u + cfg.switchingTime, false, false)]);
  }

  lemma Unroll(cfg: Config, run: seq<Input>)
    requires |run| == 8
    ensures After(cfg, run[..0]) == START && run[..8] == run
    ensures forall k {:trigger run[..k]} :: 0 <= k < 8 ==> After(cfg, run[..k + 1]) == Next(cfg, After(cfg, run[..k]), run[k])
  {
    forall k {:trigger run[..k]} | 0 <= k < 8 ensures After(cfg, run[..k + 1]) == Next(cfg, After(cfg, run[..k]), run[k]) {
      assert run[..k + 1][..k] == run[..k];
    }
  }

  // ---- recovery from a fall --------------------------------------------------------------------

  predicate Triggers(cfg: Config, s: State, i: Input) { i.Tick? && s.mode == PolicyRunning && FallCheck(cfg, s, i.s).0 }

  // Input k is a tick at which recovery from a fall begins.
  predicate Recovery(cfg: Config, inputs: seq<Input>, k: nat) {
    k < |inputs| && Triggers(cfg, After(cfg, inputs[..k]), inputs[k])
  }

  // The clock never goes back.
  predicate Monotone(inputs: seq<Input>) {
    forall j, k :: 0 <= j < k < |inputs| && inputs[j].Tick? && inputs[k].Tick? ==> inputs[j].s.now <= inputs[k].s.now
  }

  // The clock at the last recovery, or 0.
  function LastRecovery(cfg: Config, inputs: seq<Input>): nat {
    if inputs == [] then 0
    else
      var n := |inputs| - 1;
      if Recovery(cfg, inputs, n) then inputs[n].s.now else LastRecovery(cfg, inputs[..n])
  }

  // A tick of PolicyRunning after which no tilt is pending: recovery off or under way, no tilt, or a recovery.
  predicate Breaks(cfg: Config, s: State, i: Input) {
    i.Tick? && s.mode == PolicyRunning && (!cfg.enabled || s.current == BeyondMimic || !i.s.tilted || Triggers(cfg, s, i))
  }

  // How many ticks of PolicyRunning there have been since the last such; ticks of other states do not count.
  function Streak(cfg: Config, inputs: seq<Input>): nat {
    if inputs == [] then 0
    else
      var n := |inputs| - 1;
      var s := After(cfg, inputs[..n]);
      if Breaks(cfg, s, inputs[n]) then 0
      else Streak(cfg, inputs[..n]) + (if inputs[n].Tick? && s.mode == PolicyRunning then 1 else 0)
  }

  lemma {:induction false} Counted(cfg: Config, inputs: seq<Input>)
    ensures After(cfg, inputs).tilts == Streak(cfg, inputs) && After(cfg, inputs).lastTrigger == LastRecovery(cfg, inputs)
  {
    if inputs != [] {
      Counted(cfg, inputs[..|inputs| - 1]);
    }
  }

  // In every run, a tick of PolicyRunning begins a recovery exactly if recovery is on and not under way, the
  // robot is tilted, this is at least tick number confirmCycles since the last untilted one or recovery, and
  // the last recovery is the cooldown ago or was at clock reading 0.
  lemma RecoveryIff(cfg: Config, inputs: seq<Input>, x: Sensed)
    requires After(cfg, inputs).mode == PolicyRunning
    ensures Recovery(cfg, inputs + [Tick(x)], |inputs|) <==>
            && cfg.enabled && After(cfg, inputs).current != BeyondMimic && x.tilted
            && Streak(cfg, inputs) + 1 >= cfg.confirmCycles
            && (LastRecovery(cfg, inputs) == 0 || x.now - LastRecovery(cfg, inputs) >= cfg.cooldown)
  {
    Counted(cfg, inputs);
    assert (inputs + [Tick(x)])[..|inputs|] == inputs;
  }

  lemma {:induction false} TriggerKept(cfg: Config, inputs: seq<Input>, j: nat, k: nat)
    requires j < k <= |inputs| && Monotone(inputs) && Recovery(cfg, inputs, j)
    ensures After(cfg, inputs[..k]).lastTrigger >= inputs[j].s.now
  {
    assert inputs[..k][..k - 1] == inputs[..k - 1] && inputs[..k][k - 1] == inputs[k - 1];
    if j < k - 1 {
      TriggerKept(cfg, inputs, j, k - 1);
    }
  }

  // Any recovery behind the first n inputs comes the cooldown after the last of them.
  ghost predicate KeepsApart(cfg: Config, inputs: seq<Input>, n: nat) {
    0 < n <= |inputs| && inputs[n - 1].Tick? ==>
      forall k: nat {:trigger Recovery(cfg, inputs, k)} :: n <= k && Recovery(cfg, inputs, k) ==>
        inputs[k].s.now - inputs[n - 1].s.now >= cfg.cooldown
  }

  // After a recovery at the end of a run the next one is the cooldown away, however the run goes on, exactly
  // if the clock did not read 0 (or there is no cooldown).
  lemma RecoveriesApart(cfg: Config, inputs: seq<Input>)
    requires inputs != [] && Monotone(inputs) && Recovery(cfg, inputs, |inputs| - 1)
    ensures (forall more {:trigger inputs + more} :: Monotone(inputs + more) ==> KeepsApart(cfg, inputs + more, |inputs|)) <==>
            inputs[|inputs| - 1].s.now != 0 || cfg.cooldown <= 0
  {
    var j := |inputs| - 1;
    if inputs[j].s.now != 0 || cfg.cooldown <= 0 {
      forall more {:trigger inputs + more} | Monotone(inputs + more) ensures KeepsApart(cfg, inputs + more, |inputs|) {
        Apart(cfg, inputs, inputs + more);
      }
    } else {
      var more := FallAgain(cfg);
      FallAgainRecovers(cfg, inputs);
      assert Monotone(inputs + more) && Recovery(cfg, inputs + more, |inputs + more| - 1);
    }
  }

  lemma Apart(cfg: Config, inputs: seq<Input>, run: seq<Input>)
    requires inputs != [] && inputs <= run && Monotone(run) && Recovery(cfg, inputs, |inputs| - 1)
    requires inputs[|inputs| - 1].s.now != 0 || cfg.cooldown <= 0
    ensures KeepsApart(cfg, run, |inputs|)
  {
    var j := |inputs| - 1;
    assert run[..j] == inputs[..j];
    forall k: nat | |inputs| <= k && Recovery(cfg, run, k) ensures run[k].s.now - run[j].s.now >= cfg.cooldown {
      TriggerKept(cfg, run, j, k);
    }
  }

  // Standing up, and falling again, while the clock reads 0.
  function FallAgain(cfg: Config): seq<Input> {
    [Event(Enable(Standing)), Event(PolicySwitch)] + Tilted(if cfg.confirmCycles >= 1 then cfg.confirmCycles else 1)
  }

  function Tilted(n: nat): seq<Input> { seq(n, i => Tick(Sensed(0, true, false))) }

  lemma FallAgainRecovers(cfg: Config, inputs: seq<Input>)
    requires inputs != [] && Monotone(inputs) && Recovery(cfg, inputs, |inputs| - 1) && inputs[|inputs| - 1].s.now == 0
    ensures var run := inputs + FallAgain(cfg);
            Monotone(run) && Recovery(cfg, run, |run| - 1) && run[|run| - 1].s.now == 0
  {
    var n := if cfg.confirmCycles >= 1 then cfg.confirmCycles else 1;
    var up := inputs + [Event(Enable(Standing))] + [Event(PolicySwitch)];
    StandsUp(cfg, inputs);
    TiltsAdd(cfg, up, n - 1);
    var run := inputs + FallAgain(cfg);
    hide After, Inv;
    assert run == up + Tilted(n);
    assert run[..|run| - 1] == up + Tilted(n - 1);
  }

  lemma StandsUp(cfg: Config, inputs: seq<Input>)
    requires inputs != [] && Recovery(cfg, inputs, |inputs| - 1) && inputs[|inputs| - 1].s.now == 0
    ensures cfg.enabled
    ensures var s := After(cfg, inputs + [Event(Enable(Standing))] + [Event(PolicySwitch)]);
            s.mode == PolicyRunning && s.current == Standing && s.tilts == 0 && s.lastTrigger == 0
  {
    AfterNext(cfg, inputs, Event(Enable(Standing)));
    AfterNext(cfg, inputs + [Event(Enable(Standing))], Event(PolicySwitch));
  }

  // Fewer tilted ticks than confirmCycles are counted and do nothing else.
  lemma {:induction false} TiltsAdd(cfg: Config, inputs: seq<Input>, n: nat)
    requires var s := After(cfg, inputs); s.mode == PolicyRunning && s.current != BeyondMimic && s.tilts == 0
    requires cfg.enabled && (n == 0 || n < cfg.confirmCycles)
    ensures After(cfg, inputs + Tilted(n)) == After(cfg, inputs).(tilts := n)
  {
    if n == 0 {
      assert inputs + Tilted(0) == inputs;
    } else {
      TiltsAdd(cfg, inputs, n - 1);
      assert inputs + Tilted(n) == (inputs + Tilted(n - 1)) + [Tick(Sensed(0, true, false))];
      AfterNext(cfg, inputs + Tilted(n - 1), Tick(Sensed(0, true, false)));
    }
  }

  lemma AfterNext(cfg: Config, inputs: seq<Input>, i: Input)
    ensures After(cfg, inputs + [i]) == Next(cfg, After(cfg, inputs), i)
  {
    assert (inputs + [i])[..|inputs|] == inputs;
  }

  // ---- the machine -----------------------------------------------------------------------------

  class Machine {
    const cfg: Config
    var mode: Mode
    var current: Controller
    var target: Controller
    var switching: bool
    var since: nat
    var tilts: nat
    var lastTrigger: nat
    // What has been done to the controllers, and the inputs there have been.
    ghost var log: seq<Action>
    ghost var inputs: seq<Input>

    function Current(): State
      reads this
    {
      State(mode, current, target, switching, since, tilts, lastTrigger)
    }

    ghost predicate Valid()
      reads this
    {
      Current() == After(cfg, inputs) && log == Log(cfg, inputs) && Inv(Current(), log)
    }

    constructor (config: Config)
      ensures Valid() && cfg == config && inputs == [] && log == []
    {
      cfg := config;
      mode, current, target, switching, since, tilts, lastTrigger := Waiting, Standing, Standing, false, 0, 0, 0;
      log, inputs := [], [];
    }

    // One event or tick; what a tick does to the controllers, and what event it emits.
    method React(i: Input) returns (emitted: Option<Event>)
      requires Valid()
      modifies this
      ensures Valid() && inputs == old(inputs) + [i]
      ensures Current() == Next(cfg, old(Current()), i) && log == old(log) + Actions(cfg, old(Current()), i)
      ensures emitted == if i.Tick? then Emitted(cfg, old(Current()), i.s) else None
    {
      InvAlways(cfg, inputs + [i]);
      assert (inputs + [i])[..|inputs|] == inputs;
      inputs := inputs + [i];
      emitted := None;
      match i {
        case Event(e) =>
          if Admits(mode, e) {
            OnEvent(e);
          }
        case Tick(x) =>
          match mode {
            case Waiting =>
            case InitPose => log := log + [WarmUp(target)];
            case PolicyRunning => emitted := OnRunning(x);
            case PolicySwitching => emitted := OnSwitching(x);
          }
      }
    }

    method OnEvent(e: Event)
      modifies this`mode, this`current, this`target, this`switching, this`log
      ensures Current() == Handle(old(Current()), e) && log == old(log) + HandleActions(old(Current()), e)
    {
      match e {
        case InitPoseEvent => mode := InitPose;
        case RunPolicy =>
          current := Standing;
          log := log + [Init(current)];
          mode := PolicyRunning;
        case Enable(c) =>
          if c == BeyondMimic {
            EnableRecovery();
            mode := PolicyRunning;
          } else if current == c {
            mode := PolicyRunning;
          } else {
            target := c;
            log := log + [Init(target)];
            mode := PolicySwitching;
          }
        case PolicySwitch =>
          log := log + [Stop(current)];
          current := target;
          mode := PolicyRunning;
        case Velocity =>
      }
    }

    method EnableRecovery()
      modifies this`current, this`target, this`switching, this`log
      ensures Current() == Recover(old(Current())) && log == old(log) + RecoverActions(old(Current()))
    {
      if current == BeyondMimic {
        target := BeyondMimic;
        switching := false;
        return;
      }
      log := log + [Stop(current)];
      current := BeyondMimic;
      target := BeyondMimic;
      log := log + [Init(current)];
      log := log + [WarmUp(current)];
      switching := false;
    }

    method ShouldRecover(x: Sensed) returns (fallen: bool)
      modifies this`tilts, this`lastTrigger
      ensures (fallen, Current()) == FallCheck(cfg, old(Current()), x)
    {
      if !cfg.enabled || current == BeyondMimic {
        tilts := 0;
        return false;
      }
      if !x.tilted {
        tilts := 0;
        return false;
      }
      tilts := tilts + 1;
      if tilts < cfg.confirmCycles {
        return false;
      }
      if lastTrigger != 0 {
        if x.now - lastTrigger < cfg.cooldown {
          return false;
        }
      }
      lastTrigger := x.now;
      tilts := 0;
      return true;
    }

    method OnRunning(x: Sensed) returns (emitted: Option<Event>)
      requires mode == PolicyRunning
      modifies this`current, this`target, this`switching, this`tilts, this`lastTrigger, this`log
      ensures Current() == RunningTick(cfg, old(Current()), x) && log == old(log) + TickActions(cfg, old(Current()), x)
      ensures emitted == Emitted(cfg, old(Current()), x)
    {
      var fallen := ShouldRecover(x);
      if fallen {
        EnableRecovery();
      }
      log := log + [Step(current)];
      emitted := if current == BeyondMimic && x.finished then Some(Enable(Standing)) else None;
    }

    method OnSwitching(x: Sensed) returns (emitted: Option<Event>)
      requires mode == PolicySwitching
      modifies this`switching, this`since, this`log
      ensures Current() == SwitchingTick(cfg, old(Current()), x) && log == old(log) + TickActions(cfg, old(Current()), x)
      ensures emitted == Emitted(cfg, old(Current()), x)
    {
      emitted := None;
      if !switching {
        switching := true;
        since := x.now;
      }
      if x.now - since < cfg.switchingTime {
        log := log + [Step(current)];
        log := log + [WarmUp(target)];
      } else {
        switching := false;
        emitted := Some(PolicySwitch);
      }
    }
  }
}
