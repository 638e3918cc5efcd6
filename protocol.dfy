/** The vocabulary shared by the coordinator and its workers: the simulation
    they drive (opaque, deterministic) and the messages on each channel. */
module Protocol {

  datatype Option<T> = None | Some(value: T)

  /** The outcome of one call into the simulation: a Python exception is `Raises`. */
  datatype Call<T> = Returns(value: T) | Raises

  // The simulation is opaque: its state, the environment factory that builds
  // it, and the values it consumes and produces.
  type SimState
  type EnvFn
  type Action
  type Obs
  type Reward
  type Info
  type Space

  /** What `env.step` returns: the next state with (ob, reward, done, info). */
  datatype Transition = Transition(next: SimState, ob: Obs, reward: Reward, done: bool, info: Info)

  /** What `env.reset` returns: the next state with the fresh observation. */
  datatype Restart = Restart(next: SimState, ob: Obs)

  /** The Python exceptions the coordinator raises itself. */
  datatype PyError = ValueError | IndexError

  /** The payload of a `monitor` command. */
  datatype MonitorConfig = MonitorConfig(isMonitor: bool, isTrain: bool, experimentDir: string, recordVideoEvery: int)

  /** The simulation as a deterministic state machine. `make` runs the
      environment factory inside the worker; the spaces are plain attributes. */
  datatype Dynamics = Dynamics(
    make: EnvFn -> Call<SimState>,
    step: (SimState, Action) -> Call<Transition>,
    reset: SimState -> Call<Restart>,
    monitor: (SimState, MonitorConfig) -> Call<SimState>,
    render: SimState -> Call<SimState>,
    seed: (SimState, Option<int>) -> Call<SimState>,
    actionSpace: SimState -> Space,
    observationSpace: SimState -> Space)

  /** A command, coordinator to worker. `Unknown` is any other tag. */
  datatype Command =
    | Step(action: Action)
    | Reset
    | Close
    | GetSpaces
    | Monitor(config: MonitorConfig)
    | Render
    | Seed(seed: Option<int>)
    | Unknown(tag: string)

  /** A reply, worker to coordinator. */
  datatype Reply =
    | StepReply(ob: Obs, reward: Reward, done: bool, info: Info)
    | ResetReply(ob: Obs)
    | SpacesReply(actionSpace: Space, observationSpace: Space)

  /** The reply rule of the protocol: these three commands are answered once,
      every other command never. */
  predicate ExpectsReply(cmd: Command) {
    cmd.Step? || cmd.Reset? || cmd.GetSpaces?
  }

  /** `r` is the kind of reply that answers `cmd`. */
  predicate Answers(cmd: Command, r: Reply) {
    (cmd.Step? && r.StepReply?) || (cmd.Reset? && r.ResetReply?) || (cmd.GetSpaces? && r.SpacesReply?)
  }

  /** How many replies a run of commands asks for. */
  function CountExpecting(cmds: seq<Command>): (k: nat)
    ensures k <= |cmds|
  {
    if cmds == [] then 0
    else (if ExpectsReply(cmds[0]) then 1 else 0) + CountExpecting(cmds[1..])
  }

  /** Replies asked for by two runs of commands add up. */
  lemma {:induction false} CountExpectingAppend(a: seq<Command>, b: seq<Command>)
    ensures CountExpecting(a + b) == CountExpecting(a) + CountExpecting(b)
    decreases |a|
  {
    if a != [] {
      assert (a + b)[0] == a[0] && (a + b)[1..] == a[1..] + b;
      CountExpectingAppend(a[1..], b);
    } else {
      assert a + b == b;
    }
  }
}
