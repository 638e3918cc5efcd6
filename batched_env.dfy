/** The coordinator object the training code holds: the channels to its
    workers, the shared spaces and the per-worker step counters, all updated
    in place by its methods. Each method is proved against the function of
    module `Coordinator` that says what it does to the pool. */
module Batched {
  import opened Protocol
  import opened WorkerLoop
  import opened Channels
  import opened StepCounters
  import opened Coordinator

  // ----- the coordinator's side of the channels

  /** `pipe.send((cmd, data))` for each send, in order: each command joins
      its worker's channel. */
  method SendEach(ws0: seq<Worker>, sends: seq<Send>) returns (ws: seq<Worker>)
    requires Routed(sends, |ws0|)
    ensures ws == Deliver(ws0, sends)
  {
    ws := ws0;
    var k := 0;
    while k < |sends|
      invariant 0 <= k <= |sends|
      invariant ws == Deliver(ws0, sends[..k])
    {
      var s := sends[k];
      ws := ws[s.to := Enqueue(ws[s.to], [s.cmd])];
      assert sends[..k + 1][..k] == sends[..k];
      k := k + 1;
    }
    assert sends[..|sends|] == sends;
  }

  /** `pipe.recv()` on each listed channel in turn; a channel with nothing
      to receive is where the call waits forever. */
  method ReceiveEach(ws0: seq<Worker>, ids: seq<nat>) returns (r: Outcome<seq<Reply>>, ws: seq<Worker>)
    requires InRange(ids, |ws0|)
    ensures Gathered(r, ws) == Collect(ws0, ids)
  {
    ws := ws0;
    var replies: seq<Reply> := [];
    var k := 0;
    assert ids[0..] == ids;
    var start := Collect(ws, ids);
    if start.result.Returned? {
      assert [] + start.result.value == start.result.value;
    }
    while k < |ids|
      invariant 0 <= k <= |ids| && |ws| == |ws0|
      invariant Collect(ws0, ids) == Prefixed(replies, Collect(ws, ids[k..]))
    {
      var i := ids[k];
      assert ids[k..][0] == i && ids[k..][1..] == ids[k + 1..];
      if ws[i].outbox == [] {
        r := Blocked(i);
        return;
      }
      var rest := Collect(ws[i := ws[i].(outbox := ws[i].outbox[1..])], ids[k + 1..]);
      if rest.result.Returned? {
        assert replies + ([ws[i].outbox[0]] + rest.result.value)
            == (replies + [ws[i].outbox[0]]) + rest.result.value;
      }
      replies := replies + [ws[i].outbox[0]];
      ws := ws[i := ws[i].(outbox := ws[i].outbox[1..])];
      k := k + 1;
    }
    assert replies + [] == replies;
    r := Returned(replies);
  }

  /** Create and start the worker processes, one per factory, each with its
      seed. */
  method SpawnEach(dyn: Dynamics, fns: seq<EnvFn>, seeds: seq<int>) returns (ws: seq<Worker>)
    requires |fns| == |seeds|
    ensures ws == Spawned(dyn, fns, seeds)
  {
    ws := [];
    var i := 0;
    while i < |fns|
      invariant 0 <= i <= |fns| && |ws| == i
      invariant forall j :: 0 <= j < i ==> ws[j] == Spawn(dyn, fns[j], seeds[j])
    {
      ws := ws + [Spawn(dyn, fns[i], seeds[i])];
      i := i + 1;
    }
  }

  /** Start the workers, then ask worker 0 for the spaces and wait for its
      answer: what `Construct` describes. */
  method Handshake(dyn: Dynamics, fns: seq<EnvFn>, seeds: seq<int>) returns (r: Outcome<seq<Reply>>, ws: seq<Worker>)
    requires |fns| == |seeds| && |fns| >= 1
    ensures var a := Construct(dyn, fns, seeds);
      && ws == a.pool.workers && |ws| == |fns|
      && (r.Returned? <==> a.result.Returned?)
      && (r.Returned? ==>
            && |r.value| == 1 && r.value[0].SpacesReply? && Quiescent(ws)
            && a.result.value == Spaces(r.value[0].actionSpace, r.value[0].observationSpace)
            && a.pool.counters == Zeros(|fns|))
  {
    ws := SpawnEach(dyn, fns, seeds);
    ws := SendEach(ws, Sends([0], [GetSpaces]));
    ws := RunEach(dyn, ws);
    r, ws := ReceiveEach(ws, [0]);
    ConstructShape(dyn, fns, seeds);
  }

  /** Send `cmds[k]` to worker `ids[k]` for each `k`, let the workers serve,
      then receive from each listed worker in order. */
  method RoundTripEach(dyn: Dynamics, ws0: seq<Worker>, ids: seq<nat>, cmds: seq<Command>)
    returns (r: Outcome<seq<Reply>>, ws: seq<Worker>)
    requires InRange(ids, |ws0|) && |cmds| == |ids|
    ensures Gathered(r, ws) == RoundTrip(dyn, ws0, ids, cmds)
  {
    ws := SendEach(ws0, Sends(ids, cmds));
    ws := RunEach(dyn, ws);
    r, ws := ReceiveEach(ws, ids);
  }

  /** The channel traffic of `step(actions)`: send `step` to each worker that
      has an action, let the workers serve, receive from every worker. */
  method StepEach(dyn: Dynamics, ws0: seq<Worker>, actions: seq<Action>)
    returns (r: Outcome<seq<Reply>>, ws: seq<Worker>)
    ensures Gathered(r, ws) == StepExchange(dyn, ws0, actions)
  {
    var n := |ws0|;
    var m := Zipped(n, |actions|);
    assert InRange(Indices(m), n);
    ws := SendEach(ws0, Sends(Indices(m), StepCommands(actions[..m])));
    ws := RunEach(dyn, ws);
    r, ws := ReceiveEach(ws, Indices(n));
  }

  /** Each worker process, in turn, serves what is waiting for it. */
  method RunEach(dyn: Dynamics, ws0: seq<Worker>) returns (ws: seq<Worker>)
    ensures ws == RunAll(dyn, ws0)
  {
    ws := ws0;
    var j := 0;
    while j < |ws|
      invariant 0 <= j <= |ws| == |ws0|
      invariant forall i :: 0 <= i < j ==> ws[i] == Serve(dyn, ws0[i])
      invariant forall i :: j <= i < |ws| ==> ws[i] == ws0[i]
    {
      var w := RunWorker(dyn, ws[j]);
      ws := ws[j := w];
      j := j + 1;
    }
  }

  /** The true step counts once `reset(mask)` has restarted the selected
      episodes: all of them without a mask, the flagged ones with a mask. */
  ghost function ResetSteps(steps: seq<nat>, mask: Option<seq<bool>>): (s: seq<nat>)
    requires mask.Some? ==> |mask.value| == |steps|
    ensures |s| == |steps|
    ensures forall i :: 0 <= i < |steps| ==> s[i] == if mask.None? || mask.value[i] then 0 else steps[i]
  {
    seq(|steps|, i requires 0 <= i < |steps| => if mask.None? || mask.value[i] then 0 else steps[i])
  }

  class BatchedEnv {
    /** The simulation every worker runs. */
    const dyn: Dynamics
    /** The workers, each with its end of its channel; index is identity. */
    var workers: seq<Worker>
    /** `_step_counters`, an int16 array; null before construction ends and after `close`. */
    var counters: array?<Int16>
    var numEnvs: Option<nat>
    var actionSpace: Option<Space>
    var observationSpace: Option<Space>
    /** The number of steps each worker has taken since it was last reset. */
    ghost var steps: seq<nat>

    /** Between two calls: constructed and not closed, one counter per worker,
        nothing pending on any channel, and each counter holding its worker's
        step count as an int16. */
    ghost predicate Valid()
      reads this, counters
    {
      && counters != null
      && numEnvs == Some(|workers|)
      && actionSpace.Some? && observationSpace.Some?
      && counters.Length == |workers| == |steps|
      && Ready(Pool(workers, counters[..]))
      && forall i :: 0 <= i < |steps| ==> counters[i] == Wrap16(steps[i])
    }

    ghost function State(): Pool
      reads this, counters
      requires counters != null
    {
      Pool(workers, counters[..])
    }

    /** `__init__(env_fns)`: `seeds[i]` is the `np.random.randint(2**31)`
        drawn for worker `i`. When construction raises or waits forever no
        spaces are set and there are no counters. */
    constructor (dyn: Dynamics, fns: seq<EnvFn>, seeds: seq<int>)
      requires |fns| == |seeds| && Drawn(seeds)
      ensures this.dyn == dyn && numEnvs == Some(|fns|)
      ensures var a := Construct(dyn, fns, seeds);
        && workers == a.pool.workers
        && (a.result.Returned? ==>
              && Valid() && fresh(counters) && State() == a.pool && steps == seq(|fns|, _ => 0)
              && actionSpace == Some(a.result.value.action)
              && observationSpace == Some(a.result.value.observation))
        && (!a.result.Returned? ==> counters == null && actionSpace.None? && observationSpace.None?)
    {
      this.dyn := dyn;
      numEnvs := Some(|fns|);
      actionSpace, observationSpace := None, None;
      counters := null;
      steps := [];
      workers := [];
      new;
      if |fns| == 0 {
        // unpacking the pairs of an empty list of pipes raises ValueError
        return;
      }
      var got;
      got, workers := Handshake(dyn, fns, seeds);
      if got.Returned? {
        Install(got.value[0]);
      }
    }

    /** The end of `__init__` once worker 0 has answered: keep the spaces it
        reported and start every counter at zero. */
    method Install(reply: Reply)
      requires reply.SpacesReply? && numEnvs == Some(|workers|) && |workers| >= 1 && Quiescent(workers)
      modifies this`actionSpace, this`observationSpace, this`counters, this`steps
      ensures actionSpace == Some(reply.actionSpace) && observationSpace == Some(reply.observationSpace)
      ensures fresh(counters) && counters[..] == Zeros(|workers|) && steps == seq(|workers|, _ => 0)
      ensures Valid()
    {
      actionSpace := Some(reply.actionSpace);
      observationSpace := Some(reply.observationSpace);
      var zeros := new Int16[|workers|](_ => 0);
      assert zeros[..] == Zeros(|workers|);
      counters := zeros;
      steps := seq(|workers|, _ => 0);
      assert Wrap16(0) == 0;
    }

    /** Make the sends, in order. */
    method Transmit(sends: seq<Send>)
      requires Routed(sends, |workers|)
      modifies this`workers
      ensures workers == Deliver(old(workers), sends)
    {
      workers := SendEach(workers, sends);
    }

    /** Give every worker process the chance to serve what is waiting for it. */
    method RunWorkers()
      modifies this`workers
      ensures workers == RunAll(dyn, old(workers))
    {
      workers := RunEach(dyn, workers);
    }

    // ----- the operations

    /** `step(actions)`. */
    method Step(actions: seq<Action>) returns (r: Outcome<Batch>)
      requires Valid()
      modifies this`workers, this`steps, counters
      ensures var a := BatchStep(dyn, old(State()), actions); r == a.result && State() == a.pool
      ensures r.Returned? ==> Valid()
      ensures r.Returned? ==>
        |steps| == |old(steps)| && forall i :: 0 <= i < |steps| ==> steps[i] == old(steps)[i] + 1
    {
      ghost var p := State();
      var got;
      got, workers := StepEach(dyn, workers, actions);
      StepShape(dyn, p, actions);
      if got.Blocked? {
        r := Blocked(got.worker);
        return;
      }
      AdvanceCounters();
      r := Returned(Unstack(got.value));
    }

    /** `self._step_counters += 1`. */
    method AdvanceCounters()
      requires counters != null && counters.Length == |steps|
      requires forall i :: 0 <= i < |steps| ==> counters[i] == Wrap16(steps[i])
      modifies this`steps, counters
      ensures counters[..] == IncAll(old(counters[..]))
      ensures |steps| == |old(steps)| && forall i :: 0 <= i < |steps| ==> steps[i] == old(steps)[i] + 1
      ensures forall i :: 0 <= i < |steps| ==> counters[i] == Wrap16(steps[i])
    {
      forall i | 0 <= i < counters.Length {
        counters[i] := Inc16(counters[i]);
      }
      ghost var before := steps;
      steps := seq(|before|, i requires 0 <= i < |before| => before[i] + 1);
      forall i | 0 <= i < |steps| ensures counters[i] == Wrap16(steps[i]) {
        Inc16Wraps(before[i]);
      }
    }

    /** `reset(mask)`. */
    method Reset(mask: Option<seq<bool>>) returns (r: Outcome<Option<seq<Obs>>>)
      requires Valid()
      modifies this`workers, this`steps, counters
      ensures var a := BatchReset(dyn, old(State()), mask); r == a.result && State() == a.pool
      ensures r.Returned? ==> Valid()
      ensures r == Returned(None) || r.Threw? ==> steps == old(steps)
      ensures r.Returned? && r.value.Some? ==> steps == ResetSteps(old(steps), mask)
    {
      if mask.Some? {
        var numReset := CountNonzero(mask.value);
        if numReset == 0 {
          return Returned(None);
        }
        if |mask.value| != |workers| {
          // the boolean index does not match the counters
          return Threw(IndexError);
        }
      }
      r := ResetSelected(mask);
    }

    /** `reset(mask)` once it is known to send: zero the selected counters,
        send `reset` to the selected workers, receive from each in order. */
    method ResetSelected(mask: Option<seq<bool>>) returns (r: Outcome<Option<seq<Obs>>>)
      requires Valid()
      requires mask.Some? ==> CountNonzero(mask.value) > 0 && |mask.value| == |workers|
      modifies this`workers, this`steps, counters
      ensures steps == ResetSteps(old(steps), mask)
      ensures var a := BatchReset(dyn, old(State()), mask); r == a.result && State() == a.pool
      ensures r != Returned(None)
      ensures r.Returned? ==> Valid()
    {
      ghost var p := State();
      var n := |workers|;
      ZeroCounters(mask);
      var ids := if mask.Some? then Flagged(mask.value) else Indices(n);
      ResetShape(dyn, p, mask, ids, counters[..]);
      var got;
      got, workers := RoundTripEach(dyn, workers, ids, ResetCommands(|ids|));
      if got.Blocked? {
        r := Blocked(got.worker);
        return;
      }
      r := Returned(Some(Observations(got.value)));
    }

    /** `self._step_counters[mask] = 0`, or `fill(0)` without a mask. */
    method ZeroCounters(mask: Option<seq<bool>>)
      requires counters != null && counters.Length == |steps|
      requires mask.Some? ==> |mask.value| == |steps|
      requires forall i :: 0 <= i < |steps| ==> counters[i] == Wrap16(steps[i])
      modifies this`steps, counters
      ensures counters[..] == if mask.Some? then ZeroWhere(old(counters[..]), mask.value) else Zeros(|steps|)
      ensures steps == ResetSteps(old(steps), mask)
      ensures forall i :: 0 <= i < |steps| ==> counters[i] == Wrap16(steps[i])
    {
      var n := counters.Length;
      ghost var before := steps;
      if mask.Some? {
        forall i | 0 <= i < n && mask.value[i] {
          counters[i] := 0;
        }
        steps := seq(n, i requires 0 <= i < n => if mask.value[i] then 0 else before[i]);
      } else {
        forall i | 0 <= i < n {
          counters[i] := 0;
        }
        steps := seq(n, _ => 0);
      }
    }

    /** `render(env_ids)`. */
    method Render(envIds: Option<seq<int>>) returns (c: Completion)
      requires Valid()
      modifies this`workers
      ensures var f := BatchRender(dyn, old(State()), envIds); c == f.completion && State() == f.pool
      ensures Valid()
    {
      ghost var p := State();
      var plan := RenderPlan(|workers|, envIds);
      Transmit(plan.sends);
      RunWorkers();
      assert State() == Fire(dyn, p, plan.sends);
      c := plan.completion;
    }

    /** `seed(seed_map)`: `randomSeeds[i]` is the `np.random.randint(2**31)`
        drawn for worker `i` when every worker is reseeded. */
    method Seed(seedMap: Option<SeedItems>, randomSeeds: seq<int>) returns (c: Completion)
      requires Valid() && |randomSeeds| == |workers| && Drawn(randomSeeds)
      modifies this`workers
      ensures var f := BatchSeed(dyn, old(State()), seedMap, randomSeeds); c == f.completion && State() == f.pool
      ensures Valid()
    {
      ghost var p := State();
      var plan := SeedPlan(|workers|, seedMap, randomSeeds);
      Transmit(plan.sends);
      RunWorkers();
      assert State() == Fire(dyn, p, plan.sends);
      c := plan.completion;
    }

    /** `monitor(is_monitor, is_train, experiment_dir, record_video_every)`. */
    method Monitor(config: MonitorConfig)
      requires Valid()
      modifies this`workers
      ensures State() == BatchMonitor(dyn, old(State()), config)
      ensures Valid()
    {
      ghost var p := State();
      var sends := MonitorSends(|workers|, config);
      Transmit(sends);
      RunWorkers();
      assert State() == Fire(dyn, p, sends);
    }

    /** `close()`: every worker is told to close and has left its loop by the
        time it is joined; then every attribute is cleared. `finals` are the
        workers as they end. */
    method Close() returns (ghost finals: seq<Worker>)
      requires Valid()
      modifies this
      ensures finals == BatchClose(dyn, old(State()))
      ensures forall j :: 0 <= j < |finals| ==> !finals[j].life.Running?
      ensures workers == [] && counters == null && steps == []
      ensures numEnvs.None? && actionSpace.None? && observationSpace.None?
    {
      ghost var p := State();
      Transmit(CloseSends(|workers|));
      RunWorkers();
      finals := workers;
      CloseStopsAll(dyn, p);
      workers := [];
      counters := null;
      steps := [];
      numEnvs := None;
      actionSpace, observationSpace := None, None;
    }

    // ----- the read-only properties

    function NumEnvs(): (n: Option<nat>)
      reads this, counters
      ensures Valid() ==> n == Some(|workers|) && n.value == counters.Length
    {
      numEnvs
    }

    function ActionSpace(): (s: Option<Space>)
      reads this, counters
      ensures Valid() ==> s.Some?
    {
      actionSpace
    }

    function ObservationSpace(): (s: Option<Space>)
      reads this, counters
      ensures Valid() ==> s.Some?
    {
      observationSpace
    }

    /** The counters array itself, not a copy: later steps and resets show
        through it. */
    function StepCounters(): (a: array?<Int16>)
      reads this, counters
      ensures Valid() ==>
        a != null && a.Length == |workers| && forall i :: 0 <= i < a.Length ==> a[i] == Wrap16(steps[i])
    {
      counters
    }
  }
}
