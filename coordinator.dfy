/** What each operation of the batched environment does to the pool of
    workers and to the step counters, as functions of the state before the
    call: the specification the `BatchedEnv` class is proved against. */
module Coordinator {
  import opened Protocol
  import opened WorkerLoop
  import opened Channels
  import opened StepCounters

  /** The coordinator's mutable state: the workers behind the channels (index
      is identity) and the step counters. */
  datatype Pool = Pool(workers: seq<Worker>, counters: seq<Int16>)

  /** The result of an operation that receives, with the pool it leaves. */
  datatype After<T> = After(result: Outcome<T>, pool: Pool)

  /** `(states, rewards, dones, infos)`, each stacked in worker order. */
  datatype Batch = Batch(obs: seq<Obs>, rewards: seq<Reward>, dones: seq<bool>, infos: seq<Info>)

  /** The shared action and observation spaces. */
  datatype Spaces = Spaces(action: Space, observation: Space)

  /** How a fire-and-forget operation ends. */
  datatype Completion = Completed | Errored(error: PyError)

  /** The sends an operation makes, in order, and how it ends. */
  datatype Plan = Plan(completion: Completion, sends: seq<Send>)

  /** The result of a fire-and-forget operation, with the pool it leaves. */
  datatype Fired = Fired(completion: Completion, pool: Pool)

  /** The pool between two calls: one counter per worker, at least one
      worker, nothing pending on any channel. */
  predicate Ready(p: Pool) {
    |p.workers| == |p.counters| && |p.workers| >= 1 && Quiescent(p.workers)
  }

  // ----- construction

  /** The worker processes as started, one per factory, each with its seed. */
  function Spawned(dyn: Dynamics, fns: seq<EnvFn>, seeds: seq<int>): (ws: seq<Worker>)
    requires |fns| == |seeds|
    ensures |ws| == |fns| && Quiescent(ws)
    ensures forall i :: 0 <= i < |ws| ==> ws[i] == Spawn(dyn, fns[i], seeds[i])
  {
    seq(|fns|, i requires 0 <= i < |fns| => Spawn(dyn, fns[i], seeds[i]))
  }

  /** Seeds as `np.random.randint(2**31)` draws them. */
  predicate Drawn(seeds: seq<int>) {
    forall i :: 0 <= i < |seeds| ==> 0 <= seeds[i] < 0x8000_0000
  }

  /** `np.zeros(n, dtype=np.int16)`. */
  function Zeros(n: nat): (cs: seq<Int16>)
    ensures |cs| == n && forall i :: 0 <= i < n ==> cs[i] == 0
  {
    seq(n, _ => 0)
  }

  /** `__init__`: start the workers, ask worker 0 alone for the spaces, then
      zero the counters. With no factories the unpacking of the pipe pairs
      raises `ValueError` before any worker starts. */
  function Construct(dyn: Dynamics, fns: seq<EnvFn>, seeds: seq<int>): (a: After<Spaces>)
    requires |fns| == |seeds|
    ensures a.result.Threw? <==> |fns| == 0
    ensures a.result.Threw? ==> a.result.error == ValueError && a.pool == Pool([], [])
    ensures !a.result.Threw? ==> |a.pool.workers| == |fns|
    ensures a.result.Returned? ==> a.pool.counters == Zeros(|fns|)
  {
    if |fns| == 0 then After(Threw(ValueError), Pool([], []))
    else
      var ws := Spawned(dyn, fns, seeds);
      var g := Collect(RunAll(dyn, Deliver(ws, Sends([0], [GetSpaces]))), [0]);
      FanInAnswers(dyn, ws, [0], [GetSpaces]);
      match g.result
      case Blocked(i) => After(Blocked(i), Pool(g.workers, []))
      case Returned(rs) =>
        After(Returned(Spaces(rs[0].actionSpace, rs[0].observationSpace)), Pool(g.workers, Zeros(|fns|)))
  }

  // ----- step

  function StepCommands(actions: seq<Action>): (cmds: seq<Command>)
    ensures |cmds| == |actions| && forall k :: 0 <= k < |actions| ==> cmds[k] == Step(actions[k])
  {
    seq(|actions|, i requires 0 <= i < |actions| => Step(actions[i]))
  }

  /** `zip(*results)` followed by `np.stack` on each component. */
  function Unstack(rs: seq<Reply>): (b: Batch)
    requires forall k :: 0 <= k < |rs| ==> rs[k].StepReply?
    ensures |b.obs| == |b.rewards| == |b.dones| == |b.infos| == |rs|
    ensures forall k :: 0 <= k < |rs| ==> rs[k] == StepReply(b.obs[k], b.rewards[k], b.dones[k], b.infos[k])
  {
    Batch(seq(|rs|, k requires 0 <= k < |rs| => rs[k].ob),
          seq(|rs|, k requires 0 <= k < |rs| => rs[k].reward),
          seq(|rs|, k requires 0 <= k < |rs| => rs[k].done),
          seq(|rs|, k requires 0 <= k < |rs| => rs[k].info))
  }

  /** `self._step_counters += 1`. */
  function IncAll(cs: seq<Int16>): (cs': seq<Int16>)
    ensures |cs'| == |cs|
  {
    seq(|cs|, i requires 0 <= i < |cs| => Inc16(cs[i]))
  }

  /** How many pairs `zip` forms from sequences of lengths `n` and `k`. */
  function Zipped(n: nat, k: nat): (m: nat)
    ensures m <= n && m <= k && (m == n || m == k)
  {
    if k < n then k else n
  }

  /** The channel traffic of `step(actions)`: a step command to each worker
      that `zip` pairs with an action, then a receive from every worker in
      index order. */
  function StepExchange(dyn: Dynamics, ws: seq<Worker>, actions: seq<Action>): (g: Gathered)
    ensures |g.workers| == |ws| && !g.result.Threw?
  {
    var m := Zipped(|ws|, |actions|);
    var sent := Indices(m);
    assert InRange(sent, |ws|);
    Collect(RunAll(dyn, Deliver(ws, Sends(sent, StepCommands(actions[..m])))), Indices(|ws|))
  }

  /** `step(actions)`: the exchange, the stacked replies, and every counter
      advanced by one. */
  function BatchStep(dyn: Dynamics, p: Pool, actions: seq<Action>): (a: After<Batch>)
    requires Ready(p)
    ensures !a.result.Threw? && |a.pool.workers| == |p.workers|
    ensures a.result.Returned? ==> |a.result.value.obs| == |p.workers| && a.pool.counters == IncAll(p.counters)
    ensures a.result.Blocked? ==> a.result.worker < |p.workers| && a.pool.counters == p.counters
  {
    var g := StepExchange(dyn, p.workers, actions);
    StepRepliesAreSteps(dyn, p.workers, actions);
    match g.result
    case Blocked(i) => After(Blocked(i), Pool(g.workers, p.counters))
    case Returned(rs) => After(Returned(Unstack(rs)), Pool(g.workers, IncAll(p.counters)))
  }

  /** `step` as a round trip: it returns exactly when there is an action for
      every worker and every worker answers its step; then reply `k` is
      worker `k`'s answer and every worker is waiting again. Otherwise it
      blocks at the first worker that has no action or does not answer. */
  lemma StepRoundTrip(dyn: Dynamics, ws: seq<Worker>, actions: seq<Action>)
    requires Quiescent(ws)
    ensures var g := StepExchange(dyn, ws, actions);
      && ((|actions| >= |ws| && forall k :: 0 <= k < |ws| ==> Answered(dyn, ws[k], Step(actions[k])))
          ==> g.result.Returned?)
      && (g.result.Returned? ==> |actions| >= |ws| && forall k :: 0 <= k < |ws| ==>
            && Answered(dyn, ws[k], Step(actions[k]))
            && g.result.value[k] == Handle(dyn, ws[k].life.sim, Step(actions[k])).replies[0]
            && g.workers[k] == Worker(Handle(dyn, ws[k].life.sim, Step(actions[k])).life, [], []))
      && (g.result.Returned? ==> Quiescent(g.workers))
      && (g.result.Blocked? ==>
            var i := g.result.worker;
            && i < |ws|
            && (i >= |actions| || !Answered(dyn, ws[i], Step(actions[i])))
            && forall k :: 0 <= k < i ==> k < |actions| && Answered(dyn, ws[k], Step(actions[k])))
  {
    if |actions| >= |ws| {
      StepFullBatch(dyn, ws, actions);
    } else {
      StepShortBatch(dyn, ws, actions);
    }
  }

  lemma StepFullBatch(dyn: Dynamics, ws: seq<Worker>, actions: seq<Action>)
    requires Quiescent(ws) && |actions| >= |ws|
    ensures var g := StepExchange(dyn, ws, actions);
      && ((forall k :: 0 <= k < |ws| ==> Answered(dyn, ws[k], Step(actions[k]))) ==> g.result.Returned?)
      && (g.result.Returned? ==> forall k :: 0 <= k < |ws| ==>
            && Answered(dyn, ws[k], Step(actions[k]))
            && g.result.value[k] == Handle(dyn, ws[k].life.sim, Step(actions[k])).replies[0]
            && g.workers[k] == Worker(Handle(dyn, ws[k].life.sim, Step(actions[k])).life, [], []))
      && (g.result.Returned? ==> Quiescent(g.workers))
      && (g.result.Blocked? ==>
            var i := g.result.worker;
            && i < |ws| && !Answered(dyn, ws[i], Step(actions[i]))
            && forall k :: 0 <= k < i ==> Answered(dyn, ws[k], Step(actions[k])))
  {
    StepFullAnswering(dyn, ws, actions);
    StepFullReplies(dyn, ws, actions);
    StepFullBlocked(dyn, ws, actions);
  }

  lemma StepFullAnswering(dyn: Dynamics, ws: seq<Worker>, actions: seq<Action>)
    requires Quiescent(ws) && |actions| >= |ws|
    ensures StepExchange(dyn, ws, actions).result.Returned? <==>
      forall k :: 0 <= k < |ws| ==> Answered(dyn, ws[k], Step(actions[k]))
  {
    var n := |ws|;
    var cmds := StepCommands(actions[..n]);
    var ids := Indices(n);
    StepExchangeFull(dyn, ws, actions);
    FanOutAnswering(dyn, ws, ids, cmds);
    if forall k :: 0 <= k < n ==> Answered(dyn, ws[k], Step(actions[k])) {
      forall k | 0 <= k < n ensures Answered(dyn, ws[ids[k]], cmds[k]) {
        assert ids[k] == k && cmds[k] == Step(actions[k]);
      }
    } else {
      var k :| 0 <= k < n && !Answered(dyn, ws[k], Step(actions[k]));
      assert ids[k] == k && cmds[k] == Step(actions[k]);
    }
  }

  lemma StepFullReplies(dyn: Dynamics, ws: seq<Worker>, actions: seq<Action>)
    requires Quiescent(ws) && |actions| >= |ws|
    ensures var g := StepExchange(dyn, ws, actions);
      && (g.result.Returned? ==> forall k :: 0 <= k < |ws| ==>
            && Answered(dyn, ws[k], Step(actions[k]))
            && g.result.value[k] == Handle(dyn, ws[k].life.sim, Step(actions[k])).replies[0]
            && g.workers[k] == Worker(Handle(dyn, ws[k].life.sim, Step(actions[k])).life, [], []))
      && (g.result.Returned? ==> Quiescent(g.workers))
  {
    var n := |ws|;
    var cmds := StepCommands(actions[..n]);
    var ids := Indices(n);
    StepExchangeFull(dyn, ws, actions);
    FanOutReplies(dyn, ws, ids, cmds);
    var g := RoundTrip(dyn, ws, ids, cmds);
    if g.result.Returned? {
      forall k | 0 <= k < n
        ensures Answered(dyn, ws[k], Step(actions[k]))
        ensures g.result.value[k] == Handle(dyn, ws[k].life.sim, Step(actions[k])).replies[0]
        ensures g.workers[k] == Worker(Handle(dyn, ws[k].life.sim, Step(actions[k])).life, [], [])
      {
        assert ids[k] == k && cmds[k] == Step(actions[k]);
      }
    }
  }

  lemma StepFullBlocked(dyn: Dynamics, ws: seq<Worker>, actions: seq<Action>)
    requires Quiescent(ws) && |actions| >= |ws|
    ensures var g := StepExchange(dyn, ws, actions);
      g.result.Blocked? ==>
        var i := g.result.worker;
        && i < |ws| && !Answered(dyn, ws[i], Step(actions[i]))
        && forall k :: 0 <= k < i ==> Answered(dyn, ws[k], Step(actions[k]))
  {
    var n := |ws|;
    var cmds := StepCommands(actions[..n]);
    StepExchangeFull(dyn, ws, actions);
    FanOutBlockedInOrder(dyn, ws, cmds);
    assert forall k :: 0 <= k < n ==> cmds[k] == Step(actions[k]);
  }

  lemma StepExchangeFull(dyn: Dynamics, ws: seq<Worker>, actions: seq<Action>)
    requires |actions| >= |ws|
    ensures StepExchange(dyn, ws, actions) == RoundTrip(dyn, ws, Indices(|ws|), StepCommands(actions[..|ws|]))
  {
  }

  lemma StepShortBatch(dyn: Dynamics, ws: seq<Worker>, actions: seq<Action>)
    requires Quiescent(ws) && |actions| < |ws|
    ensures var g := StepExchange(dyn, ws, actions);
      && g.result.Blocked?
      && var i := g.result.worker;
      && i <= |actions|
      && (i < |actions| ==> !Answered(dyn, ws[i], Step(actions[i])))
      && forall k :: 0 <= k < i ==> Answered(dyn, ws[k], Step(actions[k]))
  {
    var m := |actions|;
    var tail: seq<nat> := seq(|ws| - m, i => m + i);
    StepExchangeShort(dyn, ws, actions, tail);
    var ids := Indices(m);
    var cmds := StepCommands(actions);
    CollectAppend(RunAll(dyn, Deliver(ws, Sends(ids, cmds))), ids, tail);
    if RoundTrip(dyn, ws, ids, cmds).result.Returned? {
      ShortStepsAnswered(dyn, ws, actions, tail);
    } else {
      ShortStepsBlocked(dyn, ws, actions);
    }
  }

  /** Every worker that got an action answered: the receive from the first
      worker without one waits forever. */
  lemma ShortStepsAnswered(dyn: Dynamics, ws: seq<Worker>, actions: seq<Action>, tail: seq<nat>)
    requires Quiescent(ws) && |actions| < |ws| && tail == seq(|ws| - |actions|, i => |actions| + i)
    requires RoundTrip(dyn, ws, Indices(|actions|), StepCommands(actions)).result.Returned?
    ensures var g1 := RoundTrip(dyn, ws, Indices(|actions|), StepCommands(actions));
      && Collect(g1.workers, tail).result == Blocked(|actions|)
      && forall k :: 0 <= k < |actions| ==> Answered(dyn, ws[k], Step(actions[k]))
  {
    var m := |actions|;
    var cmds := StepCommands(actions);
    var ids := Indices(m);
    assert forall k :: 0 <= k < m ==> ids[k] == k && cmds[k] == Step(actions[k]);
    FanOutFanIn(dyn, ws, ids, cmds);
    var g1 := RoundTrip(dyn, ws, ids, cmds);
    assert m !in ids;
    assert g1.workers[m] == ws[m];
    forall k | 0 <= k < m ensures Answered(dyn, ws[k], Step(actions[k])) {
      assert ids[k] == k && cmds[k] == Step(actions[k]);
    }
  }

  /** Some worker that got an action did not answer: the receive waits on it. */
  lemma ShortStepsBlocked(dyn: Dynamics, ws: seq<Worker>, actions: seq<Action>)
    requires Quiescent(ws) && |actions| < |ws|
    requires RoundTrip(dyn, ws, Indices(|actions|), StepCommands(actions)).result.Blocked?
    ensures var g1 := RoundTrip(dyn, ws, Indices(|actions|), StepCommands(actions));
      var i := g1.result.worker;
      && i < |actions| && !Answered(dyn, ws[i], Step(actions[i]))
      && forall k :: 0 <= k < i ==> Answered(dyn, ws[k], Step(actions[k]))
  {
    var cmds := StepCommands(actions);
    FanOutBlockedInOrder(dyn, ws, cmds);
    var i := RoundTrip(dyn, ws, Indices(|actions|), cmds).result.worker;
    assert cmds[i] == Step(actions[i]);
    forall j | 0 <= j < i ensures Answered(dyn, ws[j], Step(actions[j])) {
      assert cmds[j] == Step(actions[j]);
    }
  }

  lemma StepExchangeShort(dyn: Dynamics, ws: seq<Worker>, actions: seq<Action>, tail: seq<nat>)
    requires |actions| < |ws| && tail == seq(|ws| - |actions|, i => |actions| + i)
    ensures InRange(tail, |ws|) && Indices(|ws|) == Indices(|actions|) + tail
    ensures StepExchange(dyn, ws, actions) ==
      Collect(RunAll(dyn, Deliver(ws, Sends(Indices(|actions|), StepCommands(actions)))),
              Indices(|actions|) + tail)
  {
    assert Indices(|ws|) == Indices(|actions|) + tail;
    assert actions[..|actions|] == actions;
  }

  lemma StepRepliesAreSteps(dyn: Dynamics, ws: seq<Worker>, actions: seq<Action>)
    requires Quiescent(ws)
    ensures var g := StepExchange(dyn, ws, actions);
      g.result.Returned? ==> forall k :: 0 <= k < |g.result.value| ==> g.result.value[k].StepReply?
  {
    StepRoundTrip(dyn, ws, actions);
  }

  // ----- reset

  /** `np.count_nonzero(mask)`. */
  function CountNonzero(mask: seq<bool>): (c: nat)
    ensures c <= |mask|
    decreases |mask|
  {
    if mask == [] then 0
    else CountNonzero(mask[..|mask| - 1]) + (if mask[|mask| - 1] then 1 else 0)
  }

  /** The indices a boolean mask selects, in increasing order. */
  function Flagged(mask: seq<bool>): (ids: seq<nat>)
    ensures |ids| == CountNonzero(mask)
    ensures Increasing(ids) && InRange(ids, |mask|)
    ensures forall i :: 0 <= i < |mask| ==> (mask[i] <==> i in ids)
    decreases |mask|
  {
    if mask == [] then []
    else
      var m := |mask| - 1;
      var init := Flagged(mask[..m]);
      assert forall i :: 0 <= i < m ==> mask[..m][i] == mask[i];
      init + (if mask[m] then [m] else [])
  }

  /** `self._step_counters[mask] = 0`. */
  function ZeroWhere(cs: seq<Int16>, mask: seq<bool>): (cs': seq<Int16>)
    requires |mask| == |cs|
    ensures |cs'| == |cs|
  {
    seq(|cs|, i requires 0 <= i < |cs| => if mask[i] then 0 else cs[i])
  }

  /** `np.stack` of the observations that `reset` replies carry. */
  function Observations(rs: seq<Reply>): (obs: seq<Obs>)
    requires forall k :: 0 <= k < |rs| ==> rs[k].ResetReply?
    ensures |obs| == |rs| && forall k :: 0 <= k < |rs| ==> rs[k] == ResetReply(obs[k])
  {
    seq(|rs|, k requires 0 <= k < |rs| => rs[k].ob)
  }

  function ResetCommands(k: nat): (cmds: seq<Command>)
    ensures |cmds| == k && forall i :: 0 <= i < k ==> cmds[i] == Reset
  {
    seq(k, _ => Reset)
  }

  /** `reset(mask)`: with no mask every worker is reset; with a mask only the
      flagged ones, and a mask that flags none returns `None` at once. A mask
      that flags some but does not have one entry per worker makes the masked
      assignment to the counters raise `IndexError` before anything is sent. */
  function BatchReset(dyn: Dynamics, p: Pool, mask: Option<seq<bool>>): (a: After<Option<seq<Obs>>>)
    requires Ready(p)
    ensures |a.pool.workers| == |p.workers| && |a.pool.counters| == |p.counters|
    ensures a.result.Threw? <==> mask.Some? && CountNonzero(mask.value) > 0 && |mask.value| != |p.workers|
    ensures a.result.Threw? ==> a.result.error == IndexError && a.pool == p
    ensures a.result == Returned(None) <==> mask.Some? && CountNonzero(mask.value) == 0
    ensures a.result == Returned(None) ==> a.pool == p
  {
    if mask.Some? && CountNonzero(mask.value) == 0 then After(Returned(None), p)
    else if mask.Some? && |mask.value| != |p.workers| then After(Threw(IndexError), p)
    else
      var n := |p.workers|;
      var ids := if mask.Some? then Flagged(mask.value) else Indices(n);
      var counters := if mask.Some? then ZeroWhere(p.counters, mask.value) else Zeros(n);
      var cmds := ResetCommands(|ids|);
      var g := Collect(RunAll(dyn, Deliver(p.workers, Sends(ids, cmds))), ids);
      FanInAnswers(dyn, p.workers, ids, cmds);
      match g.result
      case Blocked(i) => After(Blocked(i), Pool(g.workers, counters))
      case Returned(rs) => After(Returned(Some(Observations(rs))), Pool(g.workers, counters))
  }

  // ----- the fire-and-forget operations: render, seed, monitor, close

  /** A Python sequence index `i` into `n` elements (negative counts from the end). */
  predicate ValidIndex(n: nat, i: int) {
    -(n as int) <= i < n
  }

  function PyIndex(n: nat, i: int): (j: nat)
    requires ValidIndex(n, i)
    ensures j < n && (j as int - i) % (n as int) == 0
  {
    if i < 0 then i + n else i
  }

  /** `render(env_ids)`: every worker for `None`; one render per listed index
      (duplicates included) for a non-empty list, after every index has been
      looked up; `ValueError` for an empty list. */
  function RenderPlan(n: nat, envIds: Option<seq<int>>): (plan: Plan)
    ensures Routed(plan.sends, n)
    ensures forall k :: 0 <= k < |plan.sends| ==> plan.sends[k].cmd == Render
    ensures plan.completion.Errored? ==> plan.sends == []
    ensures plan.completion == Errored(ValueError) <==> envIds == Some([])
    ensures plan.completion == Errored(IndexError) <==>
      envIds.Some? && exists k :: 0 <= k < |envIds.value| && !ValidIndex(n, envIds.value[k])
    ensures envIds.None? ==>
      plan.completion == Completed && |plan.sends| == n && forall k :: 0 <= k < n ==> plan.sends[k].to == k
    ensures envIds.Some? && plan.completion == Completed ==>
      |plan.sends| == |envIds.value| &&
      forall k :: 0 <= k < |plan.sends| ==> plan.sends[k].to == PyIndex(n, envIds.value[k])
  {
    if envIds.Some? && |envIds.value| > 0 then
      var ids := envIds.value;
      if forall k :: 0 <= k < |ids| ==> ValidIndex(n, ids[k]) then
        Plan(Completed, seq(|ids|, k requires 0 <= k < |ids| => Send(PyIndex(n, ids[k]), Render)))
      else Plan(Errored(IndexError), [])
    else if envIds.None? then Plan(Completed, Sends(Indices(n), seq(n, _ => Render)))
    else Plan(Errored(ValueError), [])
  }

  /** A seed map as its items in iteration order: worker index, then a seed
      or `None` for "let the simulation pick". */
  type SeedItems = seq<(int, Option<int>)>

  /** How many items precede the first key that is not a valid index. */
  function FirstInvalid(n: nat, items: SeedItems): (k: nat)
    ensures k <= |items|
    ensures forall m :: 0 <= m < k ==> ValidIndex(n, items[m].0)
    ensures k < |items| ==> !ValidIndex(n, items[k].0)
    decreases |items|
  {
    if items == [] || !ValidIndex(n, items[0].0) then 0
    else 1 + FirstInvalid(n, items[1..])
  }

  /** `seed(seed_map)`: a non-empty map sends its own seed to each mapped
      worker, in item order, up to the first key that is not an index (which
      raises `IndexError`); `None` or an empty map sends each worker the next
      of the random seeds. */
  function SeedPlan(n: nat, seedMap: Option<SeedItems>, randomSeeds: seq<int>): (plan: Plan)
    requires |randomSeeds| == n
    ensures Routed(plan.sends, n)
    ensures forall k :: 0 <= k < |plan.sends| ==> plan.sends[k].cmd.Seed?
    ensures plan.completion.Errored? <==>
      seedMap.Some? && exists k :: 0 <= k < |seedMap.value| && !ValidIndex(n, seedMap.value[k].0)
    ensures plan.completion.Errored? ==> plan.completion.error == IndexError
    ensures seedMap.Some? && |seedMap.value| > 0 ==>
      |plan.sends| == FirstInvalid(n, seedMap.value) &&
      forall k :: 0 <= k < |plan.sends| ==>
        plan.sends[k] == Send(PyIndex(n, seedMap.value[k].0), Seed(seedMap.value[k].1))
    ensures seedMap.None? || seedMap.value == [] ==>
      plan.completion == Completed && |plan.sends| == n &&
      forall k :: 0 <= k < n ==> plan.sends[k] == Send(k, Seed(Some(randomSeeds[k])))
  {
    if seedMap.Some? && |seedMap.value| > 0 then
      var items := seedMap.value;
      var k := FirstInvalid(n, items);
      var sends := seq(k, m requires 0 <= m < k => Send(PyIndex(n, items[m].0), Seed(items[m].1)));
      assert k < |items| ==> !ValidIndex(n, items[k].0);
      Plan(if k < |items| then Errored(IndexError) else Completed, sends)
    else
      var ids := Indices(n);
      var sends := Sends(ids, seq(n, i requires 0 <= i < n => Seed(Some(randomSeeds[i]))));
      assert forall k :: 0 <= k < |sends| ==> sends[k].to == ids[k] && sends[k].to < n;
      Plan(Completed, sends)
  }

  /** `monitor(...)`: the configuration to every worker. */
  function MonitorSends(n: nat, config: MonitorConfig): (sends: seq<Send>)
    ensures Routed(sends, n)
  {
    Sends(Indices(n), seq(n, _ => Monitor(config)))
  }

  /** `close()`: `close` to every worker. */
  function CloseSends(n: nat): (sends: seq<Send>)
    ensures Routed(sends, n)
  {
    Sends(Indices(n), seq(n, _ => Close))
  }

  /** Send, let the workers serve, receive nothing. */
  function Fire(dyn: Dynamics, p: Pool, sends: seq<Send>): (p': Pool)
    requires Ready(p) && Routed(sends, |p.workers|)
    requires forall k :: 0 <= k < |sends| ==> !ExpectsReply(sends[k].cmd)
    ensures Ready(p') && p'.counters == p.counters
  {
    SilentFanOut(dyn, p.workers, sends);
    Pool(RunAll(dyn, Deliver(p.workers, sends)), p.counters)
  }

  function BatchRender(dyn: Dynamics, p: Pool, envIds: Option<seq<int>>): (f: Fired)
    requires Ready(p)
    ensures Ready(f.pool) && |f.pool.workers| == |p.workers| && f.pool.counters == p.counters
    ensures f.completion == Errored(ValueError) <==> envIds == Some([])
  {
    var plan := RenderPlan(|p.workers|, envIds);
    Fired(plan.completion, Fire(dyn, p, plan.sends))
  }

  function BatchSeed(dyn: Dynamics, p: Pool, seedMap: Option<SeedItems>, randomSeeds: seq<int>): (f: Fired)
    requires Ready(p) && |randomSeeds| == |p.workers|
    ensures Ready(f.pool) && |f.pool.workers| == |p.workers| && f.pool.counters == p.counters
    ensures f.completion.Errored? ==> f.completion.error == IndexError
  {
    var plan := SeedPlan(|p.workers|, seedMap, randomSeeds);
    Fired(plan.completion, Fire(dyn, p, plan.sends))
  }

  function BatchMonitor(dyn: Dynamics, p: Pool, config: MonitorConfig): (p': Pool)
    requires Ready(p)
    ensures Ready(p') && |p'.workers| == |p.workers| && p'.counters == p.counters
  {
    Fire(dyn, p, MonitorSends(|p.workers|, config))
  }

  /** The workers once `close` has reached each of them. */
  function BatchClose(dyn: Dynamics, p: Pool): (ws: seq<Worker>)
    requires Ready(p)
    ensures |ws| == |p.workers|
  {
    RunAll(dyn, Deliver(p.workers, CloseSends(|p.workers|)))
  }

  /** After `close` no worker is still in its loop, so joining each returns: a
      serving worker has closed, one that had already exited is left as it was
      with the unread `close` on its channel. */
  lemma CloseStopsAll(dyn: Dynamics, p: Pool)
    requires Ready(p)
    ensures |BatchClose(dyn, p)| == |p.workers|
    ensures forall j :: 0 <= j < |p.workers| ==>
      && !BatchClose(dyn, p)[j].life.Running?
      && BatchClose(dyn, p)[j] == if p.workers[j].life.Running? then Worker(Closed, [], [])
                                  else Enqueue(p.workers[j], [Close])
  {
    var n := |p.workers|;
    var sends := CloseSends(n);
    SilentFanOut(dyn, p.workers, sends);
    forall j | 0 <= j < n
      ensures BatchClose(dyn, p)[j] == if p.workers[j].life.Running? then Worker(Closed, [], [])
                                       else Enqueue(p.workers[j], [Close])
    {
      SendsToDistinct(Indices(n), seq(n, _ => Close), j);
      assert Indices(n)[j] == j;
      ServeOne(dyn, p.workers[j], Close);
    }
  }

  // ----- how each operation's result is built, for the methods proved against them

  /** `__init__` once there are workers: what the round trip to worker 0
      decides. */
  lemma ConstructShape(dyn: Dynamics, fns: seq<EnvFn>, seeds: seq<int>)
    requires |fns| == |seeds| && |fns| >= 1
    ensures var ws := Spawned(dyn, fns, seeds);
      var g := Collect(RunAll(dyn, Deliver(ws, Sends([0], [GetSpaces]))), [0]);
      && !g.result.Threw?
      && (g.result.Returned? ==>
            && |g.result.value| == 1 && g.result.value[0].SpacesReply? && Quiescent(g.workers)
            && Construct(dyn, fns, seeds) ==
                 After(Returned(Spaces(g.result.value[0].actionSpace, g.result.value[0].observationSpace)),
                       Pool(g.workers, Zeros(|fns|))))
      && (g.result.Blocked? ==> Construct(dyn, fns, seeds) == After(Blocked(g.result.worker), Pool(g.workers, [])))
  {
    var ws := Spawned(dyn, fns, seeds);
    FanOutReplies(dyn, ws, [0], [GetSpaces]);
    FanInAnswers(dyn, ws, [0], [GetSpaces]);
  }

  /** `step`: what the exchange decides. */
  lemma StepShape(dyn: Dynamics, p: Pool, actions: seq<Action>)
    requires Ready(p)
    ensures var g := StepExchange(dyn, p.workers, actions);
      && (g.result.Returned? ==>
            && (forall k :: 0 <= k < |g.result.value| ==> g.result.value[k].StepReply?)
            && Quiescent(g.workers)
            && BatchStep(dyn, p, actions) == After(Returned(Unstack(g.result.value)), Pool(g.workers, IncAll(p.counters))))
      && (g.result.Blocked? ==> BatchStep(dyn, p, actions) == After(Blocked(g.result.worker), Pool(g.workers, p.counters)))
  {
    StepRoundTrip(dyn, p.workers, actions);
  }

  /** `reset` when it sends: what the round trip decides. */
  lemma ResetShape(dyn: Dynamics, p: Pool, mask: Option<seq<bool>>, ids: seq<nat>, counters: seq<Int16>)
    requires Ready(p)
    requires mask.Some? ==> CountNonzero(mask.value) > 0 && |mask.value| == |p.workers|
    requires ids == if mask.Some? then Flagged(mask.value) else Indices(|p.workers|)
    requires counters == if mask.Some? then ZeroWhere(p.counters, mask.value) else Zeros(|p.workers|)
    ensures InRange(ids, |p.workers|) && Increasing(ids)
    ensures var g := RoundTrip(dyn, p.workers, ids, ResetCommands(|ids|));
      && (g.result.Returned? ==>
            && (forall k :: 0 <= k < |g.result.value| ==> g.result.value[k].ResetReply?)
            && Quiescent(g.workers)
            && BatchReset(dyn, p, mask) == After(Returned(Some(Observations(g.result.value))), Pool(g.workers, counters)))
      && (g.result.Blocked? ==> BatchReset(dyn, p, mask) == After(Blocked(g.result.worker), Pool(g.workers, counters)))
  {
    FanOutReplies(dyn, p.workers, ids, ResetCommands(|ids|));
    FanInAnswers(dyn, p.workers, ids, ResetCommands(|ids|));
  }
}
