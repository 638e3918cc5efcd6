/** What each operation of the batched environment promises, stated over the
    specification functions of module `Coordinator`. */
module Properties {
  import opened Protocol
  import opened WorkerLoop
  import opened Channels
  import opened StepCounters
  import opened Coordinator

  // ----- channels

  /** A channel receives something exactly when some send names it. */
  lemma {:induction false} ChannelUsed(sends: seq<Send>, j: nat)
    ensures CommandsFor(sends, j) != [] <==> exists k :: 0 <= k < |sends| && sends[k].to == j
    decreases |sends|
  {
    if sends != [] {
      var init := sends[..|sends| - 1];
      ChannelUsed(init, j);
      assert forall k :: 0 <= k < |init| ==> init[k] == sends[k];
    }
  }

  /** A fan-out in index order of one command per worker gives each worker
      exactly its own command. */
  lemma EachGetsOwn(n: nat, cmds: seq<Command>, j: nat)
    requires |cmds| == n && j < n
    ensures CommandsFor(Sends(Indices(n), cmds), j) == [cmds[j]]
  {
    SendsToDistinct(Indices(n), cmds, j);
    assert Indices(n)[j] == j;
  }

  // ----- construction

  /** `__init__`: with no factories it raises `ValueError`; otherwise it
      returns exactly when worker 0 came up serving, with the spaces of worker
      0's simulation, every worker as it started and every counter zero; if
      worker 0 did not come up it waits forever on worker 0. */
  lemma ConstructSpaces(dyn: Dynamics, fns: seq<EnvFn>, seeds: seq<int>)
    requires |fns| == |seeds|
    ensures |fns| == 0 ==> Construct(dyn, fns, seeds).result == Threw(ValueError)
    ensures |fns| > 0 ==>
      var a := Construct(dyn, fns, seeds);
      var w0 := Spawn(dyn, fns[0], seeds[0]);
      && (a.result.Returned? <==> w0.life.Running?)
      && (a.result.Returned? ==>
            && a.result.value == Spaces(dyn.actionSpace(w0.life.sim), dyn.observationSpace(w0.life.sim))
            && a.pool == Pool(Spawned(dyn, fns, seeds), Zeros(|fns|)))
      && (!a.result.Returned? ==> a.result == Blocked(0))
  {
    if |fns| > 0 {
      ConstructShape(dyn, fns, seeds);
      HandshakeRoundTrip(dyn, Spawned(dyn, fns, seeds));
    }
  }

  /** The handshake of `__init__`: asking worker 0 for its spaces returns
      exactly when worker 0 is serving, and then changes no worker. */
  lemma HandshakeRoundTrip(dyn: Dynamics, ws: seq<Worker>)
    requires Quiescent(ws) && |ws| >= 1 && ws[0].inbox == []
    ensures var g := RoundTrip(dyn, ws, [0], [GetSpaces]);
      && (g.result.Returned? <==> ws[0].life.Running?)
      && (g.result.Returned? ==>
            && g.result.value == [SpacesReply(dyn.actionSpace(ws[0].life.sim), dyn.observationSpace(ws[0].life.sim))]
            && g.workers == ws)
      && (!g.result.Returned? ==> g.result == Blocked(0))
  {
    var g := RoundTrip(dyn, ws, [0], [GetSpaces]);
    assert [0][0] == 0;
    FanOutAnswering(dyn, ws, [0], [GetSpaces]);
    if g.result.Returned? {
      FanOutReplies(dyn, ws, [0], [GetSpaces]);
      forall j | 0 <= j < |ws| ensures g.workers[j] == ws[j] {
        if j != 0 {
          assert j !in [0];
        }
      }
    } else {
      FanOutBlocked(dyn, ws, [0], [GetSpaces]);
    }
  }

  // ----- step

  /** `step` when it returns: the k-th entry of each stacked component comes
      from worker k's answer to its own action, and every counter has advanced
      by one (as an int16). When it does not return the counters are left as
      they were. */
  lemma StepResult(dyn: Dynamics, p: Pool, actions: seq<Action>)
    requires Ready(p)
    ensures var a := BatchStep(dyn, p, actions);
      && (a.result.Returned? ==>
            && |a.result.value.obs| == |p.workers| && |actions| >= |p.workers|
            && forall k :: 0 <= k < |p.workers| ==>
                 && Answered(dyn, p.workers[k], Step(actions[k]))
                 && StepReply(a.result.value.obs[k], a.result.value.rewards[k],
                              a.result.value.dones[k], a.result.value.infos[k])
                    == Handle(dyn, p.workers[k].life.sim, Step(actions[k])).replies[0]
                 && a.pool.counters[k] == Inc16(p.counters[k]))
      && (!a.result.Returned? ==> a.pool.counters == p.counters)
  {
    StepShape(dyn, p, actions);
    StepRoundTrip(dyn, p.workers, actions);
  }

  /** `step` fan-out: worker `j` receives exactly one `step`, carrying
      `actions[j]`, when there is such an action, and nothing otherwise
      (`zip` stops at the shorter of channels and actions). */
  lemma StepFanOut(n: nat, actions: seq<Action>, j: nat)
    requires j < n
    ensures var m := Zipped(n, |actions|);
      CommandsFor(Sends(Indices(m), StepCommands(actions[..m])), j) ==
        if j < |actions| then [Step(actions[j])] else []
  {
    var m := Zipped(n, |actions|);
    var ids := Indices(m);
    SendsToDistinct(ids, StepCommands(actions[..m]), j);
    if j < m {
      assert ids[j] == j;
    }
  }

  /** The step counters advanced together: after `s` steps from a count of
      `c`, the int16 counter holds the count `c + s` modulo 2^16. */
  lemma {:induction false} CountersTrackSteps(c: nat, s: nat)
    ensures Advance(Wrap16(c), s) == Wrap16(c + s)
    decreases s
  {
    if s > 0 {
      CountersTrackSteps(c, s - 1);
      Inc16Wraps(c + s - 1);
    }
  }

  /** `s` successive `+= 1` on one int16 counter. */
  function Advance(x: Int16, s: nat): Int16
    decreases s
  {
    if s == 0 then x else Inc16(Advance(x, s - 1))
  }

  // ----- reset

  /** The workers `reset(mask)` addresses, in index order. */
  function Selected(n: nat, mask: Option<seq<bool>>): (ids: seq<nat>)
    requires mask.Some? ==> |mask.value| == n
    ensures Increasing(ids) && InRange(ids, n)
  {
    if mask.Some? then Flagged(mask.value) else Indices(n)
  }

  /** `reset(mask)` when it sends returns exactly when every selected worker
      answers its reset. */
  lemma ResetAnswering(dyn: Dynamics, p: Pool, mask: Option<seq<bool>>)
    requires Ready(p)
    requires mask.Some? ==> CountNonzero(mask.value) > 0 && |mask.value| == |p.workers|
    ensures var ids := Selected(|p.workers|, mask);
      BatchReset(dyn, p, mask).result.Returned? <==>
        forall k :: 0 <= k < |ids| ==> Answered(dyn, p.workers[ids[k]], Reset)
  {
    var n := |p.workers|;
    var ids := Selected(n, mask);
    var counters := if mask.Some? then ZeroWhere(p.counters, mask.value) else Zeros(n);
    ResetShape(dyn, p, mask, ids, counters);
    FanOutAnswering(dyn, p.workers, ids, ResetCommands(|ids|));
  }

  /** What `reset(mask)` hands back when it returns: the fresh observations
      of the selected workers in index order; each selected worker continues
      from its reset state and the others are untouched. */
  lemma ResetReplies(dyn: Dynamics, p: Pool, mask: Option<seq<bool>>)
    requires Ready(p)
    requires mask.Some? ==> CountNonzero(mask.value) > 0 && |mask.value| == |p.workers|
    ensures var a := BatchReset(dyn, p, mask);
      var ids := Selected(|p.workers|, mask);
      a.result.Returned? ==>
        && a.result.value.Some? && |a.result.value.value| == |ids|
        && (forall k :: 0 <= k < |ids| ==>
              && Answered(dyn, p.workers[ids[k]], Reset)
              && a.result.value.value[k] == dyn.reset(p.workers[ids[k]].life.sim).value.ob
              && a.pool.workers[ids[k]] == Worker(Running(dyn.reset(p.workers[ids[k]].life.sim).value.next), [], []))
        && forall j :: 0 <= j < |p.workers| && j !in ids ==> a.pool.workers[j] == p.workers[j]
  {
    var n := |p.workers|;
    var ids := Selected(n, mask);
    var counters := if mask.Some? then ZeroWhere(p.counters, mask.value) else Zeros(n);
    var cmds := ResetCommands(|ids|);
    ResetShape(dyn, p, mask, ids, counters);
    FanOutReplies(dyn, p.workers, ids, cmds);
  }

  /** Where `reset(mask)` waits when it does not return: at a selected worker
      that does not answer its reset. */
  lemma ResetBlocked(dyn: Dynamics, p: Pool, mask: Option<seq<bool>>)
    requires Ready(p)
    requires mask.Some? ==> CountNonzero(mask.value) > 0 && |mask.value| == |p.workers|
    ensures var a := BatchReset(dyn, p, mask);
      a.result.Blocked? ==>
        a.result.worker in Selected(|p.workers|, mask) && !Answered(dyn, p.workers[a.result.worker], Reset)
  {
    var n := |p.workers|;
    var ids := Selected(n, mask);
    var counters := if mask.Some? then ZeroWhere(p.counters, mask.value) else Zeros(n);
    var cmds := ResetCommands(|ids|);
    ResetShape(dyn, p, mask, ids, counters);
    FanOutBlocked(dyn, p.workers, ids, cmds);
    var g := RoundTrip(dyn, p.workers, ids, cmds);
    if g.result.Blocked? {
      var k :| 0 <= k < |ids| && g.result.worker == ids[k] && !Answered(dyn, p.workers[ids[k]], cmds[k])
               && forall m :: 0 <= m < k ==> Answered(dyn, p.workers[ids[m]], cmds[m]);
      assert cmds[k] == Reset;
    }
  }

  /** The counters after a `reset(mask)` that gets as far as sending: the
      selected ones are zero, the others keep their value, whether or not the
      workers answer. */
  lemma ResetCounters(dyn: Dynamics, p: Pool, mask: Option<seq<bool>>)
    requires Ready(p)
    requires mask.Some? ==> CountNonzero(mask.value) > 0 && |mask.value| == |p.workers|
    ensures var a := BatchReset(dyn, p, mask);
      && |a.pool.counters| == |p.counters|
      && forall i :: 0 <= i < |p.counters| ==>
           a.pool.counters[i] == if mask.None? || mask.value[i] then 0 else p.counters[i]
  {
    var n := |p.workers|;
    var ids := Selected(n, mask);
    var counters := if mask.Some? then ZeroWhere(p.counters, mask.value) else Zeros(n);
    ResetShape(dyn, p, mask, ids, counters);
  }

  /** `reset` fan-out: a selected worker receives exactly one `reset`, the
      others nothing. */
  lemma ResetFanOut(n: nat, mask: Option<seq<bool>>, j: nat)
    requires mask.Some? ==> |mask.value| == n
    requires j < n
    ensures var ids := Selected(n, mask);
      CommandsFor(Sends(ids, ResetCommands(|ids|)), j) ==
        if mask.None? || mask.value[j] then [Reset] else []
  {
    var ids := Selected(n, mask);
    SendsToDistinct(ids, ResetCommands(|ids|), j);
    if mask.None? {
      assert ids[j] == j;
    } else if mask.value[j] {
      var k :| 0 <= k < |ids| && ids[k] == j;
    }
  }

  /** A mask that selects every worker resets exactly as no mask does. */
  lemma ResetAllTrue(dyn: Dynamics, p: Pool)
    requires Ready(p)
    ensures BatchReset(dyn, p, Some(seq(|p.workers|, _ => true))) == BatchReset(dyn, p, None)
  {
    var n := |p.workers|;
    var mask := seq(n, _ => true);
    FlaggedAll(n);
    assert ZeroWhere(p.counters, mask) == Zeros(n);
  }

  /** A mask that selects every worker selects them in index order. */
  lemma {:induction false} FlaggedAll(n: nat)
    ensures Flagged(seq(n, _ => true)) == Indices(n)
    ensures CountNonzero(seq(n, _ => true)) == n
    decreases n
  {
    if n > 0 {
      var mask := seq(n, _ => true);
      assert mask[..n - 1] == seq(n - 1, _ => true);
      FlaggedAll(n - 1);
      assert Indices(n - 1) + [n - 1] == Indices(n);
    }
  }

  /** A mask that selects no worker returns `None` and changes nothing; a
      mask that selects some but has the wrong length raises `IndexError` and
      changes nothing. */
  lemma ResetMaskEdges(dyn: Dynamics, p: Pool, mask: seq<bool>)
    requires Ready(p)
    ensures (forall i :: 0 <= i < |mask| ==> !mask[i]) ==> BatchReset(dyn, p, Some(mask)) == After(Returned(None), p)
    ensures (exists i :: 0 <= i < |mask| && mask[i]) && |mask| != |p.workers| ==>
      BatchReset(dyn, p, Some(mask)) == After(Threw(IndexError), p)
  {
    NonzeroIffSome(mask);
  }

  /** `np.count_nonzero` is zero exactly when no entry is set. */
  lemma {:induction false} NonzeroIffSome(mask: seq<bool>)
    ensures CountNonzero(mask) == 0 <==> forall i :: 0 <= i < |mask| ==> !mask[i]
    decreases |mask|
  {
    if mask != [] {
      var init := mask[..|mask| - 1];
      NonzeroIffSome(init);
      assert forall i :: 0 <= i < |init| ==> init[i] == mask[i];
    }
  }

  // ----- render, seed, monitor

  /** `render(None)` renders every worker once; a `render(env_ids)` that
      completes renders a worker exactly when some listed index names it. In
      both cases each worker serves what was sent to it. */
  lemma RenderReaches(dyn: Dynamics, p: Pool, envIds: Option<seq<int>>, j: nat)
    requires Ready(p) && j < |p.workers|
    ensures var n := |p.workers|;
      var plan := RenderPlan(n, envIds);
      && (envIds.None? ==> CommandsFor(plan.sends, j) == [Render])
      && (envIds.Some? && plan.completion == Completed ==>
            (CommandsFor(plan.sends, j) != [] <==>
               exists k :: 0 <= k < |envIds.value| && ValidIndex(n, envIds.value[k]) && PyIndex(n, envIds.value[k]) == j))
      && BatchRender(dyn, p, envIds).pool.workers[j] == Serve(dyn, Enqueue(p.workers[j], CommandsFor(plan.sends, j)))
  {
    var n := |p.workers|;
    var plan := RenderPlan(n, envIds);
    SilentFanOut(dyn, p.workers, plan.sends);
    ChannelUsed(plan.sends, j);
    if envIds.None? {
      EachGetsOwn(n, seq(n, _ => Render), j);
    }
  }

  /** `seed()` and `seed({})` give every worker exactly one seed: the next
      of the random seeds. */
  lemma SeedEveryWorker(n: nat, seedMap: Option<SeedItems>, randomSeeds: seq<int>, j: nat)
    requires |randomSeeds| == n && j < n
    requires seedMap.None? || seedMap.value == []
    ensures CommandsFor(SeedPlan(n, seedMap, randomSeeds).sends, j) == [Seed(Some(randomSeeds[j]))]
    ensures SeedPlan(n, seedMap, randomSeeds).completion == Completed
  {
    EachGetsOwn(n, seq(n, i requires 0 <= i < n => Seed(Some(randomSeeds[i]))), j);
  }

  /** `seed(seed_map)` with a non-empty map seeds a worker exactly when an
      item before the first bad key names it. */
  lemma SeedMapped(n: nat, items: SeedItems, randomSeeds: seq<int>, j: nat)
    requires |randomSeeds| == n && |items| > 0
    ensures var plan := SeedPlan(n, Some(items), randomSeeds);
      CommandsFor(plan.sends, j) != [] <==>
        exists k :: 0 <= k < FirstInvalid(n, items) && PyIndex(n, items[k].0) == j
  {
    var plan := SeedPlan(n, Some(items), randomSeeds);
    ChannelUsed(plan.sends, j);
  }

  /** `monitor(...)` reaches every worker once: a serving worker goes on
      with its simulation monitored (or exits if that raised), an exited one
      is left with the command unread. Counters do not change. */
  lemma MonitorEach(dyn: Dynamics, p: Pool, config: MonitorConfig)
    requires Ready(p)
    ensures var q := BatchMonitor(dyn, p, config);
      && q.counters == p.counters && |q.workers| == |p.workers|
      && forall j :: 0 <= j < |p.workers| ==>
           q.workers[j] == if p.workers[j].life.Running?
                           then Worker(Silently(dyn.monitor(p.workers[j].life.sim, config)).life, [], [])
                           else Enqueue(p.workers[j], [Monitor(config)])
  {
    var n := |p.workers|;
    var sends := MonitorSends(n, config);
    SilentFanOut(dyn, p.workers, sends);
    forall j | 0 <= j < n
      ensures BatchMonitor(dyn, p, config).workers[j] ==
        if p.workers[j].life.Running?
        then Worker(Silently(dyn.monitor(p.workers[j].life.sim, config)).life, [], [])
        else Enqueue(p.workers[j], [Monitor(config)])
    {
      EachGetsOwn(n, seq(n, _ => Monitor(config)), j);
      ServeOne(dyn, p.workers[j], Monitor(config));
    }
  }
}
