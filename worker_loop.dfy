/** The worker process: it owns one simulation instance and serves the
    commands that arrive on its channel until told to close or until a
    command fails. */
module WorkerLoop {
  import opened Protocol

  /** Where the worker is: serving (with its simulation), finished after
      `close`, or exited abnormally (`exit(-1)`). */
  datatype Life = Running(sim: SimState) | Closed | Crashed

  /** One worker with its end of the channel: `inbox` holds the commands sent
      but not yet received, `outbox` the replies sent but not yet received. */
  datatype Worker = Worker(life: Life, inbox: seq<Command>, outbox: seq<Reply>)

  /** The effect of dispatching one command: the worker's next life and the
      replies it sent (none or one). */
  datatype Handled = Handled(life: Life, replies: seq<Reply>)

  /** The worker process as it starts: build the simulation from the factory
      and seed it; an exception in either ends the process before it serves. */
  function Spawn(dyn: Dynamics, fn: EnvFn, seed: int): (w: Worker)
    ensures w.inbox == [] && w.outbox == []
    ensures w.life.Running? <==> dyn.make(fn).Returns? && dyn.seed(dyn.make(fn).value, Some(seed)).Returns?
    ensures w.life.Running? ==> w.life.sim == dyn.seed(dyn.make(fn).value, Some(seed)).value
    ensures !w.life.Closed?
  {
    match dyn.make(fn)
    case Raises => Worker(Crashed, [], [])
    case Returns(sim) =>
      match dyn.seed(sim, Some(seed))
      case Raises => Worker(Crashed, [], [])
      case Returns(seeded) => Worker(Running(seeded), [], [])
  }

  /** Dispatching `cmd` raises: a call into the simulation that it makes
      raised, or its tag is unknown (`NotImplementedError`). A `step` that
      ends the episode also calls `reset`. */
  predicate Raised(dyn: Dynamics, sim: SimState, cmd: Command) {
    match cmd
    case Step(action) =>
      dyn.step(sim, action).Raises?
      || (dyn.step(sim, action).value.done && dyn.reset(dyn.step(sim, action).value.next).Raises?)
    case Reset => dyn.reset(sim).Raises?
    case Close => false
    case GetSpaces => false
    case Monitor(config) => dyn.monitor(sim, config).Raises?
    case Render => dyn.render(sim).Raises?
    case Seed(s) => dyn.seed(sim, s).Raises?
    case Unknown(_) => true
  }

  /** One pass through the dispatch on the command's tag. */
  function Handle(dyn: Dynamics, sim: SimState, cmd: Command): (h: Handled)
    ensures |h.replies| <= 1
    ensures h.life.Closed? <==> cmd.Close?
    // any exception ends the worker (`exit(-1)`), and nothing else does
    ensures h.life.Crashed? <==> Raised(dyn, sim, cmd)
    ensures h.life.Running? ==> |h.replies| == (if ExpectsReply(cmd) then 1 else 0)
    ensures !h.life.Running? ==> h.replies == []
    ensures h.replies != [] ==> Answers(cmd, h.replies[0])
    // a step reply carries the step's own reward, done flag and info; its
    // observation is the step's unless the episode ended, and then it is the
    // observation of the automatic reset
    ensures cmd.Step? && h.replies != [] ==>
      && dyn.step(sim, cmd.action).Returns?
      && var t := dyn.step(sim, cmd.action).value;
      && h.replies[0].reward == t.reward
      && h.replies[0].done == t.done
      && h.replies[0].info == t.info
      && (!t.done ==> h.replies[0].ob == t.ob && h.life == Running(t.next))
      && (t.done ==> dyn.reset(t.next).Returns?
                     && h.replies[0].ob == dyn.reset(t.next).value.ob
                     && h.life == Running(dyn.reset(t.next).value.next))
    ensures cmd.Reset? && h.replies != [] ==>
      dyn.reset(sim).Returns? && h.replies == [ResetReply(dyn.reset(sim).value.ob)]
    // the worker goes on from the state the simulation call left
    ensures cmd.Reset? && h.life.Running? ==> h.life.sim == dyn.reset(sim).value.next
    ensures cmd.Monitor? ==> h == Silently(dyn.monitor(sim, cmd.config))
    ensures cmd.Render? ==> h == Silently(dyn.render(sim))
    ensures cmd.Seed? ==> h == Silently(dyn.seed(sim, cmd.seed))
    ensures cmd.GetSpaces? ==>
      h == Handled(Running(sim), [SpacesReply(dyn.actionSpace(sim), dyn.observationSpace(sim))])
  {
    match cmd
    case Step(action) =>
      (match dyn.step(sim, action)
       case Raises => Handled(Crashed, [])
       case Returns(t) =>
         if !t.done then Handled(Running(t.next), [StepReply(t.ob, t.reward, t.done, t.info)])
         else
           match dyn.reset(t.next)
           case Raises => Handled(Crashed, [])
           case Returns(r) => Handled(Running(r.next), [StepReply(r.ob, t.reward, t.done, t.info)]))
    case Reset =>
      (match dyn.reset(sim)
       case Raises => Handled(Crashed, [])
       case Returns(r) => Handled(Running(r.next), [ResetReply(r.ob)]))
    case Close => Handled(Closed, [])
    case GetSpaces => Handled(Running(sim), [SpacesReply(dyn.actionSpace(sim), dyn.observationSpace(sim))])
    case Monitor(config) => Silently(dyn.monitor(sim, config))
    case Render => Silently(dyn.render(sim))
    case Seed(s) => Silently(dyn.seed(sim, s))
    case Unknown(_) => Handled(Crashed, [])
  }

  /** A command that sends no reply: the worker goes on with the new state,
      or exits if the simulation raised. */
  function Silently(c: Call<SimState>): (h: Handled)
    ensures h.replies == []
    ensures h.life.Running? <==> c.Returns?
    ensures h.life.Running? ==> h.life.sim == c.value
    ensures !h.life.Closed?
  {
    match c
    case Returns(next) => Handled(Running(next), [])
    case Raises => Handled(Crashed, [])
  }

  /** `pipe.send` from the coordinator's side: the commands join the inbox. */
  function Enqueue(w: Worker, cmds: seq<Command>): (w': Worker)
    ensures w'.life == w.life && w'.outbox == w.outbox
    ensures |w'.inbox| == |w.inbox| + |cmds| && w'.inbox[..|w.inbox|] == w.inbox && w'.inbox[|w.inbox|..] == cmds
  {
    w.(inbox := w.inbox + cmds)
  }

  /** The worker's `while True` loop, run until it would block on an empty
      channel or has left the loop: the specification of `RunWorker`. */
  function Serve(dyn: Dynamics, w: Worker): (w': Worker)
    // a worker still serving has received everything sent to it
    ensures w'.life.Running? ==> w'.inbox == []
    // replies are only ever appended, at most one per command that asks for one
    ensures |w.outbox| <= |w'.outbox| <= |w.outbox| + CountExpecting(w.inbox)
    ensures w'.outbox[..|w.outbox|] == w.outbox
    decreases |w.inbox|
  {
    if !w.life.Running? || w.inbox == [] then w
    else
      var h := Handle(dyn, w.life.sim, w.inbox[0]);
      Serve(dyn, Worker(h.life, w.inbox[1..], w.outbox + h.replies))
  }

  /** Commands are received from the front of the channel, in order: what a
      run leaves unread is a suffix of what was waiting. */
  lemma {:induction false} ServeFromFront(dyn: Dynamics, w: Worker)
    ensures |Serve(dyn, w).inbox| <= |w.inbox|
    ensures Serve(dyn, w).inbox == w.inbox[|w.inbox| - |Serve(dyn, w).inbox|..]
    decreases |w.inbox|
  {
    if w.life.Running? && w.inbox != [] {
      var h := Handle(dyn, w.life.sim, w.inbox[0]);
      var w1 := Worker(h.life, w.inbox[1..], w.outbox + h.replies);
      assert Serve(dyn, w) == Serve(dyn, w1);
      ServeFromFront(dyn, w1);
      var k := |Serve(dyn, w1).inbox|;
      assert w.inbox[1..][|w.inbox| - 1 - k..] == w.inbox[|w.inbox| - k..];
    }
  }

  /** The receive-dispatch loop itself, one command per iteration. */
  method RunWorker(dyn: Dynamics, w: Worker) returns (w': Worker)
    ensures w' == Serve(dyn, w)
  {
    w' := w;
    while w'.life.Running? && |w'.inbox| > 0
      invariant Serve(dyn, w') == Serve(dyn, w)
      decreases |w'.inbox|
    {
      var cmd := w'.inbox[0];
      var h := Handle(dyn, w'.life.sim, cmd);
      w' := Worker(h.life, w'.inbox[1..], w'.outbox + h.replies);
    }
  }

  /** Serving is insensitive to when the commands arrive: commands that come
      after the worker has served are handled as if they had been there all
      along. This is what lets a batch be modelled as "send to every worker,
      then let every worker run". */
  lemma {:induction false} ServeSplit(dyn: Dynamics, w: Worker, more: seq<Command>)
    ensures Serve(dyn, Enqueue(w, more)) == Serve(dyn, Enqueue(Serve(dyn, w), more))
    decreases |w.inbox|
  {
    if !w.life.Running? || w.inbox == [] {
      assert Serve(dyn, w) == w;
    } else {
      var h := Handle(dyn, w.life.sim, w.inbox[0]);
      var w1 := Worker(h.life, w.inbox[1..], w.outbox + h.replies);
      assert (w.inbox + more)[0] == w.inbox[0];
      assert (w.inbox + more)[1..] == w.inbox[1..] + more;
      assert Serve(dyn, Enqueue(w, more)) == Serve(dyn, Enqueue(w1, more));
      ServeSplit(dyn, w1, more);
    }
  }

  /** A worker that is still serving after a run of commands has answered
      each command that asks for a reply exactly once. */
  lemma {:induction false} ServeAnswersEach(dyn: Dynamics, w: Worker)
    requires Serve(dyn, w).life.Running?
    ensures |Serve(dyn, w).outbox| == |w.outbox| + CountExpecting(w.inbox)
    decreases |w.inbox|
  {
    if w.inbox != [] {
      var h := Handle(dyn, w.life.sim, w.inbox[0]);
      var w1 := Worker(h.life, w.inbox[1..], w.outbox + h.replies);
      assert Serve(dyn, w) == Serve(dyn, w1);
      if h.life.Running? {
        ServeAnswersEach(dyn, w1);
      }
    }
  }

  /** `close` and an unknown tag both end the loop: whatever follows them on
      the channel is never received, and neither sends a reply. */
  lemma StopsAt(dyn: Dynamics, w: Worker, cmd: Command, rest: seq<Command>)
    requires cmd.Close? || cmd.Unknown?
    requires Serve(dyn, w).life.Running?
    ensures Serve(dyn, Enqueue(w, [cmd] + rest))
         == Worker(if cmd.Close? then Closed else Crashed, rest, Serve(dyn, w).outbox)
  {
    ServeSplit(dyn, w, [cmd] + rest);
    StopsFirst(dyn, Serve(dyn, w), cmd, rest);
  }

  lemma StopsFirst(dyn: Dynamics, u: Worker, cmd: Command, rest: seq<Command>)
    requires cmd.Close? || cmd.Unknown?
    requires u.life.Running? && u.inbox == []
    ensures Serve(dyn, Enqueue(u, [cmd] + rest))
         == Worker(if cmd.Close? then Closed else Crashed, rest, u.outbox)
  {
    var v := Enqueue(u, [cmd] + rest);
    assert v.inbox[0] == cmd && v.inbox[1..] == rest;
    var h := Handle(dyn, u.life.sim, cmd);
    var v1 := Worker(h.life, rest, u.outbox + h.replies);
    assert Serve(dyn, v) == Serve(dyn, v1);
  }

  /** A quiescent worker given one command: a serving worker dispatches it
      and is then waiting again; a worker that has exited leaves it unread. */
  lemma ServeOne(dyn: Dynamics, w: Worker, cmd: Command)
    requires w.life.Running? ==> w.inbox == []
    ensures Serve(dyn, Enqueue(w, [cmd])) ==
      if w.life.Running? then
        var h := Handle(dyn, w.life.sim, cmd);
        Worker(h.life, [], w.outbox + h.replies)
      else Enqueue(w, [cmd])
  {
    if w.life.Running? {
      var v := Enqueue(w, [cmd]);
      assert v.inbox == [cmd];
      var h := Handle(dyn, w.life.sim, cmd);
      assert Serve(dyn, v) == Serve(dyn, Worker(h.life, [], w.outbox + h.replies));
    }
  }
}
