/** The coordinator's side of the channels: sending commands to chosen
    workers (fan-out), letting the workers serve, and receiving replies in a
    fixed order (fan-in). Within one channel everything is FIFO; there is no
    order across channels. */
module Channels {
  import opened Protocol
  import opened WorkerLoop

  /** One `pipe.send((cmd, data))` on the channel of worker `to`. */
  datatype Send = Send(to: nat, cmd: Command)

  /** What a call that receives ends in: it returns, or it waits forever on
      the channel of worker `worker` (a worker whose process has exited
      without answering, or that was never asked: the coordinator keeps the
      worker's end of the pipe open, so the receive never fails), or it raises
      before it receives anything. */
  datatype Outcome<T> = Returned(value: T) | Blocked(worker: nat) | Threw(error: PyError)

  /** The replies received, with the workers as the receiving left them. */
  datatype Gathered = Gathered(result: Outcome<seq<Reply>>, workers: seq<Worker>)

  predicate Routed(sends: seq<Send>, n: nat) {
    forall k :: 0 <= k < |sends| ==> sends[k].to < n
  }

  predicate Increasing(ids: seq<nat>) {
    forall a, b :: 0 <= a < b < |ids| ==> ids[a] < ids[b]
  }

  predicate InRange(ids: seq<nat>, n: nat) {
    forall k :: 0 <= k < |ids| ==> ids[k] < n
  }

  /** Between two coordinator calls no reply is pending and a worker that is
      still serving has received every command. */
  predicate Quiescent(ws: seq<Worker>) {
    forall j :: 0 <= j < |ws| ==> ws[j].outbox == [] && (ws[j].life.Running? ==> ws[j].inbox == [])
  }

  /** `range(n)`: the index order of a fan-out to every worker. */
  function Indices(n: nat): (ids: seq<nat>)
    ensures |ids| == n && Increasing(ids) && InRange(ids, n)
  {
    seq(n, i => i)
  }

  /** One send per listed worker, `cmds[k]` to `ids[k]`, in list order. */
  function Sends(ids: seq<nat>, cmds: seq<Command>): (sends: seq<Send>)
    requires |ids| == |cmds|
    ensures |sends| == |ids|
    ensures forall k :: 0 <= k < |ids| ==> sends[k].to == ids[k] && sends[k].cmd == cmds[k]
  {
    seq(|ids|, k requires 0 <= k < |ids| => Send(ids[k], cmds[k]))
  }

  /** Worker by worker, the pending commands after one send. */
  function Post(ws: seq<Worker>, s: Send): seq<Worker>
    requires s.to < |ws|
  {
    ws[s.to := Enqueue(ws[s.to], [s.cmd])]
  }

  /** The workers after a run of sends, in the order they were made. */
  function Deliver(ws: seq<Worker>, sends: seq<Send>): (ws': seq<Worker>)
    requires Routed(sends, |ws|)
    ensures |ws'| == |ws|
    decreases |sends|
  {
    if sends == [] then ws
    else Post(Deliver(ws, sends[..|sends| - 1]), sends[|sends| - 1])
  }

  /** The commands a run of sends puts on the channel of worker `j`, in order. */
  function CommandsFor(sends: seq<Send>, j: nat): (cmds: seq<Command>)
    ensures |cmds| <= |sends|
    decreases |sends|
  {
    if sends == [] then []
    else
      var last := sends[|sends| - 1];
      CommandsFor(sends[..|sends| - 1], j) + (if last.to == j then [last.cmd] else [])
  }

  /** Every worker, once given the chance, serves what is waiting for it. */
  function RunAll(dyn: Dynamics, ws: seq<Worker>): (ws': seq<Worker>)
    ensures |ws'| == |ws|
  {
    seq(|ws|, j requires 0 <= j < |ws| => Serve(dyn, ws[j]))
  }

  /** Receive one reply from each listed worker in list order; the first
      channel with nothing to receive blocks the call. */
  function Collect(ws: seq<Worker>, ids: seq<nat>): (g: Gathered)
    requires InRange(ids, |ws|)
    ensures |g.workers| == |ws|
    ensures g.result.Returned? ==> |g.result.value| == |ids|
    ensures g.result.Blocked? ==> g.result.worker in ids
    ensures !g.result.Threw?
    decreases |ids|
  {
    if ids == [] then Gathered(Returned([]), ws)
    else
      var i := ids[0];
      if ws[i].outbox == [] then Gathered(Blocked(i), ws)
      else
        var rest := Collect(ws[i := ws[i].(outbox := ws[i].outbox[1..])], ids[1..]);
        match rest.result
        case Blocked(_) => rest
        case Returned(rs) => Gathered(Returned([ws[i].outbox[0]] + rs), rest.workers)
  }

  /** Replies already received, put in front of those still to come. */
  function Prefixed(received: seq<Reply>, g: Gathered): Gathered {
    if g.result.Returned? then Gathered(Returned(received + g.result.value), g.workers) else g
  }

  /** Receiving from `a` then `b` is receiving from `a`, and, if that
      returned, from `b` on the channels as `a` left them. */
  lemma {:induction false} CollectAppend(ws: seq<Worker>, a: seq<nat>, b: seq<nat>)
    requires InRange(a, |ws|) && InRange(b, |ws|)
    ensures var g := Collect(ws, a);
      Collect(ws, a + b) == if g.result.Returned? then Prefixed(g.result.value, Collect(g.workers, b)) else g
    decreases |a|
  {
    if a == [] {
      assert a + b == b;
      var c := Collect(ws, b);
      if c.result.Returned? { assert [] + c.result.value == c.result.value; }
    } else {
      var i := a[0];
      assert (a + b)[0] == i && (a + b)[1..] == a[1..] + b;
      if ws[i].outbox != [] {
        var ws1 := ws[i := ws[i].(outbox := ws[i].outbox[1..])];
        CollectAppend(ws1, a[1..], b);
        var g1 := Collect(ws1, a[1..]);
        if g1.result.Returned? {
          var c := Collect(g1.workers, b);
          if c.result.Returned? {
            var x := ws[i].outbox[0];
            assert [x] + (g1.result.value + c.result.value) == ([x] + g1.result.value) + c.result.value;
          }
        }
      }
    }
  }

  /** Sends reach only their own channel and keep their order there: worker
      `j` receives exactly `CommandsFor(sends, j)` after what it already had. */
  lemma {:induction false} DeliverPerWorker(ws: seq<Worker>, sends: seq<Send>, j: nat)
    requires Routed(sends, |ws|) && j < |ws|
    ensures Deliver(ws, sends)[j] == Enqueue(ws[j], CommandsFor(sends, j))
    decreases |sends|
  {
    if sends == [] {
      assert ws[j].inbox + [] == ws[j].inbox;
    } else {
      var init := sends[..|sends| - 1];
      DeliverPerWorker(ws, init, j);
      assert ws[j].inbox + CommandsFor(init, j) + [sends[|sends| - 1].cmd]
          == ws[j].inbox + (CommandsFor(init, j) + [sends[|sends| - 1].cmd]);
    }
  }

  /** A fan-out to distinct workers puts exactly one command on each listed
      channel and nothing on the others. */
  lemma {:induction false} SendsToDistinct(ids: seq<nat>, cmds: seq<Command>, j: nat)
    requires |ids| == |cmds|
    requires forall a, b :: 0 <= a < b < |ids| ==> ids[a] != ids[b]
    ensures forall k :: 0 <= k < |ids| && ids[k] == j ==> CommandsFor(Sends(ids, cmds), j) == [cmds[k]]
    ensures j !in ids ==> CommandsFor(Sends(ids, cmds), j) == []
    decreases |ids|
  {
    if ids != [] {
      var m := |ids| - 1;
      assert Sends(ids, cmds)[..m] == Sends(ids[..m], cmds[..m]);
      SendsToDistinct(ids[..m], cmds[..m], j);
      forall k | 0 <= k < |ids| && ids[k] == j
        ensures CommandsFor(Sends(ids, cmds), j) == [cmds[k]]
      {
        if k < m {
          assert ids[..m][k] == j;
        } else {
          assert j !in ids[..m];
        }
      }
      if j !in ids {
        assert j !in ids[..m];
      }
    }
  }

  /** Receiving the head of distinct channels leaves the rest untouched. */
  lemma TakeHead(ws: seq<Worker>, ids: seq<nat>)
    requires InRange(ids, |ws|) && Increasing(ids) && ids != [] && ws[ids[0]].outbox != []
    ensures var ws1 := ws[ids[0] := ws[ids[0]].(outbox := ws[ids[0]].outbox[1..])];
      forall k :: 0 <= k < |ids[1..]| ==> ws1[ids[1..][k]] == ws[ids[1..][k]]
  {
    forall k | 0 <= k < |ids[1..]| ensures ids[1..][k] != ids[0] {
      assert ids[1..][k] == ids[k + 1] && ids[0] < ids[k + 1];
    }
  }

  /** Fan-in from distinct channels: the call returns exactly when every
      listed channel holds a reply. */
  lemma {:induction false} CollectReturnsIff(ws: seq<Worker>, ids: seq<nat>)
    requires InRange(ids, |ws|) && Increasing(ids)
    ensures Collect(ws, ids).result.Returned? <==> forall k :: 0 <= k < |ids| ==> ws[ids[k]].outbox != []
    decreases |ids|
  {
    if ids != [] {
      var i := ids[0];
      if ws[i].outbox != [] {
        var ws1 := ws[i := ws[i].(outbox := ws[i].outbox[1..])];
        var tail := ids[1..];
        TakeHead(ws, ids);
        CollectReturnsIff(ws1, tail);
        var rest := Collect(ws1, tail);
        assert Collect(ws, ids).result.Returned? == rest.result.Returned?;
        if rest.result.Returned? {
          forall k | 0 <= k < |ids| ensures ws[ids[k]].outbox != [] {
            if k > 0 { assert ids[k] == tail[k - 1]; }
          }
        } else {
          var k' :| 0 <= k' < |tail| && ws1[tail[k']].outbox == [];
          assert ws[ids[k' + 1]].outbox == [];
        }
      }
    }
  }

  /** Fan-in from distinct channels that hold at most one reply each: the
      results are those replies in list order, the listed channels are
      emptied and the others untouched. */
  lemma {:induction false} CollectValues(ws: seq<Worker>, ids: seq<nat>)
    requires InRange(ids, |ws|) && Increasing(ids)
    requires forall k :: 0 <= k < |ids| ==> |ws[ids[k]].outbox| <= 1
    ensures var g := Collect(ws, ids);
      && (g.result.Returned? ==> forall k :: 0 <= k < |ids| ==> [g.result.value[k]] == ws[ids[k]].outbox)
      && (g.result.Returned? ==> forall j :: 0 <= j < |ws| ==>
            g.workers[j] == if j in ids then ws[j].(outbox := []) else ws[j])
    decreases |ids|
  {
    if ids != [] {
      var i := ids[0];
      if ws[i].outbox != [] {
        var ws1 := ws[i := ws[i].(outbox := ws[i].outbox[1..])];
        var tail := ids[1..];
        TakeHead(ws, ids);
        CollectValues(ws1, tail);
        var g := Collect(ws, ids);
        var rest := Collect(ws1, tail);
        if rest.result.Returned? {
          assert g == Gathered(Returned([ws[i].outbox[0]] + rest.result.value), rest.workers);
          forall k | 0 <= k < |ids| ensures [g.result.value[k]] == ws[ids[k]].outbox {
            if k > 0 { assert ids[k] == tail[k - 1]; }
          }
          forall j | 0 <= j < |ws|
            ensures g.workers[j] == if j in ids then ws[j].(outbox := []) else ws[j]
          {
            if j == i {
              assert j !in tail;
            } else {
              assert j in ids <==> j in tail;
            }
          }
        }
      }
    }
  }

  /** Fan-in from distinct channels that does not return waits at the first
      listed channel that holds nothing. */
  lemma {:induction false} CollectBlocked(ws: seq<Worker>, ids: seq<nat>)
    requires InRange(ids, |ws|) && Increasing(ids)
    ensures var g := Collect(ws, ids);
      g.result.Blocked? ==>
        exists k :: (0 <= k < |ids| && g.result.worker == ids[k] && ws[ids[k]].outbox == []
                     && forall m :: 0 <= m < k ==> ws[ids[m]].outbox != [])
    decreases |ids|
  {
    if ids != [] {
      var i := ids[0];
      if ws[i].outbox != [] {
        var ws1 := ws[i := ws[i].(outbox := ws[i].outbox[1..])];
        var tail := ids[1..];
        TakeHead(ws, ids);
        CollectBlocked(ws1, tail);
        var rest := Collect(ws1, tail);
        if rest.result.Blocked? {
          var k' :| 0 <= k' < |tail| && rest.result.worker == tail[k']
            && ws1[tail[k']].outbox == [] && forall m :: 0 <= m < k' ==> ws1[tail[m]].outbox != [];
          assert ids[k' + 1] == tail[k'];
          forall m | 0 <= m < k' + 1 ensures ws[ids[m]].outbox != [] {
            if m > 0 { assert ids[m] == tail[m - 1]; }
          }
        }
      }
    }
  }

  /** Worker `w` answers `cmd`: it is serving and the command does not raise. */
  function Answered(dyn: Dynamics, w: Worker, cmd: Command): (b: bool)
    ensures b ==> w.life.Running? && ExpectsReply(cmd)
  {
    w.life.Running? && Handle(dyn, w.life.sim, cmd).replies != []
  }

  /** A worker answers exactly the commands that ask for a reply, as long as
      it is serving and nothing it calls for the command raises. */
  lemma AnsweredIff(dyn: Dynamics, w: Worker, cmd: Command)
    ensures Answered(dyn, w, cmd) <==> w.life.Running? && ExpectsReply(cmd) && !Raised(dyn, w.life.sim, cmd)
  {
  }

  /** One round trip of the coordinator: send `cmds[k]` to worker `ids[k]`,
      let the workers serve, receive from `ids` in order. It returns exactly
      when every addressed worker answers; then result `k` is the reply of
      worker `ids[k]` to its own command, every addressed worker is waiting
      again with its channel empty, and the others are untouched. Otherwise
      it blocks at the first addressed worker that does not answer. */
  function RoundTrip(dyn: Dynamics, ws: seq<Worker>, ids: seq<nat>, cmds: seq<Command>): (g: Gathered)
    requires InRange(ids, |ws|) && |cmds| == |ids|
    ensures |g.workers| == |ws| && !g.result.Threw?
  {
    Collect(RunAll(dyn, Deliver(ws, Sends(ids, cmds))), ids)
  }

  lemma FanOutFanIn(dyn: Dynamics, ws: seq<Worker>, ids: seq<nat>, cmds: seq<Command>)
    requires Quiescent(ws) && InRange(ids, |ws|) && Increasing(ids) && |cmds| == |ids|
    requires forall k :: 0 <= k < |cmds| ==> ExpectsReply(cmds[k])
    ensures var g := RoundTrip(dyn, ws, ids, cmds);
      && ((forall k :: 0 <= k < |ids| ==> Answered(dyn, ws[ids[k]], cmds[k])) ==> g.result.Returned?)
      && (g.result.Returned? ==> forall k :: 0 <= k < |ids| ==>
            && Answered(dyn, ws[ids[k]], cmds[k])
            && g.result.value[k] == Handle(dyn, ws[ids[k]].life.sim, cmds[k]).replies[0]
            && g.workers[ids[k]] == Worker(Handle(dyn, ws[ids[k]].life.sim, cmds[k]).life, [], []))
      && (g.result.Returned? ==> forall j :: 0 <= j < |ws| && j !in ids ==> g.workers[j] == ws[j])
      && (g.result.Returned? ==> Quiescent(g.workers))
      && (g.result.Blocked? ==>
            exists k :: (0 <= k < |ids| && g.result.worker == ids[k] && !Answered(dyn, ws[ids[k]], cmds[k])
                         && forall m :: 0 <= m < k ==> Answered(dyn, ws[ids[m]], cmds[m])))
  {
    FanOutAnswering(dyn, ws, ids, cmds);
    FanOutReplies(dyn, ws, ids, cmds);
    FanOutBlocked(dyn, ws, ids, cmds);
  }

  /** A round trip returns exactly when every addressed worker answers. */
  lemma FanOutAnswering(dyn: Dynamics, ws: seq<Worker>, ids: seq<nat>, cmds: seq<Command>)
    requires Quiescent(ws) && InRange(ids, |ws|) && Increasing(ids) && |cmds| == |ids|
    ensures RoundTrip(dyn, ws, ids, cmds).result.Returned? <==>
      forall k :: 0 <= k < |ids| ==> Answered(dyn, ws[ids[k]], cmds[k])
  {
    RanOutboxes(dyn, ws, ids, cmds);
    CollectReturnsIff(RunAll(dyn, Deliver(ws, Sends(ids, cmds))), ids);
  }

  /** After a fan-out of one command to each of distinct quiescent workers,
      an addressed worker has a reply waiting exactly when it answered. */
  lemma RanOutboxes(dyn: Dynamics, ws: seq<Worker>, ids: seq<nat>, cmds: seq<Command>)
    requires Quiescent(ws) && InRange(ids, |ws|) && Increasing(ids) && |cmds| == |ids|
    ensures var ran := RunAll(dyn, Deliver(ws, Sends(ids, cmds)));
      forall k :: 0 <= k < |ids| ==> (ran[ids[k]].outbox != [] <==> Answered(dyn, ws[ids[k]], cmds[k]))
  {
    forall k | 0 <= k < |ids| {
      RanOutboxAt(dyn, ws, ids, cmds, k);
    }
  }

  lemma {:induction false} RanOutboxAt(dyn: Dynamics, ws: seq<Worker>, ids: seq<nat>, cmds: seq<Command>, k: nat)
    requires Quiescent(ws) && InRange(ids, |ws|) && Increasing(ids) && |cmds| == |ids| && k < |ids|
    ensures RunAll(dyn, Deliver(ws, Sends(ids, cmds)))[ids[k]].outbox != [] <==> Answered(dyn, ws[ids[k]], cmds[k])
  {
    var sends := Sends(ids, cmds);
    DeliverPerWorker(ws, sends, ids[k]);
    SendsToDistinct(ids, cmds, ids[k]);
    OneCommand(dyn, ws[ids[k]], cmds[k]);
  }

  /** A waiting worker given one command has a reply waiting exactly when it
      answered that command. */
  lemma OneCommand(dyn: Dynamics, w: Worker, cmd: Command)
    requires w.outbox == [] && (w.life.Running? ==> w.inbox == [])
    ensures Serve(dyn, Enqueue(w, [cmd])).outbox != [] <==> Answered(dyn, w, cmd)
  {
    ServeOne(dyn, w, cmd);
  }

  /** What a round trip that returns hands back, and the workers it leaves. */
  lemma FanOutReplies(dyn: Dynamics, ws: seq<Worker>, ids: seq<nat>, cmds: seq<Command>)
    requires Quiescent(ws) && InRange(ids, |ws|) && Increasing(ids) && |cmds| == |ids|
    requires forall k :: 0 <= k < |cmds| ==> ExpectsReply(cmds[k])
    ensures var g := RoundTrip(dyn, ws, ids, cmds);
      && (g.result.Returned? ==> forall k :: 0 <= k < |ids| ==>
            && Answered(dyn, ws[ids[k]], cmds[k])
            && g.result.value[k] == Handle(dyn, ws[ids[k]].life.sim, cmds[k]).replies[0]
            && g.workers[ids[k]] == Worker(Handle(dyn, ws[ids[k]].life.sim, cmds[k]).life, [], []))
      && (g.result.Returned? ==> forall j :: 0 <= j < |ws| && j !in ids ==> g.workers[j] == ws[j])
      && (g.result.Returned? ==> Quiescent(g.workers))
  {
    var ran := RunAll(dyn, Deliver(ws, Sends(ids, cmds)));
    ServedOnce(dyn, ws, ids, cmds);
    FanOutAnswering(dyn, ws, ids, cmds);
    CollectValues(ran, ids);
  }

  /** After a fan-out of one command to each of distinct quiescent workers,
      each addressed worker has dispatched its command (or, having exited,
      left it unread) and the others are untouched. */
  lemma ServedOnce(dyn: Dynamics, ws: seq<Worker>, ids: seq<nat>, cmds: seq<Command>)
    requires Quiescent(ws) && InRange(ids, |ws|) && Increasing(ids) && |cmds| == |ids|
    ensures var ran := RunAll(dyn, Deliver(ws, Sends(ids, cmds)));
      && (forall k :: 0 <= k < |ids| ==>
            ran[ids[k]] == if ws[ids[k]].life.Running?
                           then Worker(Handle(dyn, ws[ids[k]].life.sim, cmds[k]).life, [],
                                       Handle(dyn, ws[ids[k]].life.sim, cmds[k]).replies)
                           else Enqueue(ws[ids[k]], [cmds[k]]))
      && (forall j :: 0 <= j < |ws| && j !in ids ==> ran[j] == ws[j])
  {
    var sends := Sends(ids, cmds);
    var ran := RunAll(dyn, Deliver(ws, sends));
    forall k | 0 <= k < |ids|
      ensures ran[ids[k]] == (if ws[ids[k]].life.Running?
                              then Worker(Handle(dyn, ws[ids[k]].life.sim, cmds[k]).life, [],
                                          Handle(dyn, ws[ids[k]].life.sim, cmds[k]).replies)
                              else Enqueue(ws[ids[k]], [cmds[k]]))
    {
      DeliverPerWorker(ws, sends, ids[k]);
      SendsToDistinct(ids, cmds, ids[k]);
      ServeOne(dyn, ws[ids[k]], cmds[k]);
    }
    forall j | 0 <= j < |ws| && j !in ids ensures ran[j] == ws[j] {
      DeliverPerWorker(ws, sends, j);
      SendsToDistinct(ids, cmds, j);
      assert Enqueue(ws[j], []) == ws[j];
    }
  }

  /** Where a round trip that does not return waits: at the first addressed
      worker that does not answer. */
  lemma FanOutBlocked(dyn: Dynamics, ws: seq<Worker>, ids: seq<nat>, cmds: seq<Command>)
    requires Quiescent(ws) && InRange(ids, |ws|) && Increasing(ids) && |cmds| == |ids|
    requires forall k :: 0 <= k < |cmds| ==> ExpectsReply(cmds[k])
    ensures var g := RoundTrip(dyn, ws, ids, cmds);
      g.result.Blocked? ==>
        exists k :: (0 <= k < |ids| && g.result.worker == ids[k] && !Answered(dyn, ws[ids[k]], cmds[k])
                     && forall m :: 0 <= m < k ==> Answered(dyn, ws[ids[m]], cmds[m]))
  {
    RanOutboxes(dyn, ws, ids, cmds);
    CollectBlocked(RunAll(dyn, Deliver(ws, Sends(ids, cmds))), ids);
  }

  /** `FanOutBlocked` for a fan-out to the first `|cmds|` workers in index
      order. */
  lemma FanOutBlockedInOrder(dyn: Dynamics, ws: seq<Worker>, cmds: seq<Command>)
    requires Quiescent(ws) && |cmds| <= |ws|
    requires forall k :: 0 <= k < |cmds| ==> ExpectsReply(cmds[k])
    ensures var g := RoundTrip(dyn, ws, Indices(|cmds|), cmds);
      g.result.Blocked? ==>
        var i := g.result.worker;
        i < |cmds| && !Answered(dyn, ws[i], cmds[i]) && forall m :: 0 <= m < i ==> Answered(dyn, ws[m], cmds[m])
  {
    var ids := Indices(|cmds|);
    FanOutBlocked(dyn, ws, ids, cmds);
    var g := RoundTrip(dyn, ws, ids, cmds);
    if g.result.Blocked? {
      var k :| 0 <= k < |ids| && g.result.worker == ids[k] && !Answered(dyn, ws[ids[k]], cmds[k])
               && forall m :: 0 <= m < k ==> Answered(dyn, ws[ids[m]], cmds[m]);
      assert ids[k] == k;
      forall m | 0 <= m < k ensures Answered(dyn, ws[m], cmds[m]) {
        assert ids[m] == m;
      }
    }
  }

  /** A fan-out of commands that ask for no reply leaves the workers
      quiescent, each having served exactly what was sent on its channel. */
  lemma SilentFanOut(dyn: Dynamics, ws: seq<Worker>, sends: seq<Send>)
    requires Quiescent(ws) && Routed(sends, |ws|)
    requires forall k :: 0 <= k < |sends| ==> !ExpectsReply(sends[k].cmd)
    ensures forall j :: 0 <= j < |ws| ==>
      RunAll(dyn, Deliver(ws, sends))[j] == Serve(dyn, Enqueue(ws[j], CommandsFor(sends, j)))
    ensures Quiescent(RunAll(dyn, Deliver(ws, sends)))
  {
    forall j | 0 <= j < |ws|
      ensures RunAll(dyn, Deliver(ws, sends))[j] == Serve(dyn, Enqueue(ws[j], CommandsFor(sends, j)))
      ensures RunAll(dyn, Deliver(ws, sends))[j].outbox == []
    {
      DeliverPerWorker(ws, sends, j);
      SilentChannel(sends, j);
    }
  }

  /** A channel fed only commands that ask for no reply expects no reply. */
  lemma {:induction false} SilentChannel(sends: seq<Send>, j: nat)
    requires forall k :: 0 <= k < |sends| ==> !ExpectsReply(sends[k].cmd)
    ensures CountExpecting(CommandsFor(sends, j)) == 0
    decreases |sends|
  {
    if sends != [] {
      var init := sends[..|sends| - 1];
      var last := sends[|sends| - 1];
      SilentChannel(init, j);
      var tail := if last.to == j then [last.cmd] else [];
      CountExpectingAppend(CommandsFor(init, j), tail);
      if last.to == j {
        assert CountExpecting(tail) == CountExpecting(tail[1..]);
      }
    }
  }

  /** What a round trip returns: the k-th result answers the k-th command. */
  lemma FanInAnswers(dyn: Dynamics, ws: seq<Worker>, ids: seq<nat>, cmds: seq<Command>)
    requires Quiescent(ws) && InRange(ids, |ws|) && Increasing(ids) && |cmds| == |ids|
    requires forall k :: 0 <= k < |cmds| ==> ExpectsReply(cmds[k])
    ensures var g := Collect(RunAll(dyn, Deliver(ws, Sends(ids, cmds))), ids);
      g.result.Returned? ==> forall k :: 0 <= k < |ids| ==> Answers(cmds[k], g.result.value[k])
  {
    FanOutFanIn(dyn, ws, ids, cmds);
  }
}
