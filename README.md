# Batched environment coordinator

A model of `utils/batched_env.py`: a `BatchedEnv` that runs one reinforcement
learning environment per worker process and drives them as a batch. It talks to
each worker over a private channel, and each worker runs a receive-dispatch loop
over one simulation.

The model has these parts:

- **Protocol** (`protocol.dfy`). The commands (`step`, `reset`, `close`,
  `get_spaces`, `monitor`, `render`, `seed`, and any unknown tag) and the three
  kinds of reply.
  - The simulation is opaque: a `Dynamics` record of total functions. Each
    returns `Returns(v)` or `Raises`, where `Raises` stands for a Python
    exception.
  - The protocol's reply rule is here: `step`, `reset` and `get_spaces` are
    answered once; the other commands are never answered.
- **Worker loop** (`worker_loop.dfy`).
  - `Handle` is one dispatch of the `worker` loop, including the automatic
    reset at the end of an episode.
  - `Serve` is the loop as a function; `RunWorker` is the loop itself, proved
    equal to it.
  - A worker is `Running(sim)`, `Closed` (left the loop on `close`) or
    `Crashed` (an unknown tag or an exception: `exit(-1)`).
- **Channels** (`channels.dfy`). Each worker has an inbox and an outbox.
  - A fan-out is a transcript of sends.
  - A fan-in receives from the listed channels in order. A receive on an empty
    channel never returns, because the coordinator keeps its own copy of the
    worker's end of the pipe. That outcome is `Blocked(i)`.
  - Round trips are proved to return exactly when every addressed worker
    answers. Reply `k` is then worker `ids[k]`'s answer, and everyone else is
    untouched.
- **Step counters** (`step_counters.dfy`). The counters are an `int16` numpy
  array. Its `+= 1` wraps at 2^15, and this is modelled explicitly.
- **Coordinator specification** (`coordinator.dfy`). Each operation of
  `BatchedEnv` is a function over a `Pool` (the workers and the counters). Each
  returns an `Outcome`:
  - `Returned(value)`;
  - `Blocked(worker)`: the call waits forever;
  - `Threw(error)`: `ValueError` or `IndexError`.
- **The object** (`batched_env.dfy`). `class BatchedEnv` has the source's
  fields: the workers, the `int16` counter array, `num_envs` and the two
  spaces.
  - Each method makes its sends and lets the workers serve with loops. It is
    proved to do exactly what its specification function says.
  - A ghost `steps` records each worker's true step count. The invariant
    `Valid` keeps each counter equal to that count modulo 2^16.
  - `close` nulls every field, so no later operation's precondition holds.
- **Properties** (`properties.dfy`). What each operation promises: which
  workers receive which command, which replies come back and in what order, and
  how the counters change. It also covers the edge cases: an all-false mask,
  an all-true mask, an empty `env_ids` list, a bad index, and zero factories.

## Model

| member | source | states |
|---|---|---|
| Protocol.CountExpecting | utils/batched_env.py:31-55 | how many replies a run of commands asks for: at most one per command |
| Protocol.CountExpectingAppend | utils/batched_env.py:31-55 | replies asked for by two runs of commands add up |
| WorkerLoop.Spawn | utils/batched_env.py:25-30 | a new worker serves exactly when building and then seeding its simulation did not raise, and it serves the seeded state; it starts with empty channels and is never `Closed` |
| WorkerLoop.Handle | utils/batched_env.py:31-59 | the dispatch: `close` and only `close` ends the loop normally; the worker exits abnormally exactly when a simulation call raised or the tag is unknown (`Raised`); a worker that survives answers exactly the commands that ask for a reply, with a reply of the matching kind; a step reply carries the step's reward, done flag and info, and its observation is the auto-reset's when done; `reset` answers with the reset observation and goes on from the reset state; `monitor`, `render` and `seed` go on from the state the call left, or exit if it raised; `get_spaces` answers with both spaces and leaves the state alone |
| WorkerLoop.Silently | utils/batched_env.py:47-53 | `monitor`, `render` and `seed` never reply; the worker goes on exactly when the call did not raise |
| WorkerLoop.Enqueue | utils/batched_env.py:117-118 | a send appends to the worker's channel and touches nothing else |
| WorkerLoop.Serve | utils/batched_env.py:31-59 | a worker still serving has received all that was sent; replies are only appended, at most one per command asking for one (the order of receiving is stated by `WorkerLoop.ServeFromFront`) |
| WorkerLoop.ServeFromFront | utils/batched_env.py:31-33 | commands are received from the front of the channel, in order: what a run leaves unread is a suffix of what was waiting |
| WorkerLoop.RunWorker | utils/batched_env.py:31-59 | the `while True` receive-dispatch loop ends in the state `Serve` describes |
| WorkerLoop.ServeSplit | utils/batched_env.py:31-32 | serving is independent of when commands arrive: serving, then receiving more, equals serving all at once |
| WorkerLoop.ServeAnswersEach | utils/batched_env.py:31-55 | a worker still serving has answered every command that asks for a reply exactly once |
| WorkerLoop.StopsAt | utils/batched_env.py:42-44 | after `close` (or an unknown tag) nothing more is received and no reply is sent |
| WorkerLoop.ServeOne | utils/batched_env.py:31-59 | a waiting worker given one command dispatches it and waits again; an exited worker leaves it unread |
| StepCounters.Inc16 | utils/batched_env.py:121 | `+= 1` on an int16 element: one more below 32767, wrapping to -32768 at 32767, always one more modulo 2^16 |
| StepCounters.Wrap16 | utils/batched_env.py:109-121 | the int16 that represents a step count, equal to it modulo 2^16 and equal to it below 2^15 |
| StepCounters.Inc16Wraps | utils/batched_env.py:121 | incrementing a wrapped count gives the wrapped next count |
| Channels.Deliver | utils/batched_env.py:117-118 | one worker per worker; what each channel receives (its own sends, in order, appended) is stated by `Channels.DeliverPerWorker` |
| Channels.Sends | utils/batched_env.py:117-118 | send `k` carries command `k` to worker `ids[k]`, one per listed worker, in list order |
| Channels.RunAll | utils/batched_env.py:25-59 | one worker per worker; each serves its own channel as `Serve` describes (the loop is `Batched.RunEach`) |
| Channels.DeliverPerWorker | utils/batched_env.py:117-118 | after a fan-out each channel holds exactly the commands addressed to it, in send order |
| Channels.SendsToDistinct | utils/batched_env.py:117-118 | a fan-out to distinct workers puts exactly one command on each listed channel and nothing on the others |
| Channels.Collect | utils/batched_env.py:119 | receiving in order never raises; on return there is one reply per listed channel; a wait is always on a listed channel |
| Channels.CollectAppend | utils/batched_env.py:119 | receiving from `a + b` is receiving from `a` and then, if that returned, from `b` |
| Channels.CollectReturnsIff | utils/batched_env.py:119 | receiving returns exactly when every listed channel has a reply waiting |
| Channels.CollectValues | utils/batched_env.py:119 | on return, reply `k` is the one waiting on channel `ids[k]`, which is emptied; other channels are untouched |
| Channels.CollectBlocked | utils/batched_env.py:119 | a receive that does not return waits on the first listed channel that is empty |
| Channels.FanOutFanIn | utils/batched_env.py:117-119 | a round trip returns iff every addressed worker answers; then reply `k` is worker `ids[k]`'s answer, each addressed worker waits again in its new state, the others are untouched; otherwise it waits at the first worker that does not answer |
| Channels.FanOutAnswering | utils/batched_env.py:117-119 | a round trip returns exactly when every addressed worker answers |
| Channels.Answered | utils/batched_env.py:31-59 | a worker that answers is serving and was sent a command that asks for a reply; the converse, with no exception, is `Channels.AnsweredIff` |
| Channels.AnsweredIff | utils/batched_env.py:31-59 | a worker answers a command exactly when it is serving, the command asks for a reply, and no simulation call made for it raised |
| Channels.RoundTrip | utils/batched_env.py:117-119 | a round trip never raises and keeps one worker per worker; when it returns and where it waits is stated by `Channels.FanOutFanIn` |
| Channels.RanOutboxes | utils/batched_env.py:117-119 | after a fan-out and a turn for every worker, an addressed worker has something to receive exactly when it answers its command |
| Channels.OneCommand | utils/batched_env.py:31-59 | a waiting worker sent one command produces a reply exactly when that command is answered |
| Channels.FanOutReplies | utils/batched_env.py:117-119 | what a round trip that returns gives back and the workers it leaves |
| Channels.ServedOnce | utils/batched_env.py:117-119 | after a fan-out each addressed worker has dispatched its one command (or left it unread if it had exited); others untouched |
| Channels.FanOutBlocked | utils/batched_env.py:117-119 | a round trip that does not return waits at the first addressed worker that does not answer, after all earlier ones answered |
| Channels.SilentFanOut | utils/batched_env.py:169-172 | a fan-out of commands that ask for no reply leaves every worker waiting, having served exactly its own channel |
| Channels.SilentChannel | utils/batched_env.py:169-172 | a channel fed only reply-less commands expects no reply |
| Channels.FanInAnswers | utils/batched_env.py:117-119 | each reply of a round trip is of the kind that answers its command |
| Coordinator.Spawned | utils/batched_env.py:92-104 | one worker per factory, worker `i` built from factory `i` with seed `i`, all waiting |
| Coordinator.Zeros | utils/batched_env.py:109 | `np.zeros(n, int16)`: `n` counters, all zero |
| Coordinator.Construct | utils/batched_env.py:80-109 | `__init__`: no factories raises `ValueError` and starts nothing; otherwise one worker per factory, and on return all counters zero; the spaces and the waiting case are stated by `Properties.ConstructSpaces` |
| Coordinator.StepCommands | utils/batched_env.py:117-118 | command `k` is `step` carrying `actions[k]` |
| Coordinator.Unstack | utils/batched_env.py:120-122 | `zip(*results)` then `np.stack`: component `k` of each output is the matching field of reply `k` |
| Coordinator.IncAll | utils/batched_env.py:121 | one counter per counter; that each is incremented as an int16 is stated by `Properties.StepResult` and `Batched.BatchedEnv.AdvanceCounters` |
| Coordinator.Zipped | utils/batched_env.py:117 | `zip` stops at the shorter of channels and actions |
| Coordinator.StepExchange | utils/batched_env.py:117-119 | the step traffic never raises and keeps one worker per worker; its return condition and replies are stated by `Coordinator.StepRoundTrip` |
| Coordinator.BatchStep | utils/batched_env.py:111-122 | `step` never raises; on return one observation per worker and every counter advanced, otherwise counters unchanged; the per-worker results are stated by `Properties.StepResult` |
| Coordinator.StepRoundTrip | utils/batched_env.py:117-122 | `step` returns iff there is an action for every worker and each answers its step; then result `k` is worker `k`'s reply to `actions[k]` and all wait again; otherwise it waits at the first worker with no action or no answer |
| Coordinator.StepFullBatch | utils/batched_env.py:117-122 | with an action for every worker: `step` returns iff each worker answers its own action; reply `k` and worker `k`'s new state come from its dispatch; otherwise it waits at the first worker that does not answer |
| Coordinator.StepFullAnswering | utils/batched_env.py:117-119 | with an action for every worker, `step` returns exactly when every worker answers its action |
| Coordinator.StepFullReplies | utils/batched_env.py:117-122 | with an action for every worker, a returning `step` gives worker `k`'s step reply at position `k` and leaves every worker waiting in its new state |
| Coordinator.StepFullBlocked | utils/batched_env.py:117-119 | with an action for every worker, a `step` that does not return waits at the first worker that does not answer |
| Coordinator.StepShortBatch | utils/batched_env.py:117-119 | with fewer actions than workers, `step` never returns: `zip` leaves a worker without a command and the receive from it waits, at the latest at the first worker with no action |
| Coordinator.StepRepliesAreSteps | utils/batched_env.py:119-120 | every reply collected by `step` is a step reply |
| Coordinator.Flagged | utils/batched_env.py:142-147 | the flagged indices, increasing, one per set entry, and an index is listed iff its entry is set |
| Coordinator.CountNonzero | utils/batched_env.py:135 | `np.count_nonzero`: at most one per entry; zero exactly when no entry is set is `Properties.NonzeroIffSome`, and it counts the flagged indices (`Coordinator.Flagged`) |
| Coordinator.ZeroWhere | utils/batched_env.py:140 | `_step_counters[mask] = 0`: one counter per counter; selected ones zero and the others kept is stated by `Properties.ResetCounters` |
| Coordinator.BatchReset | utils/batched_env.py:124-152 | `reset(mask)`: an all-false mask returns `None` and changes nothing; a mask with a set entry but the wrong length raises `IndexError` and changes nothing; no other error; the replies and counters are stated by `Properties.ResetReplies` and `Properties.ResetCounters` |
| Coordinator.Observations | utils/batched_env.py:145-152 | `np.stack` of reset replies: one observation per reply, in order |
| Coordinator.ResetCommands | utils/batched_env.py:142-143 | every command sent by `reset` is `reset` |
| Coordinator.PyIndex | utils/batched_env.py:182 | Python indexing: a valid index in `[-n, n)` names the worker congruent to it modulo `n` |
| Coordinator.RenderPlan | utils/batched_env.py:181-188 | `render(None)` sends one `render` to each worker in index order; an empty list raises `ValueError` and sends nothing; a bad index raises `IndexError` and sends nothing (the list is built first); otherwise one `render` per listed index, in list order, duplicates included |
| Coordinator.FirstInvalid | utils/batched_env.py:199 | how many map items come before the first key that is not an index |
| Coordinator.SeedPlan | utils/batched_env.py:198-202 | a non-empty map sends its own seed (possibly `None`) to each mapped worker in item order up to the first bad key, which raises `IndexError`; otherwise (no map or an empty one) nothing is raised and worker `k` gets exactly one seed, its own random one, in index order |
| Coordinator.MonitorSends | utils/batched_env.py:169-172 | the `monitor` sends stay on existing channels; one per worker is stated by `Properties.MonitorEach` |
| Coordinator.CloseSends | utils/batched_env.py:157-158 | the `close` sends stay on existing channels; their effect is stated by `Coordinator.CloseStopsAll` |
| Coordinator.Fire | utils/batched_env.py:169-172 | a send with no receive leaves the pool ready and the counters unchanged |
| Coordinator.BatchRender | utils/batched_env.py:174-188 | `render` leaves the pool ready with the counters unchanged, and raises `ValueError` exactly for an empty list |
| Coordinator.BatchSeed | utils/batched_env.py:190-202 | `seed` leaves the pool ready with the counters unchanged; its only error is `IndexError` |
| Coordinator.BatchMonitor | utils/batched_env.py:166-172 | `monitor` leaves the pool ready with the counters unchanged |
| Coordinator.BatchClose | utils/batched_env.py:154-160 | one worker per worker; that none is left serving is `Coordinator.CloseStopsAll` |
| Coordinator.CloseStopsAll | utils/batched_env.py:154-160 | after `close` no worker is still serving: each one serving before is `Closed` with an empty channel, each already exited keeps the unread `close` |
| Coordinator.ConstructShape | utils/batched_env.py:106-109 | construction is decided by the `get_spaces` round trip with worker 0 |
| Coordinator.StepShape | utils/batched_env.py:111-122 | `step` is decided by its exchange: on return the counters all advance; otherwise they are unchanged |
| Coordinator.ResetShape | utils/batched_env.py:124-152 | a sending `reset` is decided by its round trip with the selected workers; the counters are zeroed before any reply |
| Properties.ChannelUsed | utils/batched_env.py:117-118 | a channel receives something exactly when some send names it |
| Properties.EachGetsOwn | utils/batched_env.py:151 | a fan-out over all channels in index order gives worker `j` exactly command `j` |
| Properties.ConstructSpaces | utils/batched_env.py:80-109 | no factories raises `ValueError`; otherwise construction returns iff worker 0 came up, with worker 0's action and observation spaces, every worker as started and every counter 0; else it waits on worker 0 |
| Properties.HandshakeRoundTrip | utils/batched_env.py:107-108 | asking worker 0 for the spaces returns iff worker 0 is serving, with its two spaces, and changes no worker |
| Properties.StepFanOut | utils/batched_env.py:117-118 | worker `j` receives exactly one `step` carrying `actions[j]` if that action exists, else nothing |
| Properties.StepResult | utils/batched_env.py:111-122 | on return: one entry per worker, entry `k` of observations, rewards, dones and infos is worker `k`'s reply, every counter advanced by one; otherwise counters unchanged |
| Properties.CountersTrackSteps | utils/batched_env.py:109-121 | an int16 counter advanced `s` times from count `c` holds `c + s` modulo 2^16 |
| Properties.Selected | utils/batched_env.py:142-151 | the workers `reset` addresses are in increasing index order |
| Properties.ResetFanOut | utils/batched_env.py:142-143 | a selected worker receives exactly one `reset`, any other nothing |
| Properties.ResetAnswering | utils/batched_env.py:142-152 | a sending `reset` returns exactly when every selected worker answers |
| Properties.ResetReplies | utils/batched_env.py:145-152 | on return: one fresh observation per selected worker in index order; each selected worker goes on from its reset state; unselected workers untouched |
| Properties.ResetBlocked | utils/batched_env.py:145-152 | a `reset` that does not return waits at a selected worker that did not answer |
| Properties.ResetCounters | utils/batched_env.py:140-150 | selected counters become 0, the others keep their value |
| Properties.ResetAllTrue | utils/batched_env.py:134-152 | an all-true mask resets exactly as no mask |
| Properties.FlaggedAll | utils/batched_env.py:142-147 | an all-true mask flags every index in order |
| Properties.ResetMaskEdges | utils/batched_env.py:134-140 | an all-false mask returns `None` and changes nothing; a mask with a set entry but the wrong length raises `IndexError` and changes nothing |
| Properties.NonzeroIffSome | utils/batched_env.py:135-137 | `count_nonzero` is zero exactly when no entry is set |
| Properties.RenderReaches | utils/batched_env.py:181-188 | `render(None)` sends exactly one `render` to each worker; a completed `render(ids)` reaches a worker iff a listed index names it; each worker serves what it was sent |
| Properties.SeedEveryWorker | utils/batched_env.py:200-202 | `seed()` or `seed({})` sends every worker exactly one seed, its own random one |
| Properties.SeedMapped | utils/batched_env.py:198-199 | a non-empty map seeds a worker iff an item before the first bad key names it |
| Properties.MonitorEach | utils/batched_env.py:166-172 | every worker gets the configuration once: a serving worker goes on from its monitored state (or exits if that raised), an exited worker keeps the command unread; counters unchanged |
| Batched.SendEach | utils/batched_env.py:117-118 | the send loop delivers exactly the fan-out transcript |
| Batched.ReceiveEach | utils/batched_env.py:119 | the receive loop gives back exactly what `Collect` describes |
| Batched.SpawnEach | utils/batched_env.py:92-104 | the start loop builds exactly the spawned workers |
| Batched.RunEach | utils/batched_env.py:31-59 | giving each worker its turn leaves each as `Serve` describes |
| Batched.StepEach | utils/batched_env.py:117-119 | the send loop over `zip(remotes, actions)`, the workers' turns and the receive loop together make exactly the step exchange |
| Batched.Handshake | utils/batched_env.py:92-108 | start the workers and ask worker 0 for the spaces, as construction specifies |
| Batched.RoundTripEach | utils/batched_env.py:142-147 | the send, serve and receive loops together make exactly the round trip |
| Batched.BatchedEnv.constructor | utils/batched_env.py:80-109 | the object is constructed as `Construct` says; when it returns, the invariant holds with every step count zero |
| Batched.BatchedEnv.Install | utils/batched_env.py:108-109 | keeps worker 0's spaces and a fresh all-zero int16 counter array |
| Batched.BatchedEnv.Transmit | utils/batched_env.py:169-172 | the object's sends are exactly the fan-out transcript |
| Batched.BatchedEnv.RunWorkers | utils/batched_env.py:25-59 | every worker process serves what is waiting for it, as `RunAll` describes |
| Batched.BatchedEnv.Step | utils/batched_env.py:111-122 | result and new state as `BatchStep`; on return the invariant holds and every true step count grew by one |
| Batched.BatchedEnv.AdvanceCounters | utils/batched_env.py:121 | every counter incremented as an int16, each still the wrapped true count |
| Batched.BatchedEnv.Reset | utils/batched_env.py:124-152 | result and new state as `BatchReset`; selected step counts zero, others unchanged; an early `None` or error changes nothing |
| Batched.BatchedEnv.ResetSelected | utils/batched_env.py:140-152 | zero the selected counters, then the reset round trip |
| Batched.BatchedEnv.ZeroCounters | utils/batched_env.py:140-150 | `_step_counters[mask] = 0` or `fill(0)`, keeping counters equal to wrapped step counts |
| Batched.BatchedEnv.Render | utils/batched_env.py:174-188 | outcome and new state as `BatchRender`; the invariant is kept |
| Batched.BatchedEnv.Seed | utils/batched_env.py:190-202 | outcome and new state as `BatchSeed`; the invariant is kept |
| Batched.BatchedEnv.Monitor | utils/batched_env.py:166-172 | new state as `BatchMonitor`; the invariant is kept |
| Batched.BatchedEnv.Close | utils/batched_env.py:154-164 | every worker has left its loop; every field is cleared |
| Batched.BatchedEnv.NumEnvs | utils/batched_env.py:204-206 | `num_envs` is the number of workers and of counters |
| Batched.BatchedEnv.ActionSpace | utils/batched_env.py:208-210 | set while the object is open |
| Batched.BatchedEnv.ObservationSpace | utils/batched_env.py:212-214 | set while the object is open |
| Batched.BatchedEnv.StepCounters | utils/batched_env.py:216-219 | the live counter array, each entry the worker's true step count modulo 2^16 |

## Left out

- Processes and pipes (`Process`, `Pipe`, `daemon`, `start`, `join`): a worker
  is a value with an inbox and an outbox. A batch is modelled as "send to
  every worker, let every worker run, receive in order". Interleavings are not
  modelled: each worker's result depends only on its own channel, so they do
  not change any outcome.
- Pipe buffer limits: a send never blocks in the model.
- `join` in `close`: modelled as every worker having run to the end of its
  channel. A worker that never finishes a simulation call is not modelled,
  because every simulation call is a total function.
- `num_cores` and `CloudpickleWrapper`: thin wrappers over `multiprocessing`
  and pickling.
- `np.random.randint(2**31)`: the drawn seeds are parameters (`seeds` of the
  constructor, `randomSeeds` of `Seed`), required to lie in `[0, 2^31)`.
- Logging (`logger.debug`) and the commented-out error log: no effect on state.
- The simulation: opaque types and total functions; rewards, observations,
  infos and spaces are never inspected. `info.copy()` is a value copy, so the
  info is passed through unchanged.
- `seed_map` as a dict: it is a sequence of (key, seed) items in iteration
  order. Keys that are not integers, which raise `TypeError`, are not
  modelled.
- Masks that are not boolean sequences (numpy integer fancy indexing) are not
  modelled.
- Use after `close`: every operation requires the open-object invariant,
  which `close` falsifies; the error Python would raise on the `None` fields is
  not modelled.
- Properties.RenderReaches: states which workers a completed `render(ids)`
  reaches, not how many times each. Duplicates are counted by
  `Coordinator.RenderPlan`, whose sends are one per listed index.
- Exceptions are not distinguished: any exception a simulation call raises is
  one `Raises`.
- `monitor`'s default arguments (`True, True, "", 10`): `Monitor` always
  takes an explicit configuration; a call without arguments is that call with
  the defaults written out.

Facts about the code that the model follows:

- `step` does not check `len(actions)`: with fewer actions than workers,
  `zip` truncates the sends, and the receive on the first worker without an
  action never returns.
- `__init__` with no factories raises `ValueError` from unpacking the empty
  `zip` of pipe pairs, before any worker starts.
- `reset` with a mask that has a set entry but not one entry per worker
  raises `IndexError` from the boolean indexing of the counters, before any
  command is sent.
