# disgo: a verified sequential model of the swarm engine

disgo manages a *swarm* of TCP connections for line-oriented protocols.
Each accepted connection becomes a *worker*, filed in the swarm's registry
under an ID derived from its remote address. Each worker runs three loops:
`buff` reads lines from the connection, `read` hands each line to the
application's reader handler and queues a non-empty result, and `write`
flushes queued lines back to the connection. `Kill` tears a worker down.
Every line also yields an audit record (`log.Message`).

This project models the sequential core behind the goroutines:

- `Identity` (identity.dfy): addresses, connections and `MakeWorkerID`, with a parser that inverts it.
- `Registry` (registry.dfy): the registry as a value, a table from ID to connection. It covers insert-if-absent registration, the intake gate, and the intake loop over a run of connections.
- `Queues` (queues.dfy): what the worker loops compute, on values. These are the lines forwarded before the first end-of-stream, the non-empty replies, and the text written.
- `Disgo` (disgo.dfy): the `Swarm` class, whose `workers` map is updated in place, and the `Worker` class. A worker has its connection handle (`None` for Go's nil), its read and write queues, its written `output` and its kill signal. Each loop iteration is one method (`BuffStep`, `ReadStep`, `WriteStep`). Each loop run over its input is a method with a `while` loop (`BuffLive`, which `RunBuff` runs while the connection is live, `RunRead`, `RunWrite`) proved against the `Queues` functions. `Swarm.Valid()` is the registry invariant: every entry sits under its own ID, belongs to this swarm, still has its connection and has no kill signal. Every registry method preserves it. `Swarm.Table()` ties the object map to the `Registry` value.
- `Log` (log_message.dfy): the audit record constructor `NewMessage`.
- `Scenarios` (scenarios.dfy): client runs whose results are proved. They cover echo, arrival order, disconnect, duplicate address, rejected connection, and a queued reply dropped by a kill.

Where the intended design of the system and its code differ, the model follows the code:

- Teardown is described as idempotent. `Kill` as written is not. The kill signal is an unbuffered send (swarm.go:119), and the write loop that took the first signal has exited. So a second call blocks forever at that send while holding both `s.Mux` and `w.Mux` (swarm.go:110-111). Every later `NewWorker` and `Kill` on the swarm then freezes. The nil dereference of the cleared connection at swarm.go:120 would follow only if that send could complete. So `Swarm.Kill` requires a live connection and claims no idempotence.
- The write loop is described as calling a writer handler before each flush. worker.go:136-139 calls none, and neither does the model.
- swarm.go:119 sends on `w.killed`, which `Worker` does not declare. worker.go:24-26 declares `killedRead`, `killedWrite` and `killedConn`, and nothing ever signals them. The model has one kill flag. `Kill` raises it and the write loop observes it, as `killedWrite` would. The read loop's `killedRead` case can never fire, so the read loop stops only when it finds the connection cleared (worker.go:111-113).
- worker.go:110 calls `w.Swarm.reader`, which swarm.go does not declare. The reader handler is a parameter of the read-loop methods.

## Model

| member | source | states |
|---|---|---|
| Log.NewMessage | log/message.go:13-25 | ID and content are copied unchanged; the mode is "r" exactly when the line is inbound, and is always "r" or "w" |
| Log.DirectionRoundTrip | log/message.go:17-22 | the direction read back from a record's mode is the one it was created with |
| Log.NewMessageInjective | log/message.go:13-25 | two records are equal only when made from the same ID, content and direction |
| Identity.MakeWorkerID | swarm.go:21-23 | the ID is the network, then one dash, then the address, position by position |
| Identity.ParseWorkerID | swarm.go:21-23 | inverse partner: defined exactly when the ID has a dash; it yields a dash-free network whose MakeWorkerID gives the ID back |
| Identity.WorkerIDRoundTrip | swarm.go:21-23 | for a network without a dash, parsing the worker ID gives back the address |
| Identity.WorkerIDInjective | swarm.go:21-23 | distinct remote addresses (dash-free networks) get distinct worker IDs, so uniqueness of IDs is uniqueness of addresses |
| Identity.WorkerIDCollision | swarm.go:21-23 | a dash in the network lets two different addresses share one ID |
| Registry.Admits | swarm.go:98 | the gate lets every connection through when the predicate is absent, and otherwise exactly those the predicate accepts |
| Registry.Register | swarm.go:44-55 | registration adds the connection's ID to the keys, leaves every existing entry unchanged, and files a new ID under the connection |
| Registry.AdmittedIds | swarm.go:97-99 | every connection the gate lets through contributes its ID |
| Registry.AdmittedIdsWitness | swarm.go:97-99 | every admitted ID comes from a connection the gate let through |
| Registry.Intake | swarm.go:93-106 | after intake the keys are the old keys plus the admitted IDs, and no existing entry is replaced |
| Registry.IntakeFirstWins | swarm.go:44-55 | the first admitted connection with a new ID is the one registered; later ones with that ID change nothing |
| Registry.IntakeLeavesOutUnadmitted | swarm.go:97-99 | an ID that is not registered and that no admitted connection has is still not registered after intake |
| Registry.IntakeAllRejected | swarm.go:97-99 | when the predicate refuses every connection, intake registers nothing |
| Queues.FirstEof | worker.go:82-85 | the position of the first end-of-stream, with no end-of-stream before it |
| Queues.Forwarded | worker.go:76-77 | a read forwards one line exactly when it succeeded, and that line is its data unchanged |
| Queues.Lines | worker.go:76-78 | a run of reads forwards at most one line per outcome |
| Queues.Reply | worker.go:114-116 | a handler result is queued as one reply exactly when it is non-empty, and unchanged |
| Queues.Replies | worker.go:110-116 | the reply queue never receives the empty string, and gets at most one reply per line |
| Queues.LinesAppend | worker.go:67-79 | lines are forwarded in arrival order across consecutive stretches of reads |
| Queues.LinesAreTheLineOutcomes | worker.go:76-78 | every forwarded line is, unchanged, the data of one successful read |
| Queues.LinesIncludeEveryLine | worker.go:76-77 | every successful read forwards its data, unchanged, at its place in arrival order |
| Queues.RepliesAppend | worker.go:101-118 | replies are queued in the order of the lines they answer |
| Queues.RepliesTotal | worker.go:110-116 | a handler that never returns "" gets exactly one reply per line, in order, each its result |
| Queues.RepliesSilent | worker.go:114-116 | a handler that always returns "" gets no reply queued |
| Queues.Concat | worker.go:136-139 | the text written has exactly as many characters as the written lines together |
| Queues.ConcatStartsWithFirst | worker.go:136-139 | the text written for a run of lines starts with the first line, unchanged |
| Queues.ConcatAppend | worker.go:129-141 | writing two stretches of lines puts the first's text on the wire entirely before the second's |
| Disgo.Swarm.Valid | swarm.go:44-52 | the registry invariant: each entry is filed under its own ID (so each worker object under exactly its ID), belongs to this swarm, and has its connection and no kill signal |
| Disgo.Swarm.constructor | swarm.go:26-37 | a new swarm has an empty registry that satisfies the registry invariant |
| Disgo.Swarm.NewWorker | swarm.go:40-56 | a known ID gives null and the registry is unchanged; a new ID files a fresh worker (that ID, this swarm, this connection, empty queues) and changes no other entry; the invariant is kept |
| Disgo.Swarm.Admit | swarm.go:97-100 | a worker is registered exactly when the predicate is absent or accepts the connection and its ID is new; otherwise nothing changes |
| Disgo.Swarm.RunIntake | swarm.go:93-106 | the registry becomes Registry.Intake of the old one over the arriving connections; existing workers are never replaced, and new ones are fresh with nothing queued or written |
| Disgo.Swarm.Kill | swarm.go:109-124 | the worker's ID leaves the registry and nothing else in it changes (an absent ID leaves it as it was); the connection is cleared and the kill signal raised; requires a live connection |
| Disgo.Worker.constructor | worker.go:31-55 | ID, swarm and connection are the arguments; both queues are empty, nothing is written, no kill signal |
| Disgo.Worker.Die | worker.go:147-149 | the worker is killed through its swarm: it leaves the registry, its connection is cleared and its kill signal raised |
| Disgo.Worker.BuffStep | worker.go:67-90 | a cleared connection stops the loop before the outcome is looked at; a line is forwarded unchanged and the loop goes on; end-of-stream kills the worker and stops the loop; another error kills nothing, forwards nothing and the loop goes on |
| Disgo.Worker.ReadStep | worker.go:101-118 | an empty queue changes nothing; otherwise the first line is taken; a cleared connection stops the loop with no reply; a non-empty handler result is queued and the empty string is not |
| Disgo.Worker.WriteStep | worker.go:129-141 | the kill signal stops the loop and nothing is written; otherwise the first queued line is written unchanged, in FIFO order |
| Disgo.Worker.RunBuff | worker.go:58-93 | with a live connection, the read queue grows by the lines read before the first end-of-stream, in order, and that end-of-stream kills the worker; with a cleared one the first outcome stops the loop and nothing changes |
| Disgo.Worker.BuffLive | worker.go:67-90 | the buff loop while the connection is live: the lines before the first end-of-stream are forwarded in order, and that end-of-stream kills the worker and breaks the loop |
| Disgo.Worker.RunRead | worker.go:96-121 | with a live connection every queued line is handled and exactly the non-empty replies are queued, in order; with a cleared one the first line stops the loop and nothing is queued |
| Disgo.Worker.RunWrite | worker.go:124-144 | without a kill signal the wire receives the concatenation of the queued lines, unmodified and in order; with it nothing is written |
| Scenarios.EchoScenario | worker.go:67-141 | an echo handler sends "ping\n" back verbatim |
| Scenarios.EchoPair | worker.go:67-141 | any two non-empty lines, with a retried read error between them, come back through the echo handler concatenated in arrival order |
| Scenarios.OrderScenario | worker.go:67-141 | lines "A\n" and "B\n", with a retried read error between them, come back as "A\nB\n" |
| Scenarios.DisconnectScenario | worker.go:71-85 | after end-of-stream the worker is out of the registry and a later line is not forwarded |
| Scenarios.DuplicateScenario | swarm.go:44-49 | a second connection from the same address is rejected and the registry keeps one entry |
| Scenarios.RejectScenario | swarm.go:97-100 | a connection the predicate refuses is not registered |
| Scenarios.KillDropsQueuedScenario | worker.go:132-134 | a reply still queued when the worker is killed is never written |

## Left out

- Goroutines, channel blocking and `select` races (worker.go:48-50, 104, 132; swarm.go:60-70, 77-87, 94-103): each loop iteration is one atomic step and each loop run is sequential. Interleavings between the three loops of a worker are not modelled.
- A blocking receive on an empty channel is modelled as a step that changes nothing.
- In the write loop's `select`, the kill case takes priority over a queued line. `Kill`'s unbuffered send completes only when the write loop takes that case, so this matches the code.
- Mutexes and their lock order (swarm.go:41-42, 110-116): they only serialise the registry operations, which the model treats as atomic.
- `HandleRead` and `HandleWrite` (swarm.go:58-90) and the swarm's `ReadData`/`WriteData` channels: they only forward messages on channels between goroutines.
- log/channel.go and every send on `Logchan`: these are informational messages with no effect on state. This includes the audit records that the read and write loops publish (worker.go:109, 137), so the model has no audit trail.
- `Message.JSON` (log/message.go:28-31): it calls encoding/json, which is not part of this model.
- `net.Conn` and `bufio` I/O, `Conn.Close`, the `Reader`/`Writer` fields and the 100 ms retry delay (worker.go:69, 89, 138-139; swarm.go:120). A read is an abstract outcome and a write is an append to `output`.
- The `Addr` field of `Worker`, which nothing in the code sets.
- `NewSwarm`'s log channel argument: the log bus is not modelled.
- The package's `Message` wrapper passed to the reader handler (content, worker, direction) is defined in package disgo outside swarm.go and worker.go. The handler is modelled as a pure function of the line.
- The accept predicate is modelled as a pure function of the connection. Side effects of Go closures are not modelled, such as a predicate closing a rejected connection.
- `killedRead`, `killedWrite` and `killedConn`: nothing signals them. The one kill flag stands for the signal `Kill` sends.
- Disgo.Swarm.Kill: idempotence is not claimed, because a second call blocks forever at the kill-signal send (swarm.go:119) while holding both locks; the nil dereference at swarm.go:120 would follow only if that send completed. The model requires a live connection instead.
