/**
 * The swarm and its workers (swarm.go, worker.go), with goroutines made
 * sequential: each iteration of a worker loop is one atomic step over the
 * worker's queues, and each registry operation is atomic (the mutexes only
 * serialise them). Channels are queues of lines, the connection handle is
 * an Option (None for Go's nil) and the bytes written to the connection
 * accumulate in `output`.
 */
module Disgo {
  import opened Wrappers
  import opened Identity
  import opened Queues
  import Registry

  /** The group of workers, keyed by worker ID. */
  class Swarm {
    var workers: map<string, Worker>

    /**
     * The registry invariant: every entry is filed under its own ID, belongs
     * to this swarm, and still has its connection and no kill signal.
     */
    ghost predicate Valid()
      reads this, workers.Values
      ensures Valid() ==> forall w :: w in workers.Values ==> w.id in workers && workers[w.id] == w
      ensures Valid() ==> forall w :: w in workers.Values ==> w.conn.Some? && !w.killed
    {
      forall id :: id in workers ==>
        && workers[id].id == id
        && workers[id].swarm == this
        && workers[id].conn.Some?
        && !workers[id].killed
    }

    /** The registry as a value: each ID with the connection of its worker. */
    ghost function Table(): (t: Registry.Table)
      requires Valid()
      reads this, workers.Values
      ensures t.Keys == workers.Keys
    {
      map id | id in workers :: workers[id].conn.value
    }

    /** NewSwarm: a swarm starts with an empty registry. */
    constructor ()
      ensures Valid()
      ensures workers == map[]
      ensures Table() == map[]
    {
      workers := map[];
    }

    /**
     * Registers connection c under its worker ID. A known ID is rejected
     * with null and nothing changes; otherwise a new worker is filed under
     * the ID and returned.
     */
    method NewWorker(c: Conn) returns (w: Worker?)
      requires Valid()
      modifies this
      ensures Valid()
      ensures MakeWorkerID(c.remote) in old(workers) ==> w == null && workers == old(workers)
      ensures MakeWorkerID(c.remote) !in old(workers) ==>
        && w != null && fresh(w)
        && w.id == MakeWorkerID(c.remote) && w.swarm == this && w.conn == Some(c)
        && w.readData == [] && w.writeData == [] && w.output == "" && !w.killed
        && workers == old(workers)[w.id := w]
      ensures Table() == Registry.Register(old(Table()), c)
    {
      var id := MakeWorkerID(c.remote);
      if id in workers {
        return null;
      }
      w := new Worker(id, this, c);
      workers := workers[id := w];
    }

    /**
     * The intake gate of HandleNewConnections for one connection: it is
     * registered when the predicate is absent or accepts it.
     */
    method Admit(c: Conn, accept: Option<Conn -> bool>) returns (w: Worker?)
      requires Valid()
      modifies this
      ensures Valid()
      ensures w != null <==> Registry.Admits(accept, c) && MakeWorkerID(c.remote) !in old(workers)
      ensures w == null ==> workers == old(workers)
      ensures w != null ==> fresh(w) && w.conn == Some(c) && workers == old(workers)[w.id := w]
      ensures w != null ==> w.readData == [] && w.writeData == [] && w.output == "" && !w.killed
      ensures Table() == if Registry.Admits(accept, c) then Registry.Register(old(Table()), c) else old(Table())
    {
      if Registry.Admits(accept, c) {
        w := NewWorker(c);
      } else {
        w := null;
      }
    }

    /**
     * The intake loop of HandleNewConnections over the connections that
     * arrive, in order: existing entries are never replaced and every new
     * entry is a fresh worker with nothing queued or written.
     */
    method RunIntake(conns: seq<Conn>, accept: Option<Conn -> bool>)
      requires Valid()
      modifies this
      ensures Valid()
      ensures Table() == Registry.Intake(old(Table()), accept, conns)
      ensures forall id :: id in old(workers) ==> id in workers && workers[id] == old(workers)[id]
      ensures forall id :: id in workers && id !in old(workers) ==>
        && fresh(workers[id])
        && workers[id].readData == [] && workers[id].writeData == [] && workers[id].output == ""
    {
      var i := 0;
      while i < |conns|
        invariant i <= |conns|
        invariant Valid()
        invariant Table() == Registry.Intake(old(Table()), accept, conns[..i])
        invariant forall id :: id in old(workers) ==> id in workers && workers[id] == old(workers)[id]
        invariant forall id :: id in workers && id !in old(workers) ==>
          && fresh(workers[id])
          && workers[id].readData == [] && workers[id].writeData == [] && workers[id].output == ""
      {
        assert conns[..i + 1][..i] == conns[..i];
        var _ := Admit(conns[i], accept);
        i := i + 1;
      }
      assert conns[..i] == conns;
    }

    /**
     * Kill: removes w.ID from the registry (nothing else in it changes, and
     * an absent ID leaves it as it was), raises w's kill signal and clears
     * its connection. A second call would block forever at the kill-signal
     * send while holding both locks; the dereference of the cleared handle
     * would follow only if that send completed. Hence the requirement that
     * the connection is still there.
     */
    method Kill(w: Worker)
      requires Valid()
      requires w.conn.Some?
      modifies this, w`conn, w`killed
      ensures Valid()
      ensures workers == old(workers) - {w.id}
      ensures w.conn == None && w.killed
      ensures Table() == old(Table()) - {w.id}
    {
      workers := workers - {w.id};
      w.killed := true;
      w.conn := None;
    }
  }

  /** One connected machine with its read, reply and write queues. */
  class Worker {
    const id: string
    const swarm: Swarm
    var conn: Option<Conn>
    /** ReadData: lines the buff loop has read, waiting for the read loop. */
    var readData: seq<string>
    /** WriteData: replies waiting for the write loop. */
    var writeData: seq<string>
    /** What the write loop has written and flushed to the connection. */
    var output: string
    /** The kill signal that Swarm.Kill raises for the write loop. */
    var killed: bool

    /** NewWorker: the fields the arguments give, empty queues, nothing written. */
    constructor (id: string, s: Swarm, c: Conn)
      ensures this.id == id && swarm == s && conn == Some(c)
      ensures readData == [] && writeData == [] && output == "" && !killed
    {
      this.id := id;
      swarm := s;
      conn := Some(c);
      readData := [];
      writeData := [];
      output := "";
      killed := false;
    }

    /** Die: the worker asks its swarm to kill it. */
    method Die()
      requires swarm.Valid()
      requires conn.Some?
      modifies swarm, this`conn, this`killed
      ensures swarm.Valid()
      ensures swarm.workers == old(swarm.workers) - {id}
      ensures conn == None && killed
    {
      swarm.Kill(this);
    }

    /**
     * One iteration of the buff loop on the outcome of a read. A cleared
     * connection stops the loop before the outcome is looked at; a line is
     * forwarded unchanged onto the read queue; end-of-stream kills the
     * worker and stops the loop; any other error is retried.
     */
    method BuffStep(outcome: ReadOutcome) returns (more: bool)
      requires swarm.Valid()
      modifies this`readData, this`conn, this`killed, swarm
      ensures swarm.Valid()
      ensures more <==> old(conn).Some? && !outcome.Eof?
      ensures readData == if old(conn).Some? then old(readData) + Forwarded(outcome) else old(readData)
      ensures old(conn).Some? && outcome.Eof? ==>
        conn == None && killed && swarm.workers == old(swarm.workers) - {id}
      ensures !(old(conn).Some? && outcome.Eof?) ==>
        conn == old(conn) && killed == old(killed) && swarm.workers == old(swarm.workers)
    {
      if conn.None? {
        return false;
      }
      match outcome
      case Line(data) =>
        readData := readData + [data];
        more := true;
      case Eof =>
        Die();
        more := false;
      case Failure(_) =>
        more := true;
    }

    /**
     * One iteration of the read loop. With nothing queued the loop waits.
     * Otherwise the first line is taken and handed to the reader handler;
     * a cleared connection then stops the loop, and a non-empty result is
     * queued for the write loop.
     */
    method ReadStep(reader: string -> string) returns (more: bool)
      modifies this`readData, this`writeData
      ensures old(readData) == [] ==> more && readData == [] && writeData == old(writeData)
      ensures old(readData) != [] ==>
        && more == conn.Some?
        && readData == old(readData)[1..]
        && writeData == old(writeData) + (if conn.Some? then Reply(reader, old(readData)[0]) else [])
    {
      if readData == [] {
        return true;
      }
      var data := readData[0];
      readData := readData[1..];
      data := reader(data);
      if conn.None? {
        return false;
      }
      if data != "" {
        writeData := writeData + [data];
      }
      more := true;
    }

    /**
     * One iteration of the write loop. The kill signal stops the loop and
     * nothing more is written; otherwise the first queued line, if any, is
     * written unchanged to the connection.
     */
    method WriteStep() returns (more: bool)
      modifies this`writeData, this`output
      ensures more == !killed
      ensures killed || old(writeData) == [] ==> writeData == old(writeData) && output == old(output)
      ensures !killed && old(writeData) != [] ==>
        writeData == old(writeData)[1..] && output == old(output) + old(writeData)[0]
    {
      if killed {
        return false;
      }
      if writeData != [] {
        var data := writeData[0];
        writeData := writeData[1..];
        output := output + data;
      }
      more := true;
    }

    /**
     * The buff loop over a run of read outcomes, until it stops or the run
     * ends. With a live connection it forwards the lines read before the
     * first end-of-stream, in order, and that end-of-stream kills the worker.
     */
    method RunBuff(outcomes: seq<ReadOutcome>) returns (consumed: nat, stopped: bool)
      requires swarm.Valid()
      modifies this`readData, this`conn, this`killed, swarm
      ensures swarm.Valid()
      ensures consumed <= |outcomes|
      ensures old(conn).None? ==>
        && stopped == (outcomes != []) && consumed == (if outcomes == [] then 0 else 1)
        && readData == old(readData) && conn == None && killed == old(killed)
        && swarm.workers == old(swarm.workers)
      ensures old(conn).Some? ==>
        && stopped == (FirstEof(outcomes) < |outcomes|)
        && consumed == (if stopped then FirstEof(outcomes) + 1 else |outcomes|)
        && readData == old(readData) + Lines(outcomes[..FirstEof(outcomes)])
      ensures old(conn).Some? && stopped ==>
        conn == None && killed && swarm.workers == old(swarm.workers) - {id}
      ensures old(conn).Some? && !stopped ==>
        conn == old(conn) && killed == old(killed) && swarm.workers == old(swarm.workers)
    {
      if conn.Some? {
        consumed, stopped := BuffLive(outcomes);
      } else if outcomes != [] {
        // A cleared connection stops the loop at its first read.
        var _ := BuffStep(outcomes[0]);
        consumed, stopped := 1, true;
      } else {
        consumed, stopped := 0, false;
      }
    }

    /** The buff loop of RunBuff while the connection is live. */
    method BuffLive(outcomes: seq<ReadOutcome>) returns (consumed: nat, stopped: bool)
      requires swarm.Valid() && conn.Some?
      modifies this`readData, this`conn, this`killed, swarm
      ensures swarm.Valid()
      ensures stopped == (FirstEof(outcomes) < |outcomes|)
      ensures consumed == (if stopped then FirstEof(outcomes) + 1 else |outcomes|)
      ensures readData == old(readData) + Lines(outcomes[..FirstEof(outcomes)])
      ensures stopped ==> conn == None && killed && swarm.workers == old(swarm.workers) - {id}
      ensures !stopped ==> conn == old(conn) && killed == old(killed) && swarm.workers == old(swarm.workers)
    {
      consumed, stopped := 0, false;
      while consumed < |outcomes|
        invariant consumed <= FirstEof(outcomes)
        invariant swarm.Valid()
        invariant readData == old(readData) + Lines(outcomes[..consumed])
        invariant conn == old(conn) && killed == old(killed) && swarm.workers == old(swarm.workers)
      {
        assert outcomes[..consumed + 1][..consumed] == outcomes[..consumed];
        assert Lines(outcomes[..consumed + 1]) == Lines(outcomes[..consumed]) + Forwarded(outcomes[consumed]);
        var more := BuffStep(outcomes[consumed]);
        if !more {
          // End-of-stream: the worker has died and the loop breaks.
          assert FirstEof(outcomes) == consumed;
          consumed, stopped := consumed + 1, true;
          return;
        }
        assert consumed < FirstEof(outcomes);
        consumed := consumed + 1;
      }
      assert FirstEof(outcomes) == |outcomes|;
    }

    /**
     * The read loop over everything queued: with a live connection every
     * line is handled in order and exactly the non-empty replies are queued;
     * without one the first line stops the loop.
     */
    method RunRead(reader: string -> string) returns (stopped: bool)
      modifies this`readData, this`writeData
      ensures conn.Some? ==>
        !stopped && readData == [] && writeData == old(writeData) + Replies(reader, old(readData))
      ensures conn.None? ==>
        && stopped == (old(readData) != [])
        && readData == (if old(readData) == [] then [] else old(readData)[1..])
        && writeData == old(writeData)
    {
      stopped := false;
      ghost var handled := 0;
      while readData != [] && !stopped
        invariant handled <= |old(readData)|
        invariant readData == old(readData)[handled..]
        invariant conn.Some? ==> !stopped && writeData == old(writeData) + Replies(reader, old(readData)[..handled])
        invariant conn.None? ==> stopped == (handled > 0) && handled <= 1 && writeData == old(writeData)
        decreases |readData|
      {
        ghost var line := readData[0];
        assert line == old(readData)[handled];
        assert old(readData)[..handled + 1][..handled] == old(readData)[..handled];
        assert Replies(reader, old(readData)[..handled + 1])
          == Replies(reader, old(readData)[..handled]) + Reply(reader, line);
        var more := ReadStep(reader);
        handled := handled + 1;
        stopped := !more;
      }
      assert handled == |old(readData)| ==> old(readData)[..handled] == old(readData);
    }

    /**
     * The write loop over everything queued: without a kill signal the
     * connection receives the queued lines unchanged and in order; with it
     * nothing is written and the queue is left as it was.
     */
    method RunWrite() returns (stopped: bool)
      modifies this`writeData, this`output
      ensures stopped == killed
      ensures killed ==> writeData == old(writeData) && output == old(output)
      ensures !killed ==> writeData == [] && output == old(output) + Concat(old(writeData))
    {
      stopped := killed;
      ghost var written := 0;
      while writeData != [] && !stopped
        invariant written <= |old(writeData)|
        invariant stopped == killed
        invariant writeData == old(writeData)[written..]
        invariant killed ==> written == 0 && output == old(output)
        invariant output == old(output) + Concat(old(writeData)[..written])
      {
        assert old(writeData)[..written + 1][..written] == old(writeData)[..written];
        var more := WriteStep();
        written := written + 1;
        stopped := !more;
      }
      assert !killed ==> old(writeData)[..written] == old(writeData);
    }
  }
}
