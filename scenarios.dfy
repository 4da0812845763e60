/**
 * Client scenarios: a swarm driven through the sequential steps of its
 * workers, with what each run must end in.
 */
module Scenarios {
  import opened Wrappers
  import opened Identity
  import opened Queues
  import Disgo

  /** The reader handler that answers every line with itself. */
  function Echo(line: string): (r: string)
  {
    line
  }

  /** A line "ping\n" handled by the echo handler is written back verbatim. */
  method EchoScenario() returns (wire: string)
    ensures wire == "ping\n"
  {
    var s := new Disgo.Swarm();
    var w := s.NewWorker(Conn(0, Addr("tcp", "10.0.0.7:4000")));
    var _ := w.BuffStep(Line("ping\n"));
    var _ := w.ReadStep(Echo);
    var _ := w.WriteStep();
    wire := w.output;
  }

  /** The read outcomes of the order scenario and the lines they carry. */
  lemma OrderLines(outcomes: seq<ReadOutcome>, a: string, b: string)
    requires outcomes == [Line(a), Failure("timeout"), Line(b)]
    ensures FirstEof(outcomes) == 3
    ensures Lines(outcomes[..FirstEof(outcomes)]) == [a, b]
  {
    assert outcomes[..3] == outcomes;
    assert outcomes[..2] == [Line(a), Failure("timeout")];
    assert Lines([Line(a)]) == [a] by { assert [Line(a)][..0] == []; }
    assert Lines(outcomes[..2]) == [a] by { assert outcomes[..2][..1] == [Line(a)]; }
  }

  /** The echo replies to two non-empty lines, and what writing them puts on the wire. */
  lemma OrderReplies(a: string, b: string)
    requires a != "" && b != ""
    ensures Replies(Echo, [a, b]) == [a, b]
    ensures Concat([a, b]) == a + b
  {
    assert [a, b][..1] == [a];
    assert [a][..0] == [];
    assert Concat([a]) == a;
    assert Replies(Echo, [a]) == [a];
  }

  /**
   * Two non-empty lines arrive, a read error in between is retried; the echo
   * replies reach the wire in arrival order, the first entirely before the second.
   */
  method EchoPair(a: string, b: string) returns (wire: string)
    requires a != "" && b != ""
    ensures wire == a + b
  {
    var s := new Disgo.Swarm();
    var w := s.NewWorker(Conn(0, Addr("tcp", "10.0.0.7:4000")));
    wire := EchoPairOn(w, a, b);
  }

  /** The buff loop of EchoPair: both lines are forwarded and the worker stays live. */
  method BuffPair(w: Disgo.Worker, a: string, b: string)
    requires w.swarm.Valid() && w.conn.Some? && w.readData == []
    modifies w`readData, w`conn, w`killed, w.swarm
    ensures w.conn.Some? && w.killed == old(w.killed) && w.readData == [a, b]
  {
    var outcomes := [Line(a), Failure("timeout"), Line(b)];
    OrderLines(outcomes, a, b);
    var _, _ := w.RunBuff(outcomes);
  }

  /** The read loop of EchoPair: both lines are answered by themselves. */
  method ReadPair(w: Disgo.Worker, a: string, b: string)
    requires a != "" && b != ""
    requires w.conn.Some? && w.readData == [a, b] && w.writeData == []
    modifies w`readData, w`writeData
    ensures w.writeData == [a, b]
  {
    OrderReplies(a, b);
    var _ := w.RunRead(Echo);
  }

  /** The write loop of EchoPair: both replies reach the wire, in order. */
  method WritePair(w: Disgo.Worker, a: string, b: string) returns (wire: string)
    requires a != "" && b != ""
    requires !w.killed && w.writeData == [a, b] && w.output == ""
    modifies w`writeData, w`output
    ensures wire == a + b
  {
    OrderReplies(a, b);
    var _ := w.RunWrite();
    wire := w.output;
  }

  /** The loops of a fresh, registered worker over the outcomes of EchoPair. */
  method EchoPairOn(w: Disgo.Worker, a: string, b: string) returns (wire: string)
    requires a != "" && b != ""
    requires w.swarm.Valid() && w.conn.Some? && !w.killed
    requires w.readData == [] && w.writeData == [] && w.output == ""
    modifies w, w.swarm
    ensures wire == a + b
  {
    BuffPair(w, a, b);
    ReadPair(w, a, b);
    wire := WritePair(w, a, b);
  }

  /** Lines "A\n" then "B\n" come back as "A\nB\n". */
  method OrderScenario() returns (wire: string)
    ensures wire == "A\nB\n"
  {
    wire := EchoPair("A\n", "B\n");
  }

  /**
   * The remote side closes: the worker leaves the registry and a line read
   * afterwards is not forwarded.
   */
  method DisconnectScenario() returns (registered: bool, forwarded: seq<string>)
    ensures !registered && forwarded == []
  {
    var s := new Disgo.Swarm();
    var w := s.NewWorker(Conn(0, Addr("tcp", "10.0.0.7:4000")));
    var _ := w.BuffStep(Eof);
    registered := w.id in s.workers;
    var _ := w.BuffStep(Line("late\n"));
    forwarded := w.readData;
  }

  /** A second connection from the same address is rejected and changes nothing. */
  method DuplicateScenario() returns (first: bool, second: bool, size: nat)
    ensures first && !second && size == 1
  {
    var s := new Disgo.Swarm();
    var a := Addr("tcp", "10.0.0.7:4000");
    var w1 := s.NewWorker(Conn(0, a));
    var w2 := s.NewWorker(Conn(1, a));
    first, second, size := w1 != null, w2 != null, |s.workers|;
  }

  /** A connection the accept predicate refuses is not registered. */
  method RejectScenario() returns (registered: bool, size: nat)
    ensures !registered && size == 0
  {
    var s := new Disgo.Swarm();
    var w := s.Admit(Conn(0, Addr("tcp", "10.0.0.7:4000")), Some((c: Conn) => false));
    registered, size := w != null, |s.workers|;
  }

  /** A reply still queued when the worker is killed is dropped, not written. */
  method KillDropsQueuedScenario() returns (wire: string, pending: seq<string>)
    ensures wire == "" && pending == ["x\n"]
  {
    var s := new Disgo.Swarm();
    var w := s.NewWorker(Conn(0, Addr("tcp", "10.0.0.7:4000")));
    var _ := w.BuffStep(Line("x\n"));
    var _ := w.ReadStep(Echo);
    w.Die();
    var _ := w.RunWrite();
    wire, pending := w.output, w.writeData;
  }
}
