/**
 * The swarm's registry as a value (swarm.go): a table from worker ID to the
 * connection the worker owns. Registration is insert-if-absent and the
 * intake loop registers, in order, every connection the accept predicate
 * lets through.
 */
module Registry {
  import opened Wrappers
  import opened Identity

  /** Worker ID to the connection of the worker registered under it. */
  type Table = map<string, Conn>

  /** The intake gate: an absent predicate lets every connection through. */
  predicate Admits(accept: Option<Conn -> bool>, c: Conn)
    ensures accept.None? ==> Admits(accept, c)
    ensures accept.Some? ==> (Admits(accept, c) <==> accept.value(c))
  {
    accept.None? || accept.value(c)
  }

  /** Registering a connection: a new ID is inserted, a known ID changes nothing. */
  function Register(t: Table, c: Conn): (r: Table)
    ensures r.Keys == t.Keys + {MakeWorkerID(c.remote)}
    ensures forall id :: id in t ==> r[id] == t[id]
    ensures MakeWorkerID(c.remote) !in t ==> r[MakeWorkerID(c.remote)] == c
  {
    var id := MakeWorkerID(c.remote);
    if id in t then t else t[id := c]
  }

  /** The IDs of the connections in conns that the gate lets through. */
  function AdmittedIds(accept: Option<Conn -> bool>, conns: seq<Conn>): (ids: set<string>)
    ensures forall i :: 0 <= i < |conns| && Admits(accept, conns[i]) ==> MakeWorkerID(conns[i].remote) in ids
  {
    if conns == [] then {}
    else
      var last := conns[|conns| - 1];
      AdmittedIds(accept, conns[..|conns| - 1]) + (if Admits(accept, last) then {MakeWorkerID(last.remote)} else {})
  }

  /** The table after the intake loop has handled conns, one after the other. */
  function Intake(t: Table, accept: Option<Conn -> bool>, conns: seq<Conn>): (r: Table)
    ensures r.Keys == t.Keys + AdmittedIds(accept, conns)
    ensures forall id :: id in t ==> r[id] == t[id]
  {
    if conns == [] then t
    else
      var front := Intake(t, accept, conns[..|conns| - 1]);
      var last := conns[|conns| - 1];
      if Admits(accept, last) then Register(front, last) else front
  }

  /**
   * The first admitted connection with a new ID is the one registered under
   * it: every later connection with that ID is rejected as a duplicate.
   */
  lemma {:induction false} IntakeFirstWins(t: Table, accept: Option<Conn -> bool>, conns: seq<Conn>, i: nat)
    requires i < |conns| && Admits(accept, conns[i])
    requires MakeWorkerID(conns[i].remote) !in t
    requires forall j :: 0 <= j < i && Admits(accept, conns[j]) ==> MakeWorkerID(conns[j].remote) != MakeWorkerID(conns[i].remote)
    ensures MakeWorkerID(conns[i].remote) in Intake(t, accept, conns)
    ensures Intake(t, accept, conns)[MakeWorkerID(conns[i].remote)] == conns[i]
  {
    var n := |conns|;
    var front := conns[..n - 1];
    var id := MakeWorkerID(conns[i].remote);
    if i == n - 1 {
      IntakeLeavesOutUnadmitted(t, accept, front, id);
    } else {
      assert front[i] == conns[i];
      IntakeFirstWins(t, accept, front, i);
    }
  }

  /** An ID that is not in the table and that no admitted connection has stays out of it. */
  lemma IntakeLeavesOutUnadmitted(t: Table, accept: Option<Conn -> bool>, conns: seq<Conn>, id: string)
    requires id !in t
    requires forall j :: 0 <= j < |conns| && Admits(accept, conns[j]) ==> MakeWorkerID(conns[j].remote) != id
    ensures id !in Intake(t, accept, conns)
  {
    if id in AdmittedIds(accept, conns) {
      AdmittedIdsWitness(accept, conns, id);
    }
  }

  /** Every admitted ID comes from an admitted connection of conns. */
  lemma {:induction false} AdmittedIdsWitness(accept: Option<Conn -> bool>, conns: seq<Conn>, id: string)
    requires id in AdmittedIds(accept, conns)
    ensures exists j :: 0 <= j < |conns| && Admits(accept, conns[j]) && MakeWorkerID(conns[j].remote) == id
  {
    var n := |conns|;
    var front := conns[..n - 1];
    if id in AdmittedIds(accept, front) {
      AdmittedIdsWitness(accept, front, id);
      var j :| 0 <= j < |front| && Admits(accept, front[j]) && MakeWorkerID(front[j].remote) == id;
      assert conns[j] == front[j];
    } else {
      assert Admits(accept, conns[n - 1]) && MakeWorkerID(conns[n - 1].remote) == id;
    }
  }

  /** With the gate closed to every connection, intake registers nothing. */
  lemma {:induction false} IntakeAllRejected(t: Table, accept: Option<Conn -> bool>, conns: seq<Conn>)
    requires forall i :: 0 <= i < |conns| ==> !Admits(accept, conns[i])
    ensures Intake(t, accept, conns) == t
  {
    if conns != [] {
      IntakeAllRejected(t, accept, conns[..|conns| - 1]);
    }
  }
}
