/**
 * Connections and the worker IDs derived from them (swarm.go, MakeWorkerID).
 */
module Identity {
  import opened Wrappers

  /** A remote address: what net.Addr reports by Network() and String(). */
  datatype Addr = Addr(network: string, address: string)

  /**
   * An accepted connection. The handle tells apart two connections that
   * come from the same remote address; only the address enters the ID.
   */
  datatype Conn = Conn(handle: nat, remote: Addr)

  /** The worker ID of a remote address: network, a dash, then the address. */
  function MakeWorkerID(a: Addr): (id: string)
    ensures |id| == |a.network| + 1 + |a.address|
    ensures id[..|a.network|] == a.network
    ensures id[|a.network|] == '-'
    ensures id[|a.network| + 1..] == a.address
  {
    a.network + "-" + a.address
  }

  /** The position of the first dash in s, or |s| when there is none. */
  function DashIndex(s: string): (k: nat)
    ensures k <= |s|
    ensures k < |s| ==> s[k] == '-'
    ensures forall i :: 0 <= i < k ==> s[i] != '-'
  {
    if s == [] then 0
    else if s[0] == '-' then 0
    else 1 + DashIndex(s[1..])
  }

  /**
   * The inverse of MakeWorkerID for networks without a dash (every network
   * name Go reports: "tcp", "tcp4", "udp", "unix", ...): split at the first dash.
   */
  function ParseWorkerID(id: string): (r: Option<Addr>)
    ensures r.Some? <==> '-' in id
    ensures r.Some? ==> '-' !in r.value.network && MakeWorkerID(r.value) == id
  {
    var k := DashIndex(id);
    if k == |id| then None
    else
      assert id == id[..k] + "-" + id[k + 1..];
      Some(Addr(id[..k], id[k + 1..]))
  }

  /** A worker ID can be split back into the address it was made from. */
  lemma WorkerIDRoundTrip(a: Addr)
    requires '-' !in a.network
    ensures ParseWorkerID(MakeWorkerID(a)) == Some(a)
  {
    var id := MakeWorkerID(a);
    var k := DashIndex(id);
    var n := |a.network|;
    assert id[n] == '-';
    assert k == n;
  }

  /** Distinct remote addresses get distinct worker IDs. */
  lemma WorkerIDInjective(a: Addr, b: Addr)
    requires '-' !in a.network && '-' !in b.network
    requires MakeWorkerID(a) == MakeWorkerID(b)
    ensures a == b
  {
    WorkerIDRoundTrip(a);
    WorkerIDRoundTrip(b);
  }

  /** Without the dash-free network the IDs of two addresses can coincide. */
  lemma WorkerIDCollision()
    ensures Addr("unix-a", "b") != Addr("unix", "a-b")
    ensures MakeWorkerID(Addr("unix-a", "b")) == MakeWorkerID(Addr("unix", "a-b"))
  {
  }
}
