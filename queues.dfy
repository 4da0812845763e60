/**
 * What a worker's three loops compute, stated on values (worker.go). The
 * read, reply and write channels of a worker are queues of lines; these
 * functions say what each loop moves from one queue to the next.
 */
module Queues {

  /** The outcome of one ReadString('\n') on the connection. */
  datatype ReadOutcome = Line(data: string) | Eof | Failure(reason: string)

  /** The position of the first end-of-stream outcome, or |outcomes| when none. */
  function FirstEof(outcomes: seq<ReadOutcome>): (k: nat)
    ensures k <= |outcomes|
    ensures k < |outcomes| ==> outcomes[k].Eof?
    ensures forall i :: 0 <= i < k ==> !outcomes[i].Eof?
  {
    if outcomes == [] then 0
    else if outcomes[0].Eof? then 0
    else 1 + FirstEof(outcomes[1..])
  }

  /** The line a read outcome forwards onto the read queue, if any. */
  function Forwarded(o: ReadOutcome): (r: seq<string>)
    ensures |r| <= 1
    ensures r != [] <==> o.Line?
    ensures r != [] ==> r[0] == o.data
  {
    if o.Line? then [o.data] else []
  }

  /** The lines, in arrival order, that successful reads carried. */
  function Lines(outcomes: seq<ReadOutcome>): (r: seq<string>)
    ensures |r| <= |outcomes|
  {
    if outcomes == [] then []
    else Lines(outcomes[..|outcomes| - 1]) + Forwarded(outcomes[|outcomes| - 1])
  }

  /** The reply a handler result puts on the write queue: none when it is empty. */
  function Reply(reader: string -> string, line: string): (r: seq<string>)
    ensures |r| <= 1
    ensures r != [] <==> reader(line) != ""
    ensures r != [] ==> r[0] == reader(line)
  {
    if reader(line) != "" then [reader(line)] else []
  }

  /** The replies, in order, that the reader handler gives to the lines. */
  function Replies(reader: string -> string, lines: seq<string>): (r: seq<string>)
    ensures |r| <= |lines|
    ensures "" !in r
  {
    if lines == [] then []
    else Replies(reader, lines[..|lines| - 1]) + Reply(reader, lines[|lines| - 1])
  }

  /** The total number of characters in a sequence of lines. */
  function Length(lines: seq<string>): (n: nat)
  {
    if lines == [] then 0 else Length(lines[..|lines| - 1]) + |lines[|lines| - 1]|
  }

  /**
   * The text a sequence of lines puts on the wire, one after the other:
   * no character is lost or added.
   */
  function Concat(lines: seq<string>): (r: string)
    ensures |r| == Length(lines)
  {
    if lines == [] then ""
    else Concat(lines[..|lines| - 1]) + lines[|lines| - 1]
  }

  /** Reading two stretches of outcomes forwards the lines of both, in order. */
  lemma {:induction false} LinesAppend(a: seq<ReadOutcome>, b: seq<ReadOutcome>)
    ensures Lines(a + b) == Lines(a) + Lines(b)
  {
    if b == [] {
      assert a + b == a;
    } else {
      var b' := b[..|b| - 1];
      assert (a + b)[..|a + b| - 1] == a + b';
      LinesAppend(a, b');
    }
  }

  /** Handling two stretches of lines replies to both, in order. */
  lemma {:induction false} RepliesAppend(reader: string -> string, a: seq<string>, b: seq<string>)
    ensures Replies(reader, a + b) == Replies(reader, a) + Replies(reader, b)
  {
    if b == [] {
      assert a + b == a;
    } else {
      var b' := b[..|b| - 1];
      assert (a + b)[..|a + b| - 1] == a + b';
      RepliesAppend(reader, a, b');
    }
  }

  /** Writing two stretches of lines puts the text of both on the wire, in order. */
  lemma {:induction false} ConcatAppend(a: seq<string>, b: seq<string>)
    ensures Concat(a + b) == Concat(a) + Concat(b)
  {
    if b == [] {
      assert a + b == a;
    } else {
      var b' := b[..|b| - 1];
      assert (a + b)[..|a + b| - 1] == a + b';
      ConcatAppend(a, b');
    }
  }

  /**
   * The text written for a run of lines starts with the first of them,
   * unchanged: a corollary of ConcatAppend.
   */
  lemma ConcatStartsWithFirst(lines: seq<string>)
    requires lines != []
    ensures lines[0] <= Concat(lines)
  {
    assert [lines[0]] + lines[1..] == lines;
    assert [lines[0]][..0] == [];
    ConcatAppend([lines[0]], lines[1..]);
  }

  /** Forwarding changes no line and drops only the outcomes that carry none. */
  lemma {:induction false} LinesAreTheLineOutcomes(outcomes: seq<ReadOutcome>, i: nat)
    requires i < |Lines(outcomes)|
    ensures exists j :: 0 <= j < |outcomes| && outcomes[j] == Line(Lines(outcomes)[i])
  {
    var n := |outcomes|;
    var front := outcomes[..n - 1];
    assert Lines(outcomes) == Lines(front) + Forwarded(outcomes[n - 1]);
    if i < |Lines(front)| {
      LinesAreTheLineOutcomes(front, i);
      var j :| 0 <= j < |front| && front[j] == Line(Lines(front)[i]);
      assert Lines(outcomes)[i] == Lines(front)[i];
      assert outcomes[j] == front[j];
    } else {
      assert Lines(outcomes)[i] == outcomes[n - 1].data;
      assert outcomes[n - 1] == Line(Lines(outcomes)[i]);
    }
  }

  /** Every successful read forwards its data, unchanged, at its place in arrival order. */
  lemma LinesIncludeEveryLine(outcomes: seq<ReadOutcome>, j: nat)
    requires j < |outcomes| && outcomes[j].Line?
    ensures |Lines(outcomes[..j])| < |Lines(outcomes)|
    ensures Lines(outcomes)[|Lines(outcomes[..j])|] == outcomes[j].data
  {
    var before, at, after := outcomes[..j], [outcomes[j]], outcomes[j + 1..];
    assert outcomes == before + at + after;
    LinesAppend(before + at, after);
    LinesAppend(before, at);
    assert at[..0] == [];
    assert Lines(at) == [outcomes[j].data];
  }

  /** A handler that never returns the empty string answers every line, in order. */
  lemma {:induction false} RepliesTotal(reader: string -> string, lines: seq<string>)
    requires forall i :: 0 <= i < |lines| ==> reader(lines[i]) != ""
    ensures |Replies(reader, lines)| == |lines|
    ensures forall i :: 0 <= i < |lines| ==> Replies(reader, lines)[i] == reader(lines[i])
  {
    if lines != [] {
      RepliesTotal(reader, lines[..|lines| - 1]);
    }
  }

  /** A handler that always returns the empty string answers nothing. */
  lemma {:induction false} RepliesSilent(reader: string -> string, lines: seq<string>)
    requires forall i :: 0 <= i < |lines| ==> reader(lines[i]) == ""
    ensures Replies(reader, lines) == []
  {
    if lines != [] {
      RepliesSilent(reader, lines[..|lines| - 1]);
    }
  }
}
