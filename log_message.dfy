/**
 * The audit record that a worker publishes for every line it reads or
 * writes (package log, file message.go).
 */
module Log {

  /** One audit record: the worker's ID, the line, and its direction. */
  datatype Message = Message(id: string, content: string, mode: string)

  /** The mode of a record for a line read from the connection. */
  const ReadMode: string := "r"

  /** The mode of a record for a line written to the connection. */
  const WriteMode: string := "w"

  /** The direction a record describes: true for an inbound line. */
  predicate IsInbound(m: Message)
  {
    m.mode == ReadMode
  }

  /**
   * NewMessage: the ID and the content are copied unchanged, the mode starts
   * as "w" and becomes "r" for an inbound line, so it is always one of the two.
   */
  function NewMessage(id: string, c: string, isRead: bool): (m: Message)
    ensures m.id == id
    ensures m.content == c
    ensures m.mode == ReadMode || m.mode == WriteMode
    ensures m.mode == ReadMode <==> isRead
  {
    var m := Message(id, c, WriteMode);
    if isRead then m.(mode := ReadMode) else m
  }

  /** The direction read back from a record is the one it was created with. */
  lemma DirectionRoundTrip(id: string, c: string, isRead: bool)
    ensures IsInbound(NewMessage(id, c, isRead)) == isRead
  {
  }

  /** Two records are equal only when made from the same three arguments. */
  lemma NewMessageInjective(id1: string, c1: string, r1: bool, id2: string, c2: string, r2: bool)
    requires NewMessage(id1, c1, r1) == NewMessage(id2, c2, r2)
    ensures id1 == id2 && c1 == c2 && r1 == r2
  {
    DirectionRoundTrip(id1, c1, r1);
    DirectionRoundTrip(id2, c2, r2);
  }
}
