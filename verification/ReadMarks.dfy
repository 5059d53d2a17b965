/** What the consuming mark guarantees over whole sequences of calls (src/domain/output.rs). */
module ReadMarks {
  // Calls do not overlap; each is one step here, with the writes around it as steps of their own. The
  // effect of each call is the one the methods of `OutputEngine` are proved to have.

  import opened Bytes
  import opened Ring
  import opened OutputBuffer

  /** `Peek` stands for tail reads, `since_cursor` reads and waits that time out. */
  datatype Call = Write(data: seq<byte>) | Settle | Peek | WaitHit(late: seq<byte>) | MarkToLatest

  datatype Marked = Marked(history: seq<byte>, mark: nat)

  function After(s: Marked, size: nat, c: Call): Marked {
    match c
    case Write(data) => s.(history := s.history + data)
    case Settle => s.(mark := s.mark + |Unread(s.history, size, s.mark)|)
    case Peek => s
    case WaitHit(late) => Marked(s.history + late, |s.history + late|)
    case MarkToLatest => s.(mark := |s.history|)
  }

  function Consumed(s: Marked, size: nat, c: Call): seq<byte> {
    if c == Settle then Unread(s.history, size, s.mark) else []
  }

  function RunCalls(s: Marked, size: nat, calls: seq<Call>): Marked
    decreases |calls|
  {
    if calls == [] then s else RunCalls(After(s, size, calls[0]), size, calls[1..])
  }

  function AllConsumed(s: Marked, size: nat, calls: seq<Call>): seq<byte>
    decreases |calls|
  {
    if calls == [] then []
    else Consumed(s, size, calls[0]) + AllConsumed(After(s, size, calls[0]), size, calls[1..])
  }

  /** One settle read returns what the ring still holds from the mark on. It uses everything up exactly
  when the mark has not been overwritten. */
  lemma SettleConsumes(s: Marked, size: nat)
    requires s.mark <= |s.history|
    ensures var t := After(s, size, Settle);
            && Consumed(s, size, Settle) == s.history[Max(s.mark, Oldest(|s.history|, size))..]
            && s.mark <= t.mark <= |t.history|
            && (t.mark == |t.history| <==> !Truncated(|s.history|, size, s.mark))
  {
  }

  /** The mark never moves back and never passes the end of the history. */
  lemma {:induction false} MarkStaysInHistory(s: Marked, size: nat, calls: seq<Call>)
    requires s.mark <= |s.history|
    ensures var t := RunCalls(s, size, calls);
            s.mark <= t.mark <= |t.history| && s.history <= t.history
    decreases |calls|
  {
    if calls != [] {
      MarkStaysInHistory(After(s, size, calls[0]), size, calls[1..]);
    }
  }

  /** No settle read of the run finds its mark overwritten, and nothing but settle reads moves the mark. */
  predicate OnlyCleanSettles(s: Marked, size: nat, calls: seq<Call>)
    decreases |calls|
  {
    calls != [] ==>
      && (calls[0] == Settle ==> !Truncated(|s.history|, size, s.mark))
      && !calls[0].WaitHit? && !calls[0].MarkToLatest?
      && OnlyCleanSettles(After(s, size, calls[0]), size, calls[1..])
  }

  /** Settle reads neither lose nor repeat a byte: together they are the slice of the history between
  the first mark and the last, however writes and peeks come in between. */
  lemma {:induction false} SettleReadsAdjoin(s: Marked, size: nat, calls: seq<Call>)
    requires s.mark <= |s.history| && OnlyCleanSettles(s, size, calls)
    ensures var t := RunCalls(s, size, calls);
            && s.mark <= t.mark <= |t.history|
            && AllConsumed(s, size, calls) == t.history[s.mark..t.mark]
    decreases |calls|
  {
    if calls != [] {
      var next := After(s, size, calls[0]);
      var t := RunCalls(s, size, calls);
      MarkStaysInHistory(next, size, calls[1..]);
      SettleReadsAdjoin(next, size, calls[1..]);
      if calls[0] == Settle {
        SettleConsumes(s, size);
        PrefixSlice(s.history, t.history, s.mark, next.mark);
        SlicesJoin(t.history, s.mark, next.mark, t.mark);
      } else {
        assert next.mark == s.mark;
        assert [] + AllConsumed(next, size, calls[1..]) == AllConsumed(next, size, calls[1..]);
      }
    }
  }

  /** When the mark of a settle read was overwritten, the next one delivers bytes again: it starts before
  the end of what the first one delivered. */
  lemma TruncatedSettleRepeats(s: Marked, size: nat)
    requires s.mark <= |s.history| && size > 0 && Truncated(|s.history|, size, s.mark)
    ensures var next := After(s, size, Settle);
            && Consumed(s, size, Settle) == s.history[|s.history| - size..]
            && Consumed(next, size, Settle) == s.history[Max(s.mark + size, |s.history| - size)..]
            && 0 < |Consumed(next, size, Settle)| <= size
  {
  }

  /** A hit moves the mark over everything written by then: what was unread and what came in late is never
  delivered by a settle read. */
  lemma WaitHitDiscards(s: Marked, size: nat, late: seq<byte>)
    ensures var t := After(s, size, WaitHit(late));
            Consumed(t, size, Settle) == [] && t.mark == |s.history| + |late|
  {
  }
}
