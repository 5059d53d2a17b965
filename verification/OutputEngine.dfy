/** Reading a session's output (`OutputEngine` in src/domain/output.rs). */
module OutputEngine {
  // The consuming mark, and the escape sequence carried between `since_cursor` pages. Bytes that the PTY
  // thread writes while a call runs are parameters of the call, one for each point where the program
  // holds no lock.

  import opened Bytes
  import opened OutputBuffer
  import opened Lines
  import opened Patterns
  import opened ContextLines
  import opened AnsiStrip
  import opened AnsiPaging

  const MAX_TAIL_LINES: nat := 100
  const MAX_CONTEXT_LINES: nat := 50
  const SETTLE_THRESHOLD_MS: nat := 300

  datatype ReadMode = SinceCursor | Tail | WaitFor | Settle

  datatype ReadOutputResult = ReadOutputResult(
    output: seq<byte>, cursor: nat, hasMore: bool, isTruncated: bool, matched: bool, timedOut: bool, mode: ReadMode)

  datatype StripCarry = StripCarry(armed: bool, nextCursor: nat, pending: seq<byte>)

  const NO_CARRY := StripCarry(false, 0, [])

  // ---------------------------------------------------------------------------------------
  // Carrying between pages
  // ---------------------------------------------------------------------------------------

  /** A read that starts where the last carried page ended (or any read, before the first one). */
  predicate Contiguous(carry: StripCarry, truncated: bool, readStart: nat) {
    !truncated && (!carry.armed || carry.nextCursor == readStart)
  }

  function StripSincePage(carry: StripCarry, truncated: bool, readStart: nat, readEnd: nat, page: seq<byte>)
    : (seq<byte>, StripCarry)
  {
    if !Contiguous(carry, truncated, readStart) then (Stripped(page), carry)
    else
      var r := StripPage(page, carry.pending);
      (r.text, StripCarry(true, readEnd, r.trailing))
  }

  // ---------------------------------------------------------------------------------------
  // Settling
  // ---------------------------------------------------------------------------------------

  /** One poll: what was written since the last one, and the time in milliseconds. */
  datatype Poll = Poll(arrived: seq<byte>, at: nat)

  predicate HasPromptSuffix(data: seq<byte>) {
    |data| >= 2 && data[|data| - 1] == 0x20 && data[|data| - 2] in {0x24, 0x23, 0x3E}
  }

  /** The history after the first `n` polls. */
  function Arrived(history: seq<byte>, polls: seq<Poll>, n: nat): seq<byte>
    requires n <= |polls|
  {
    if n == 0 then history else Arrived(history, polls, n - 1) + polls[n - 1].arrived
  }

  /** The history after the first `n` writes. */
  function Extended(history: seq<byte>, writes: seq<seq<byte>>, n: nat): seq<byte>
    requires n <= |writes|
  {
    if n == 0 then history else Extended(history, writes, n - 1) + writes[n - 1]
  }

  /** The scans before each of the first `n` writes find no match. */
  ghost predicate NothingFound(
    history: seq<byte>, size: nat, mark: nat, p: Pattern,
    writes: seq<seq<byte>>, n: nat)
    requires n <= |writes|
  {
    n > 0 ==>
      && IsMatch(Unread(Extended(history, writes, n - 1), size, mark), p, None)
      && NothingFound(history, size, mark, p, writes, n - 1)
  }

  /** When the unread output last changed, as the first `n` polls see it; the reading began at `start`. */
  function LastChange(history: seq<byte>, size: nat, mark: nat, start: nat, polls: seq<Poll>, n: nat): nat
    requires n <= |polls|
  {
    if n == 0 then start
    else if Unread(Arrived(history, polls, n), size, mark) == Unread(Arrived(history, polls, n - 1), size, mark)
    then LastChange(history, size, mark, start, polls, n - 1)
    else polls[n - 1].at
  }

  /** Poll `n` finds unread output that ends in a prompt, or that has not changed for 300 ms. */
  predicate Settles(history: seq<byte>, size: nat, mark: nat, start: nat, polls: seq<Poll>, n: nat)
    requires n < |polls|
  {
    var now := Unread(Arrived(history, polls, n + 1), size, mark);
    && now != []
    && (|| HasPromptSuffix(now)
        || (&& now == Unread(Arrived(history, polls, n), size, mark)
            && polls[n].at >= LastChange(history, size, mark, start, polls, n) + SETTLE_THRESHOLD_MS))
  }

  predicate NoneSettles(history: seq<byte>, size: nat, mark: nat, start: nat, polls: seq<Poll>, n: nat)
    requires n <= |polls|
  {
    n > 0 ==>
      && !Settles(history, size, mark, start, polls, n - 1)
      && NoneSettles(history, size, mark, start, polls, n - 1)
  }

  function Shown(strip: bool, data: seq<byte>): seq<byte> {
    if strip then Stripped(data) else data
  }

  method StripStateless(strip: bool, data: seq<byte>) returns (text: seq<byte>)
    ensures text == Shown(strip, data)
  {
    text := data;
    if strip {
      text := StripControlSequences(data);
    }
  }

  class OutputEngine {
    const buffer: OutputRingBuffer
    var markCursor: nat
    var carry: StripCarry

    ghost function Repr(): set<object>
    {
      {this, buffer, buffer.inner, buffer.inner.buf}
    }

    ghost function History(): seq<byte>
      reads buffer.inner
    {
      buffer.inner.history
    }

    ghost function Size(): nat {
      buffer.inner.size
    }

    ghost predicate Valid()
      reads this, buffer, buffer.inner, buffer.inner.buf
    {
      buffer.Valid() && markCursor <= |History()|
    }

    constructor (bufferSize: nat)
      ensures Valid() && fresh(Repr())
      ensures History() == [] && markCursor == 0 && carry == NO_CARRY
    {
      buffer := new OutputRingBuffer(bufferSize);
      markCursor := 0;
      carry := NO_CARRY;
    }

    method MarkToLatest()
      requires Valid()
      modifies this`markCursor
      ensures Valid() && markCursor == |History()|
    {
      markCursor := buffer.Written();
    }

    /** `since_cursor` mode: `meanwhile` is written between reading the page and stripping it. */
    method ReadSinceCursor(cursor: nat, maxBytes: nat, stripAnsi: bool, meanwhile: seq<byte>)
      returns (r: ReadOutputResult)
      requires Valid()
      modifies this`carry, buffer.inner, buffer.inner.buf
      ensures Valid() && History() == old(History()) + meanwhile
      ensures var page := PageAt(old(History()), Size(), cursor, Some(maxBytes));
              var step := StripSincePage(
                            old(carry), Truncated(|History()|, Size(), cursor), cursor, page.newCursor, page.output);
              && carry == (if stripAnsi then step.1 else old(carry))
              && r == ReadOutputResult(if stripAnsi then step.0 else page.output,
                                       page.newCursor, page.hasMore, page.isTruncated, false, false, SinceCursor)
    {
      var page := buffer.ReadSinceMax(cursor, maxBytes);
      buffer.Write(meanwhile);
      var output := page.output;
      if stripAnsi {
        output := StripSincePageStep(cursor, page.newCursor, page.output);
      }
      r := ReadOutputResult(output, page.newCursor, page.hasMore, page.isTruncated, false, false, SinceCursor);
    }

    method StripSincePageStep(readStart: nat, readEnd: nat, page: seq<byte>) returns (text: seq<byte>)
      requires Valid()
      modifies this`carry
      ensures (text, carry)
           == StripSincePage(old(carry), Truncated(|History()|, Size(), readStart), readStart, readEnd, page)
    {
      var truncated := buffer.IsTruncated(readStart);
      var contiguous := !truncated && (!carry.armed || carry.nextCursor == readStart);
      if !contiguous {
        text := StripControlSequences(page);
        return;
      }
      var res := RunStripPage(page, carry.pending);
      carry := StripCarry(true, readEnd, res.trailing);
      text := res.text;
    }

    /** `tail_lines` mode: a peek. */
    method ReadTail(nLines: nat, stripAnsi: bool) returns (r: ReadOutputResult)
      requires Valid()
      ensures r == ReadOutputResult(
                     Shown(stripAnsi, LastLines(Unread(History(), Size(), 0), Min(nLines, 100))),
                     markCursor, false, false, false, false, Tail)
    {
      var lines := buffer.Tail(Min(nLines, MAX_TAIL_LINES));
      var output := StripStateless(stripAnsi, lines);
      r := ReadOutputResult(output, markCursor, false, false, false, false, Tail);
    }

    /** Default mode. The reading begins at time `start`; `polls` are the polls before the deadline,
    `lastArrival` what comes in before the deadline's own read, `late` what comes in between the final
    read and the truncation test. All that was unread at the final read is shown, and the mark moves
    by its length. */
    method ReadWithSettle(start: nat, polls: seq<Poll>, lastArrival: seq<byte>, late: seq<byte>, stripAnsi: bool)
      returns (r: ReadOutputResult, ghost done: nat, ghost seen: seq<byte>)
      requires Valid()
      modifies this`markCursor, buffer.inner, buffer.inner.buf
      ensures Valid() && History() == seen + late && done <= |polls|
      ensures seen == Arrived(old(History()), polls, done) + if r.timedOut then lastArrival else []
      ensures r.output == Shown(stripAnsi, Unread(seen, Size(), old(markCursor)))
      ensures r.cursor == markCursor == old(markCursor) + |Unread(seen, Size(), old(markCursor))|
      ensures r.isTruncated == Truncated(|History()|, Size(), old(markCursor))
      ensures !r.hasMore && !r.matched && r.mode == Settle
      ensures r.timedOut ==>
                done == |polls| && NoneSettles(old(History()), Size(), old(markCursor), start, polls, done)
      ensures !r.timedOut ==> done > 0 && Settles(old(History()), Size(), old(markCursor), start, polls, done - 1)
      ensures !r.timedOut ==> NoneSettles(old(History()), Size(), old(markCursor), start, polls, done - 1)
    {
      var mark := markCursor;
      var current, settled;
      current, settled, done := PollUntilSettled(mark, start, polls);
      if !settled {
        buffer.Write(lastArrival);
        current := buffer.ReadSince(mark);
      }
      seen := History();
      r := Consume(mark, current, !settled, late);
      var text := StripStateless(stripAnsi, r.output);
      r := r.(output := text);
    }

    /** The polling loop, up to the first poll that settles. */
    method PollUntilSettled(mark: nat, start: nat, polls: seq<Poll>)
      returns (current: seq<byte>, settled: bool, ghost done: nat)
      requires buffer.Valid() && mark <= |History()|
      modifies buffer.inner, buffer.inner.buf
      ensures buffer.Valid() && done <= |polls| && old(History()) <= History()
      ensures History() == Arrived(old(History()), polls, done)
      ensures current == Unread(History(), Size(), mark)
      ensures settled ==> done > 0 && Settles(old(History()), Size(), mark, start, polls, done - 1)
      ensures settled ==> NoneSettles(old(History()), Size(), mark, start, polls, done - 1)
      ensures !settled ==> done == |polls| && NoneSettles(old(History()), Size(), mark, start, polls, done)
    {
      ghost var first := History();
      var lastChange := start;
      current := buffer.ReadSince(mark);
      settled := false;
      var i := 0;
      while i < |polls| && !settled
        invariant 0 <= i <= |polls| && buffer.Valid()
        invariant History() == Arrived(first, polls, i) && first <= History()
        invariant current == Unread(History(), Size(), mark)
        invariant lastChange == LastChange(first, Size(), mark, start, polls, i)
        invariant settled ==> i > 0 && Settles(first, Size(), mark, start, polls, i - 1)
        invariant NoneSettles(first, Size(), mark, start, polls, if settled then i - 1 else i)
        decreases |polls| - i
      {
        current, lastChange, settled := PollOnce(mark, start, polls, i, current, lastChange, first);
        i := i + 1;
      }
      done := i;
    }

    /** One poll. Empty output never settles; it can only follow empty output. */
    method PollOnce(
      mark: nat, ghost start: nat, polls: seq<Poll>, i: nat, lastOutput: seq<byte>, lastChange: nat,
      ghost first: seq<byte>) returns (current: seq<byte>, change: nat, settled: bool)
      requires buffer.Valid() && i < |polls| && History() == Arrived(first, polls, i)
      requires lastOutput == Unread(History(), Size(), mark)
      requires lastChange == LastChange(first, Size(), mark, start, polls, i)
      modifies buffer.inner, buffer.inner.buf
      ensures buffer.Valid() && old(History()) <= History()
      ensures History() == Arrived(first, polls, i + 1)
      ensures current == Unread(History(), Size(), mark)
      ensures change == LastChange(first, Size(), mark, start, polls, i + 1)
      ensures settled <==> Settles(first, Size(), mark, start, polls, i)
    {
      change := lastChange;
      buffer.Write(polls[i].arrived);
      current := buffer.ReadSince(mark);
      if current == [] {
        return current, change, false;
      }
      var isPrompt := HasPromptSuffix(current);
      if current != lastOutput {
        change := polls[i].at;
        settled := false;
      } else {
        settled := polls[i].at >= change + SETTLE_THRESHOLD_MS;
      }
      settled := settled || isPrompt;
    }

    /** Advance the mark over `out`, then test for truncation. */
    method Consume(mark: nat, out: seq<byte>, timedOut: bool, late: seq<byte>) returns (r: ReadOutputResult)
      requires Valid() && mark <= |History()| && out == Unread(History(), Size(), mark)
      modifies this`markCursor, buffer.inner, buffer.inner.buf
      ensures Valid() && History() == old(History()) + late && markCursor == mark + |out|
      ensures r == ReadOutputResult(
                     out, markCursor, false, Truncated(|History()|, Size(), mark), false, timedOut, Settle)
    {
      markCursor := mark + |out|;
      buffer.Write(late);
      var truncated := buffer.IsTruncated(mark);
      r := ReadOutputResult(out, mark + |out|, false, truncated, false, timedOut, Settle);
    }

    /** A pattern was found: the mark moves past everything written by now, `late` included. `last` is written
    before the truncation test. */
    method Hit(mark: nat, existing: seq<byte>, found: Match, lines: nat, late: seq<byte>, last: seq<byte>)
      returns (r: ReadOutputResult)
      requires Valid() && InRange(Some(found), existing)
      modifies this`markCursor, buffer.inner, buffer.inner.buf
      ensures Valid() && History() == old(History()) + late + last && markCursor == |old(History()) + late|
      ensures r == ReadOutputResult(
                     ExtractContext(existing, found.start, found.end, lines), markCursor, false,
                     Truncated(|History()|, Size(), mark), true, false, WaitFor)
    {
      buffer.Write(late);
      var latest := buffer.Written();
      markCursor := latest;
      var context := RunExtractContext(existing, found.start, found.end, lines);
      buffer.Write(last);
      var truncated := buffer.IsTruncated(mark);
      r := ReadOutputResult(context, latest, false, truncated, true, false, WaitFor);
    }

    /** One look at what is unread. */
    method ScanOnce(mark: nat, p: Pattern)
      returns (existing: seq<byte>, found: Option<Match>)
      requires buffer.Valid()
      ensures existing == Unread(History(), Size(), mark)
      ensures IsMatch(existing, p, found) && (found.Some? ==> InRange(found, existing))
    {
      existing := buffer.ReadSince(mark);
      found := MatchPattern(existing, p);
    }

    /** Scan until something is found or the arrivals are used up. */
    method ScanForMatch(mark: nat, p: Pattern, arrivals: seq<seq<byte>>)
      returns (existing: seq<byte>, found: Option<Match>, ghost n: nat)
      requires buffer.Valid() && mark <= |History()|
      modifies buffer.inner, buffer.inner.buf
      ensures buffer.Valid() && n <= |arrivals| && old(History()) <= History()
      ensures History() == Extended(old(History()), arrivals, n)
      ensures NothingFound(old(History()), Size(), mark, p, arrivals, n)
      ensures existing == Unread(History(), Size(), mark)
      ensures IsMatch(existing, p, found) && (found.Some? ==> InRange(found, existing))
      ensures found.None? ==> n == |arrivals|
    {
      ghost var first := History();
      var i := 0;
      existing, found := ScanOnce(mark, p);
      while found.None? && i < |arrivals|
        invariant 0 <= i <= |arrivals| && buffer.Valid()
        invariant first <= History() && History() == Extended(first, arrivals, i)
        invariant NothingFound(first, Size(), mark, p, arrivals, i)
        invariant existing == Unread(History(), Size(), mark)
        invariant IsMatch(existing, p, found) && (found.Some? ==> InRange(found, existing))
      {
        buffer.Write(arrivals[i]);
        i := i + 1;
        existing, found := ScanOnce(mark, p);
      }
      n := i;
    }

    /** The deadline has passed: what is unread is shown, and stays unread. `last` is written before the
    truncation test. */
    method GiveUp(mark: nat, late: seq<byte>, last: seq<byte>) returns (r: ReadOutputResult)
      requires Valid()
      modifies buffer.inner, buffer.inner.buf
      ensures Valid() && History() == old(History()) + late + last
      ensures var unread := Unread(old(History()) + late, Size(), mark);
              r == ReadOutputResult(
                     unread, mark, unread != [], Truncated(|History()|, Size(), mark), false, true, WaitFor)
    {
      buffer.Write(late);
      var unread := buffer.ReadSince(mark);
      buffer.Write(last);
      var truncated := buffer.IsTruncated(mark);
      r := ReadOutputResult(unread, mark, unread != [], truncated, false, true, WaitFor);
    }

    /** Blocking mode. `arrivals` are the writes that wake the scan before the deadline, `late` is written
    between the last scan and the read that follows it, `last` between that read and the truncation test. A
    hit moves the mark past everything written by that read; a timeout leaves it. No scan before the last
    one found anything. */
    method ReadWithWaitFor(
      p: Pattern, contextLines: nat, arrivals: seq<seq<byte>>, late: seq<byte>, last: seq<byte>, stripAnsi: bool)
      returns (r: ReadOutputResult, ghost seen: seq<byte>, ghost m: Option<Match>, ghost n: nat)
      requires Valid()
      modifies this`markCursor, buffer.inner, buffer.inner.buf
      ensures Valid() && n <= |arrivals|
      ensures seen == Extended(old(History()), arrivals, n) && History() == seen + late + last
      ensures r.mode == WaitFor && r.matched == m.Some? && r.timedOut == m.None?
      ensures r.isTruncated == Truncated(|History()|, Size(), old(markCursor))
      ensures NothingFound(old(History()), Size(), old(markCursor), p, arrivals, n)
      ensures IsMatch(Unread(seen, Size(), old(markCursor)), p, m)
      ensures m.None? ==>
                var unread := Unread(seen + late, Size(), old(markCursor));
                && n == |arrivals| && markCursor == old(markCursor) == r.cursor
                && r.output == Shown(stripAnsi, unread) && (r.hasMore <==> unread != [])
      ensures m.Some? ==> markCursor == r.cursor == |seen + late| && !r.hasMore
      ensures m.Some? ==>
                var unread := Unread(seen, Size(), old(markCursor));
                var lines := Min(contextLines, 50);
                && InRange(m, unread)
                && r.output == Shown(stripAnsi, ExtractContext(unread, m.value.start, m.value.end, lines))
    {
      var mark := markCursor;
      var existing, found;
      existing, found, n := ScanForMatch(mark, p, arrivals);
      seen, m := History(), found;
      if found.Some? {
        r := Hit(mark, existing, found.value, Min(contextLines, MAX_CONTEXT_LINES), late, last);
      } else {
        r := GiveUp(mark, late, last);
      }
      var text := StripStateless(stripAnsi, r.output);
      r := r.(output := text);
    }
  }
}
