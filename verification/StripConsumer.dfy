/** A reader of `since_cursor` pages with `strip_ansi`, among writes and other readers (src/domain/output.rs). */
module StripConsumer {
  // The program reads a page under the buffer lock and strips it later under the carry lock, so these are
  // two steps that others may come between.

  import opened Bytes
  import opened Ring
  import opened OutputBuffer
  import opened OutputEngine
  import opened AnsiStrip
  import opened AnsiPaging

  type Reader = nat

  datatype Fetched = Fetched(start: nat, end: nat, page: seq<byte>)

  datatype State = State(history: seq<byte>, carry: StripCarry, fetched: map<Reader, Fetched>)

  datatype Step =
    | Write(data: seq<byte>)
    | Fetch(reader: Reader, cursor: nat, max: nat)
    | Strip(reader: Reader)

  /** A reader strips the page it fetched, and fetches the next one only after that. */
  predicate Enabled(s: State, step: Step) {
    match step
    case Write(_) => true
    case Fetch(r, _, _) => r !in s.fetched
    case Strip(r) => r in s.fetched
  }

  function Stripping(s: State, size: nat, r: Reader): (seq<byte>, StripCarry)
    requires r in s.fetched
  {
    var f := s.fetched[r];
    StripSincePage(s.carry, Truncated(|s.history|, size, f.start), f.start, f.end, f.page)
  }

  function Next(s: State, size: nat, step: Step): State
    requires Enabled(s, step)
  {
    match step
    case Write(data) => s.(history := s.history + data)
    case Fetch(r, cursor, max) =>
      var p := PageAt(s.history, size, cursor, Some(max));
      s.(fetched := s.fetched[r := Fetched(cursor, p.newCursor, p.output)])
    case Strip(r) => s.(carry := Stripping(s, size, r).1, fetched := s.fetched - {r})
  }

  predicate IsRun(s: State, size: nat, steps: seq<Step>)
    decreases |steps|
  {
    steps != [] ==> Enabled(s, steps[0]) && IsRun(Next(s, size, steps[0]), size, steps[1..])
  }

  function Final(s: State, size: nat, steps: seq<Step>): State
    requires IsRun(s, size, steps)
    decreases |steps|
  {
    if steps == [] then s else Final(Next(s, size, steps[0]), size, steps[1..])
  }

  /** The texts reader `r` gets, one after the other. */
  function TextOf(s: State, size: nat, steps: seq<Step>, r: Reader): seq<byte>
    requires IsRun(s, size, steps)
    decreases |steps|
  {
    if steps == [] then []
    else
      (if steps[0] == Strip(r) then Stripping(s, size, r).0 else [])
      + TextOf(Next(s, size, steps[0]), size, steps[1..], r)
  }

  /** The raw pages behind those texts. */
  function PagesOf(s: State, size: nat, steps: seq<Step>, r: Reader): seq<seq<byte>>
    requires IsRun(s, size, steps)
    decreases |steps|
  {
    if steps == [] then []
    else
      (if steps[0] == Strip(r) then [s.fetched[r].page] else [])
      + PagesOf(Next(s, size, steps[0]), size, steps[1..], r)
  }

  /** Reader `r` reads on from `at`, each page from the end of the last one; its pages are not overwritten
  before they are stripped, and no other reader's page continues the carried one. */
  predicate Undisturbed(s: State, size: nat, steps: seq<Step>, r: Reader, at: nat)
    requires IsRun(s, size, steps)
    decreases |steps|
  {
    steps != [] ==>
      var next := Next(s, size, steps[0]);
      match steps[0]
      case Write(_) => Undisturbed(next, size, steps[1..], r, at)
      case Fetch(other, cursor, _) =>
        if other == r
        then cursor == at && Undisturbed(next, size, steps[1..], r, next.fetched[r].end)
        else Undisturbed(next, size, steps[1..], r, at)
      case Strip(other) =>
        var start := s.fetched[other].start;
        && (if other == r then !Truncated(|s.history|, size, start)
            else !Contiguous(s.carry, Truncated(|s.history|, size, start), start))
        && Undisturbed(next, size, steps[1..], r, at)
  }

  /** Up to where reader `r` has stripped. */
  function Position(s: State, r: Reader, at: nat): nat {
    if r in s.fetched then s.fetched[r].start else at
  }

  /** The carry is reader `r`'s (or nobody's), and a page it holds is a slice of the history. */
  predicate Ready(s: State, size: nat, r: Reader, at: nat) {
    var position := Position(s, r, at);
    && position <= at <= |s.history|
    && (s.carry.armed ==> s.carry.nextCursor == position)
    && (r in s.fetched ==>
          && s.fetched[r].end == at
          && (s.fetched[r].page == s.history[position..at] || Truncated(|s.history|, size, position)))
  }

  lemma ReadyAfterFetch(s: State, size: nat, r: Reader, at: nat, max: nat)
    requires Ready(s, size, r, at) && r !in s.fetched
    ensures var t := Next(s, size, Fetch(r, at, max));
            Ready(t, size, r, t.fetched[r].end) && Position(t, r, t.fetched[r].end) == at
  {
  }

  lemma ReadyAfterWrite(s: State, size: nat, r: Reader, at: nat, data: seq<byte>)
    requires Ready(s, size, r, at)
    ensures Ready(Next(s, size, Write(data)), size, r, at)
  {
    if r in s.fetched {
      PrefixSlice(s.history, s.history + data, s.fetched[r].start, at);
    }
  }

  lemma ReadyAfterStrip(s: State, size: nat, r: Reader, at: nat)
    requires Ready(s, size, r, at) && r in s.fetched
    requires !Truncated(|s.history|, size, s.fetched[r].start)
    ensures Contiguous(s.carry, Truncated(|s.history|, size, s.fetched[r].start), s.fetched[r].start)
    ensures Ready(Next(s, size, Strip(r)), size, r, at) && Next(s, size, Strip(r)).carry.armed
    ensures s.fetched[r].page == s.history[s.fetched[r].start..at]
  {
  }

  lemma {:induction false} HistoryGrows(s: State, size: nat, steps: seq<Step>)
    requires IsRun(s, size, steps)
    ensures s.history <= Final(s, size, steps).history
    decreases |steps|
  {
    if steps != [] {
      HistoryGrows(Next(s, size, steps[0]), size, steps[1..]);
    }
  }

  /** The text is what stripping the pages in order gives, the pages are one slice of the history, and the
  carry is left at the end of that slice with the cut-off sequence of the last page. */
  predicate IsSlice(
    text: seq<byte>, pages: seq<seq<byte>>, before: StripCarry, after: StripCarry, history: seq<byte>, from: nat)
  {
    var to := from + |Flatten(pages)|;
    && StripPages(pages, before.pending) == StripPageResult(text, after.pending)
    && to <= |history|
    && Flatten(pages) == history[from..to]
    && (if pages == [] then after == before else after.armed && after.nextCursor == to)
  }

  /** What reader `r` gets in a run is a slice. */
  predicate ReadSlice(s: State, size: nat, steps: seq<Step>, r: Reader, from: nat)
    requires IsRun(s, size, steps)
  {
    var t := Final(s, size, steps);
    IsSlice(TextOf(s, size, steps, r), PagesOf(s, size, steps, r), s.carry, t.carry, t.history, from)
  }

  /** What the first step adds. */
  lemma FirstStep(s: State, size: nat, steps: seq<Step>, r: Reader)
    requires steps != [] && IsRun(s, size, steps)
    ensures var next := Next(s, size, steps[0]);
            && Final(s, size, steps) == Final(next, size, steps[1..])
            && (steps[0] != Strip(r) ==>
                  && TextOf(s, size, steps, r) == TextOf(next, size, steps[1..], r)
                  && PagesOf(s, size, steps, r) == PagesOf(next, size, steps[1..], r))
            && (steps[0] == Strip(r) ==>
                  && TextOf(s, size, steps, r) == Stripping(s, size, r).0 + TextOf(next, size, steps[1..], r)
                  && PagesOf(s, size, steps, r) == [s.fetched[r].page] + PagesOf(next, size, steps[1..], r))
  {
    var next := Next(s, size, steps[0]);
    assert [] + PagesOf(next, size, steps[1..], r) == PagesOf(next, size, steps[1..], r);
    assert [] + TextOf(next, size, steps[1..], r) == TextOf(next, size, steps[1..], r);
  }

  /** A page and the slice that goes on from its end are a slice. */
  lemma PageThenSlice(
    page: seq<byte>, text: seq<byte>, pages: seq<seq<byte>>, before: StripCarry, mid: StripCarry, after: StripCarry,
    history: seq<byte>, from: nat, at: nat)
    requires from <= at <= |history| && page == history[from..at]
    requires mid == StripCarry(true, at, StripPage(page, before.pending).trailing)
    requires IsSlice(text, pages, mid, after, history, at)
    ensures IsSlice(StripPage(page, before.pending).text + text, [page] + pages, before, after, history, from)
  {
    var all := [page] + pages;
    assert all[1..] == pages;
    assert Flatten(all) == page + Flatten(pages);
    SlicesJoin(history, from, at, at + |Flatten(pages)|);
  }

  lemma StripStep(s: State, size: nat, steps: seq<Step>, r: Reader, at: nat)
    requires steps != [] && IsRun(s, size, steps) && steps[0] == Strip(r)
    requires Ready(s, size, r, at) && !Truncated(|s.history|, size, s.fetched[r].start)
    requires ReadSlice(Next(s, size, Strip(r)), size, steps[1..], r, at)
    ensures ReadSlice(s, size, steps, r, s.fetched[r].start)
  {
    var next := Next(s, size, Strip(r));
    var f := s.fetched[r];
    var t := Final(next, size, steps[1..]);
    FirstStep(s, size, steps, r);
    ReadyAfterStrip(s, size, r, at);
    HistoryGrows(next, size, steps[1..]);
    PrefixSlice(s.history, t.history, f.start, at);
    PageThenSlice(
      f.page, TextOf(next, size, steps[1..], r), PagesOf(next, size, steps[1..], r), s.carry, next.carry, t.carry,
      t.history, f.start, at);
  }

  /** Every run in which reader `r` is undisturbed. */
  lemma {:induction false} ReaderGetsItsSlice(s: State, size: nat, steps: seq<Step>, r: Reader, at: nat)
    requires IsRun(s, size, steps) && Ready(s, size, r, at) && Undisturbed(s, size, steps, r, at)
    ensures ReadSlice(s, size, steps, r, Position(s, r, at))
    decreases |steps|
  {
    if steps == [] {
      assert s.history[Position(s, r, at)..Position(s, r, at)] == [];
    } else {
      var next := Next(s, size, steps[0]);
      var nextAt := if steps[0].Fetch? && steps[0].reader == r then next.fetched[r].end else at;
      match steps[0] {
        case Write(data) => ReadyAfterWrite(s, size, r, at, data);
        case Fetch(other, cursor, max) =>
          if other == r {
            ReadyAfterFetch(s, size, r, at, max);
          }
        case Strip(other) =>
          if other == r {
            ReadyAfterStrip(s, size, r, at);
          }
      }
      ReaderGetsItsSlice(next, size, steps[1..], r, nextAt);
      if steps[0] == Strip(r) {
        StripStep(s, size, steps, r, at);
      } else {
        FirstStep(s, size, steps, r);
      }
    }
  }

  lemma SliceKeepsText(
    text: seq<byte>, pages: seq<seq<byte>>, before: StripCarry, after: StripCarry, history: seq<byte>, from: nat)
    requires IsSlice(text, pages, before, after, history, from) && before.pending == [] && TailsFit(pages, [])
    ensures text + Stripped(after.pending) == Stripped(history[from..from + |Flatten(pages)|])
            <==> EscapesBeforeTails(pages, []) == 0
  {
    PagingKeepsText(pages);
  }

  /** End to end: an undisturbed reader that starts with no carried bytes gets, page by page, the stripped
  text of a slice of the raw history, up to the sequence the last page cuts off; exactly so when no
  cut-off sequence directly follows an ESC. */
  lemma StrippedReadRefinesHistory(s: State, size: nat, steps: seq<Step>, r: Reader, at: nat)
    requires IsRun(s, size, steps) && at <= |s.history| && r !in s.fetched
    requires s.carry.pending == [] && (s.carry.armed ==> s.carry.nextCursor == at)
    requires Undisturbed(s, size, steps, r, at)
    requires TailsFit(PagesOf(s, size, steps, r), [])
    ensures var t := Final(s, size, steps);
            var to := at + |Flatten(PagesOf(s, size, steps, r))|;
            && to <= |t.history|
            && (TextOf(s, size, steps, r) + Stripped(t.carry.pending) == Stripped(t.history[at..to])
                <==> EscapesBeforeTails(PagesOf(s, size, steps, r), []) == 0)
  {
    ReaderGetsItsSlice(s, size, steps, r, at);
    SliceKeepsText(TextOf(s, size, steps, r), PagesOf(s, size, steps, r), s.carry, Final(s, size, steps).carry,
                   Final(s, size, steps).history, at);
  }

  // ---------------------------------------------------------------------------------------
  // After the ring has overtaken the carry
  // ---------------------------------------------------------------------------------------

  predicate Overtaken(s: State, size: nat) {
    s.carry.armed && s.carry.nextCursor < Oldest(|s.history|, size)
  }

  /** Once the carried position is overwritten, no read ever continues it: the carry never changes again,
  and every page of every reader is stripped on its own. */
  lemma {:induction false} StatelessForever(s: State, size: nat, steps: seq<Step>, r: Reader)
    requires IsRun(s, size, steps) && Overtaken(s, size)
    ensures Final(s, size, steps).carry == s.carry && Overtaken(Final(s, size, steps), size)
    ensures TextOf(s, size, steps, r) == StrippedEach(PagesOf(s, size, steps, r))
    decreases |steps|
  {
    if steps != [] {
      var next := Next(s, size, steps[0]);
      StatelessForever(next, size, steps[1..], r);
      var more := PagesOf(next, size, steps[1..], r);
      if steps[0] == Strip(r) {
        assert ([s.fetched[r].page] + more)[1..] == more;
      } else {
        assert [] + more == more;
      }
    }
  }

  function StrippedEach(pages: seq<seq<byte>>): seq<byte> {
    if pages == [] then [] else Stripped(pages[0]) + StrippedEach(pages[1..])
  }
}
