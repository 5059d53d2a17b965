/** Following `new_cursor` from page to page (src/domain/output.rs, `read_since_max`). */
module Paging {
  import opened Bytes
  import opened Ring
  import opened OutputBuffer

  /** A page is a slice of the history that ends at its new cursor. It starts at the cursor, or later
  exactly when the cursor was overwritten; more is left exactly when it filled `max`. */
  lemma PageIsSlice(history: seq<byte>, size: nat, cursor: nat, max: nat)
    requires cursor <= |history|
    ensures var p := PageAt(history, size, cursor, Some(max));
            var from := p.newCursor - |p.output|;
            && cursor <= from && p.newCursor <= |history|
            && p.output == history[from..p.newCursor]
            && (p.isTruncated <==> cursor < from)
            && (p.isTruncated ==> from == |history| - size)
            && |p.output| <= max
            && (p.hasMore <==> p.newCursor < |history|)
            && (p.hasMore ==> |p.output| == max)
  {
  }

  // ---------------------------------------------------------------------------------------
  // A history at rest
  // ---------------------------------------------------------------------------------------

  /** The pages a reader gets that follows `new_cursor` until nothing is left. */
  function FollowPages(history: seq<byte>, size: nat, cursor: nat, max: nat): seq<ReadSinceResult>
    requires cursor <= |history| && max > 0
    decreases |history| - cursor
  {
    PageIsSlice(history, size, cursor, max);
    var p := PageAt(history, size, cursor, Some(max));
    [p] + if p.hasMore then FollowPages(history, size, p.newCursor, max) else []
  }

  function Outputs(pages: seq<ReadSinceResult>): seq<seq<byte>> {
    seq(|pages|, i requires 0 <= i < |pages| => pages[i].output)
  }

  lemma OutputsCons(p: ReadSinceResult, rest: seq<ReadSinceResult>)
    ensures Flatten(Outputs([p] + rest)) == p.output + Flatten(Outputs(rest))
  {
    assert Outputs([p] + rest) == [p.output] + Outputs(rest);
    assert ([p.output] + Outputs(rest))[1..] == Outputs(rest);
  }

  lemma UnreadIsSuffix(history: seq<byte>, size: nat, cursor: nat)
    requires cursor <= |history|
    ensures Unread(history, size, cursor) == history[Max(cursor, Oldest(|history|, size))..]
  {
  }

  lemma {:induction false} PagesNotTruncated(history: seq<byte>, size: nat, cursor: nat, max: nat)
    requires Oldest(|history|, size) <= cursor <= |history| && max > 0
    ensures forall i :: 0 <= i < |FollowPages(history, size, cursor, max)| ==>
              !FollowPages(history, size, cursor, max)[i].isTruncated
    decreases |history| - cursor
  {
    PageIsSlice(history, size, cursor, max);
    var p := PageAt(history, size, cursor, Some(max));
    if p.hasMore {
      PagesNotTruncated(history, size, p.newCursor, max);
    }
  }

  /** With a positive page size and no writes, paging ends at the end of the history, its pages together
  are the unbounded read, and only the first page can be truncated. */
  lemma {:induction false} PagingCovers(history: seq<byte>, size: nat, cursor: nat, max: nat)
    requires cursor <= |history| && max > 0
    ensures var pages := FollowPages(history, size, cursor, max);
            && Flatten(Outputs(pages)) == Unread(history, size, cursor)
            && pages[|pages| - 1].newCursor == |history|
            && !pages[|pages| - 1].hasMore
            && (forall i :: 0 < i < |pages| ==> !pages[i].isTruncated)
    decreases |history| - cursor
  {
    PageIsSlice(history, size, cursor, max);
    var p := PageAt(history, size, cursor, Some(max));
    UnreadIsSuffix(history, size, cursor);
    if p.hasMore {
      var rest := FollowPages(history, size, p.newCursor, max);
      OutputsCons(p, rest);
      PagingCovers(history, size, p.newCursor, max);
      UnreadIsSuffix(history, size, p.newCursor);
      PagesNotTruncated(history, size, p.newCursor, max);
      var from := p.newCursor - |p.output|;
      assert history[from..] == history[from..p.newCursor] + history[p.newCursor..];
    } else {
      OutputsCons(p, []);
    }
  }

  /** With page size zero a reader that is behind never gets on. */
  lemma ZeroPageStalls(history: seq<byte>, size: nat, cursor: nat)
    requires Oldest(|history|, size) <= cursor < |history|
    ensures var p := PageAt(history, size, cursor, Some(0));
            p.output == [] && p.newCursor == cursor && p.hasMore
  {
  }

  // ---------------------------------------------------------------------------------------
  // A growing history
  // ---------------------------------------------------------------------------------------

  /** Successive pages of one reader, each from the cursor the previous one returned, while writes
  lengthen the history between them. */
  ghost predicate Follows(
    histories: seq<seq<byte>>, size: nat, cursor: nat, maxes: seq<nat>, pages: seq<ReadSinceResult>)
  {
    && |histories| == |maxes| == |pages|
    && (pages != [] ==>
          && cursor <= |histories[0]|
          && pages[0] == PageAt(histories[0], size, cursor, Some(maxes[0]))
          && (forall i :: 0 < i < |histories| ==> histories[0] <= histories[i])
          && Follows(histories[1..], size, pages[0].newCursor, maxes[1..], pages[1..]))
  }

  /** The bytes between each cursor and the start of its page: what overwriting made the reader miss. */
  function Skipped(cursor: nat, pages: seq<ReadSinceResult>): nat
    decreases |pages|
  {
    if pages == [] then 0
    else
      (if cursor + |pages[0].output| <= pages[0].newCursor
       then pages[0].newCursor - |pages[0].output| - cursor else 0)
      + Skipped(pages[0].newCursor, pages[1..])
  }

  function LastCursor(cursor: nat, pages: seq<ReadSinceResult>): nat {
    if pages == [] then cursor else pages[|pages| - 1].newCursor
  }

  lemma {:induction false} BytesAccounted(
    histories: seq<seq<byte>>, size: nat, cursor: nat, maxes: seq<nat>, pages: seq<ReadSinceResult>)
    requires Follows(histories, size, cursor, maxes, pages) && pages != []
    ensures cursor <= LastCursor(cursor, pages) <= |histories[|histories| - 1]|
    ensures |Flatten(Outputs(pages))| + Skipped(cursor, pages) == LastCursor(cursor, pages) - cursor
    decreases |pages|
  {
    PageIsSlice(histories[0], size, cursor, maxes[0]);
    OutputsCons(pages[0], pages[1..]);
    assert pages == [pages[0]] + pages[1..];
    if |pages| > 1 {
      BytesAccounted(histories[1..], size, pages[0].newCursor, maxes[1..], pages[1..]);
    } else {
      assert Outputs(pages[1..]) == [];
    }
  }

  lemma {:induction false} SkippedMeansTruncated(
    histories: seq<seq<byte>>, size: nat, cursor: nat, maxes: seq<nat>, pages: seq<ReadSinceResult>)
    requires Follows(histories, size, cursor, maxes, pages)
    ensures Skipped(cursor, pages) == 0 <==> forall i :: 0 <= i < |pages| ==> !pages[i].isTruncated
    decreases |pages|
  {
    if pages != [] {
      PageIsSlice(histories[0], size, cursor, maxes[0]);
      var rest := pages[1..];
      SkippedMeansTruncated(histories[1..], size, pages[0].newCursor, maxes[1..], rest);
      assert forall i :: 0 <= i < |rest| ==> rest[i] == pages[i + 1];
      assert forall i :: 0 < i < |pages| ==> pages[i] == rest[i - 1];
    }
  }

  lemma {:induction false} UntruncatedPagesJoin(
    histories: seq<seq<byte>>, size: nat, cursor: nat, maxes: seq<nat>, pages: seq<ReadSinceResult>)
    requires Follows(histories, size, cursor, maxes, pages) && pages != []
    requires Skipped(cursor, pages) == 0
    ensures cursor <= LastCursor(cursor, pages) <= |histories[|histories| - 1]|
    ensures Flatten(Outputs(pages)) == histories[|histories| - 1][cursor..LastCursor(cursor, pages)]
    decreases |pages|
  {
    var p := pages[0];
    var whole := histories[|histories| - 1];
    BytesAccounted(histories, size, cursor, maxes, pages);
    PageIsSlice(histories[0], size, cursor, maxes[0]);
    OutputsCons(p, pages[1..]);
    assert pages == [p] + pages[1..];
    PrefixSlice(histories[0], whole, cursor, p.newCursor);
    if |pages| > 1 {
      UntruncatedPagesJoin(histories[1..], size, p.newCursor, maxes[1..], pages[1..]);
      SlicesJoin(whole, cursor, p.newCursor, LastCursor(p.newCursor, pages[1..]));
    } else {
      assert Outputs(pages[1..]) == [];
    }
  }

  /** Every byte between the first cursor and the last is either delivered once, in its place, or skipped
  right before a page flagged as truncated; with no such page the outputs are the whole slice. */
  lemma GrowingPaging(
    histories: seq<seq<byte>>, size: nat, cursor: nat, maxes: seq<nat>, pages: seq<ReadSinceResult>)
    requires Follows(histories, size, cursor, maxes, pages) && pages != []
    ensures var last := LastCursor(cursor, pages);
            var whole := histories[|histories| - 1];
            && cursor <= last <= |whole|
            && |Flatten(Outputs(pages))| + Skipped(cursor, pages) == last - cursor
            && (Skipped(cursor, pages) == 0 <==> forall i :: 0 <= i < |pages| ==> !pages[i].isTruncated)
            && (Skipped(cursor, pages) == 0 ==> Flatten(Outputs(pages)) == whole[cursor..last])
  {
    BytesAccounted(histories, size, cursor, maxes, pages);
    SkippedMeansTruncated(histories, size, cursor, maxes, pages);
    if Skipped(cursor, pages) == 0 {
      UntruncatedPagesJoin(histories, size, cursor, maxes, pages);
    }
  }
}
