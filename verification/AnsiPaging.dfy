/** Stripping page by page (`strip_page` in src/domain/ansi_strip.rs). */
module AnsiPaging {
  // The sequence that a page cuts off is carried to the next page, and the pages together give the text
  // of the whole.

  import opened Bytes
  import opened AnsiStrip

  const MAX_PENDING_BYTES: nat := 8 * 1024

  datatype StripPageResult = StripPageResult(text: seq<byte>, trailing: seq<byte>)

  function StripPageInner(full: seq<byte>): StripPageResult {
    match TrailingStart(full)
    case None => StripPageResult(Stripped(full), [])
    case Some(start) =>
      StripPageResult(
        Stripped(full[..start]),
        if |full| - start > MAX_PENDING_BYTES then [] else full[start..])
  }

  function StripPage(input: seq<byte>, pending: seq<byte>): StripPageResult {
    StripPageInner(pending + input)
  }

  method RunStripPage(input: seq<byte>, pending: seq<byte>) returns (r: StripPageResult)
    ensures r == StripPage(input, pending)
  {
    var full := input;
    if pending != [] {
      full := pending + input;
    } else {
      assert pending + input == input;
    }
    var found := IncompleteTrailingStart(full);
    match found {
      case None =>
        var text := StripControlSequences(full);
        r := StripPageResult(text, []);
      case Some(start) =>
        var text := StripControlSequences(full[..start]);
        r := StripPageResult(text, if |full| - start > MAX_PENDING_BYTES then [] else full[start..]);
    }
  }

  // ---------------------------------------------------------------------------------------
  // One page
  // ---------------------------------------------------------------------------------------

  /** Bytes that a sequence cut off by the end of a page may consist of. */
  predicate IsCarry(p: seq<byte>) {
    p != [] ==> p[0] == ESC && SequenceLength(p) == None
  }

  /** The page ends in a cut-off sequence, and the byte just before that sequence is an ESC too. */
  predicate EscBeforeTail(full: seq<byte>) {
    var k := TrailingStart(full);
    k.Some? && k.value > 0 && full[k.value - 1] == ESC
  }

  /** The cut-off sequence is too long to carry. */
  predicate TailDropped(full: seq<byte>) {
    var k := TrailingStart(full);
    k.Some? && |full| - k.value > 8192
  }

  /** `k` is where the sequence begins that the end of `s` cuts off. */
  predicate CutOffAt(s: seq<byte>, k: Option<nat>) {
    match k
    case None => Run(Ground, s) == Ground
    case Some(i) => i < |s| && IsCarry(s[i..]) && Run(Ground, s[..i + 1]) == Escape
  }

  lemma {:induction false} TrailingMeaning(s: seq<byte>)
    ensures CutOffAt(s, TrailingStart(s))
    decreases |s|
  {
    if s == [] {
    } else if s[0] != ESC {
      TrailingMeaning(s[1..]);
      var k := TrailingStart(s[1..]);
      if k.Some? {
        assert s[..k.value + 2][1..] == s[1..][..k.value + 1];
        assert s[1..][k.value..] == s[k.value + 1..];
      }
    } else if SequenceLength(s) == None {
      assert s[..1] == [ESC] && s[0..] == s;
    } else {
      var n := SequenceLength(s).value;
      TrailingMeaning(s[n..]);
      CutOffAfterSequence(s, n, TrailingStart(s[n..]));
    }
  }

  lemma CutOffAfterSequence(s: seq<byte>, n: nat, k: Option<nat>)
    requires s != [] && s[0] == ESC && SequenceLength(s) == Some(n) && CutOffAt(s[n..], k)
    ensures CutOffAt(s, Plus(n, k))
  {
    var rest := s[n..];
    if k.Some? {
      SkipCompleteSequence(s, n + k.value + 1);
      assert rest[k.value..] == s[n + k.value..];
    } else {
      SkipCompleteSequence(s, |s|);
      assert s[..|s|] == s && rest[..|rest|] == rest;
    }
  }

  /** The mode after a prefix that goes beyond a complete sequence does not depend on the sequence. */
  lemma SkipCompleteSequence(s: seq<byte>, upTo: nat)
    requires s != [] && s[0] == ESC && SequenceLength(s).Some?
    requires SequenceLength(s).value < upTo <= |s| || (SequenceLength(s).value == upTo == |s|)
    ensures var n := SequenceLength(s).value;
            Run(Ground, s[..upTo]) == Run(Ground, s[n..][..upTo - n])
  {
    var n := SequenceLength(s).value;
    var t := s[n..][..upTo - n];
    SequenceMeaning(s);
    assert s[..upTo] == s[..n] + t;
    RunAppend(Ground, s[..n], t);
    assert t == [] ==> s[n..] == [];
    ResyncRun(Run(Ground, s[..n]), t);
  }

  /** Reading a carried sequence from `Ground` shows no text; its state is the state of the stream. */
  lemma CarryMeaning(p: seq<byte>)
    requires IsCarry(p)
    ensures Emit(Ground, p) == [] && Stripped(p) == Flush(Run(Ground, p))
  {
    if p != [] {
      SequenceMeaning(p);
    }
  }

  lemma {:induction false} RunLast(s: seq<byte>)
    requires s != []
    ensures Run(Ground, s) == Next(Run(Ground, s[..|s| - 1]), s[|s| - 1])
  {
    var last := [s[|s| - 1]];
    assert s == s[..|s| - 1] + last && last[1..] == [];
    RunAppend(Ground, s[..|s| - 1], last);
  }

  /** Before a byte that enters `Escape`, the mode is `Escape` just when the previous byte is ESC. */
  lemma BeforeEscape(s: seq<byte>, k: nat)
    requires k < |s| && Run(Ground, s[..k + 1]) == Escape
    ensures s[k] == ESC && Next(Run(Ground, s[..k]), ESC) == Escape && Out(Run(Ground, s[..k]), ESC) == []
    ensures Run(Ground, s[..k]) == Escape <==> k > 0 && s[k - 1] == ESC
  {
    RunLast(s[..k + 1]);
    assert s[..k + 1][..k] == s[..k];
    if k > 0 {
      RunLast(s[..k]);
    }
  }

  /** What one page returns: the text of the carried bytes and the page, except for one ESC too many
  when the cut-off sequence directly follows an ESC; and a tail in the same state as the whole. */
  lemma {:induction false} PageMeaning(full: seq<byte>)
    ensures var r := StripPageInner(full);
            && r.text == Emit(Ground, full) + (if EscBeforeTail(full) then [ESC] else [])
            && (!TailDropped(full) ==> IsCarry(r.trailing) && Run(Ground, r.trailing) == Run(Ground, full))
  {
    TrailingMeaning(full);
    if TrailingStart(full).Some? {
      TailAddsNothing(full, TrailingStart(full).value);
    }
  }

  lemma {:induction false} TailAddsNothing(full: seq<byte>, k: nat)
    requires k < |full| && IsCarry(full[k..]) && Run(Ground, full[..k + 1]) == Escape
    ensures Stripped(full[..k]) == Emit(Ground, full) + if k > 0 && full[k - 1] == ESC then [ESC] else []
    ensures Run(Ground, full[k..]) == Run(Ground, full)
  {
    var text := full[..k];
    var tail := full[k..];
    BeforeEscape(full, k);
    CarryMeaning(tail);
    assert full == text + tail;
    RunAppend(Ground, text, tail);
    ResyncRun(Run(Ground, text), tail);
  }

  // ---------------------------------------------------------------------------------------
  // Many pages
  // ---------------------------------------------------------------------------------------

  /** Strip the pages in order, carrying each cut-off sequence to the next page. */
  function StripPages(pages: seq<seq<byte>>, pending: seq<byte>): StripPageResult {
    if pages == [] then StripPageResult([], pending)
    else
      var first := StripPage(pages[0], pending);
      var rest := StripPages(pages[1..], first.trailing);
      StripPageResult(first.text + rest.text, rest.trailing)
  }

  /** No cut-off sequence is longer than the limit. */
  predicate TailsFit(pages: seq<seq<byte>>, pending: seq<byte>) {
    pages != [] ==>
      && !TailDropped(pending + pages[0])
      && TailsFit(pages[1..], StripPage(pages[0], pending).trailing)
  }

  /** How many pages end in a cut-off sequence that directly follows an ESC. */
  function EscapesBeforeTails(pages: seq<seq<byte>>, pending: seq<byte>): nat {
    if pages == [] then 0
    else
      (if EscBeforeTail(pending + pages[0]) then 1 else 0)
      + EscapesBeforeTails(pages[1..], StripPage(pages[0], pending).trailing)
  }

  /** Reading after carried bytes shows what reading both together shows. */
  lemma AfterCarry(pending: seq<byte>, t: seq<byte>)
    requires IsCarry(pending)
    ensures Emit(Run(Ground, pending), t) == Emit(Ground, pending + t)
    ensures Run(Run(Ground, pending), t) == Run(Ground, pending + t)
  {
    CarryMeaning(pending);
    RunAppend(Ground, pending, t);
    assert [] + Emit(Run(Ground, pending), t) == Emit(Run(Ground, pending), t);
  }

  /** A page after carried bytes, then more: what `RunAppend` says of the three together. */
  lemma PageThenMore(pending: seq<byte>, page: seq<byte>, more: seq<byte>, trailing: seq<byte>)
    requires IsCarry(pending) && Run(Ground, trailing) == Run(Ground, pending + page)
    ensures Emit(Run(Ground, pending), page + more) == Emit(Ground, pending + page) + Emit(Run(Ground, trailing), more)
    ensures Run(Ground, pending + (page + more)) == Run(Ground, trailing + more)
  {
    AfterCarry(pending, page);
    AfterCarry(pending, page + more);
    RunAppend(Run(Ground, pending), page, more);
    RunAppend(Ground, trailing, more);
  }

  /** `r` is the text of `flat` read after `pending`, with `extra` bytes too many, and its tail is in
  the state that reading `flat` leaves. */
  predicate ReadsAs(r: StripPageResult, extra: nat, pending: seq<byte>, flat: seq<byte>) {
    && IsCarry(r.trailing)
    && Run(Ground, r.trailing) == Run(Ground, pending + flat)
    && |r.text| == |Emit(Run(Ground, pending), flat)| + extra
    && (extra == 0 ==> r.text == Emit(Run(Ground, pending), flat))
  }

  lemma ReadsOn(pending: seq<byte>, page: seq<byte>, more: seq<byte>, rest: StripPageResult, extra: nat)
    requires IsCarry(pending) && !TailDropped(pending + page)
    requires ReadsAs(rest, extra, StripPage(page, pending).trailing, more)
    ensures var first := StripPage(page, pending);
            ReadsAs(
              StripPageResult(first.text + rest.text, rest.trailing),
              (if EscBeforeTail(pending + page) then 1 else 0) + extra, pending, page + more)
  {
    var first := StripPage(page, pending);
    PageMeaning(pending + page);
    PageThenMore(pending, page, more, first.trailing);
    assert |first.text + rest.text| == |first.text| + |rest.text|;
  }

  lemma {:induction false} PagesMeaning(pages: seq<seq<byte>>, pending: seq<byte>)
    requires IsCarry(pending) && TailsFit(pages, pending)
    ensures ReadsAs(StripPages(pages, pending), EscapesBeforeTails(pages, pending), pending, Flatten(pages))
  {
    if pages == [] {
      assert pending + Flatten(pages) == pending;
    } else {
      var first := StripPage(pages[0], pending);
      PageMeaning(pending + pages[0]);
      PagesMeaning(pages[1..], first.trailing);
      ReadsOn(pending, pages[0], Flatten(pages[1..]), StripPages(pages[1..], first.trailing),
              EscapesBeforeTails(pages[1..], first.trailing));
    }
  }

  /** Cutting a stream into pages does not change its text: while every cut-off sequence fits, the
  texts of the pages and the stripped last tail together are the text of the whole stream, exactly
  when no cut-off sequence directly follows an ESC byte. Each one that does adds one ESC. */
  lemma PagingKeepsText(pages: seq<seq<byte>>)
    requires TailsFit(pages, [])
    ensures var r := StripPages(pages, []);
            var whole := Stripped(Flatten(pages));
            && |r.text + Stripped(r.trailing)| == |whole| + EscapesBeforeTails(pages, [])
            && (r.text + Stripped(r.trailing) == whole <==> EscapesBeforeTails(pages, []) == 0)
  {
    var r := StripPages(pages, []);
    PagesMeaning(pages, []);
    CarryMeaning(r.trailing);
    assert [] + Flatten(pages) == Flatten(pages);
  }

  lemma LoneEscape()
    ensures Stripped([ESC]) == [ESC] && SequenceLength([ESC]) == None && TrailingStart([ESC]) == Some(0)
  {
    var lone: seq<byte> := [ESC];
    StripStep(lone);
  }

  /** A page of two ESC bytes: the first one is kept as text, the second one is carried. */
  lemma TwoEscapesPage()
    ensures !TailDropped([ESC, ESC]) && StripPageInner([ESC, ESC]) == StripPageResult([ESC], [ESC])
  {
    var page: seq<byte> := [ESC, ESC];
    var rest: seq<byte> := [ESC];
    LoneEscape();
    assert page[1..] == rest && page[..1] == rest;
    assert Intermediates(rest) == 0;
    assert SequenceLength(page) == Some(1);
    assert TrailingStart(page) == Some(1);
  }

  /** A page that completes the carried ESC. */
  lemma EscapeCompleted()
    ensures !TailDropped([ESC, 0x63]) && StripPageInner([ESC, 0x63]) == StripPageResult([], [])
  {
    var page: seq<byte> := [ESC, 0x63];
    var rest: seq<byte> := [0x63];
    assert page[1..] == rest && page[2..] == [] && Intermediates(rest) == 0;
    assert SequenceLength(page) == Some(2);
    assert TrailingStart(page) == None;
    StripStep(page);
  }

  lemma TwoEscapesTogether()
    ensures Stripped([ESC, ESC, 0x63]) == []
  {
    var all: seq<byte> := [ESC, ESC, 0x63];
    var rest: seq<byte> := [ESC, 0x63];
    EscapeCompleted();
    assert TrailingStart(rest) == None;
    assert all[1..] == rest && Intermediates(rest) == 0 && SequenceLength(all) == Some(1);
    StripStep(all);
  }

  /** Two ESC bytes at the end of a page: the page keeps the first one, the whole stream neither. */
  lemma TwoEscapesAtPageEnd()
    ensures var pages := [[ESC, ESC], [0x63]];
            && TailsFit(pages, [])
            && StripPages(pages, []) == StripPageResult([ESC], [])
            && Stripped(Flatten(pages)) == []
  {
    var p0: seq<byte> := [ESC, ESC];
    var p1: seq<byte> := [0x63];
    var carried: seq<byte> := [ESC];
    TwoEscapesPage();
    EscapeCompleted();
    TwoEscapesTogether();
    assert [] + p0 == p0 && carried + p1 == [ESC, 0x63];
    OnePage(p1, carried);
    assert [p0, p1][1..] == [p1];
    assert Flatten([p0, p1]) == [ESC, ESC, 0x63] by {
      assert Flatten([p1]) == p1;
    }
  }

  lemma OnePage(page: seq<byte>, pending: seq<byte>)
    ensures StripPages([page], pending) == StripPage(page, pending)
    ensures TailsFit([page], pending) <==> !TailDropped(pending + page)
  {
    assert [page][1..] == [];
  }

  // ---------------------------------------------------------------------------------------
  // Cut-off sequences that are too long
  // ---------------------------------------------------------------------------------------

  /** A page whose cut-off sequence is dropped shows the automaton's text (and an ESC before that sequence),
  and the pages after it are read as if nothing had come before. */
  lemma DroppedTailStartsAfresh(pages: seq<seq<byte>>, pending: seq<byte>)
    requires pages != [] && TailDropped(pending + pages[0])
    ensures var full := pending + pages[0];
            var after := StripPages(pages[1..], []);
            StripPages(pages, pending)
            == StripPageResult(
                 Emit(Ground, full) + (if EscBeforeTail(full) then [ESC] else []) + after.text, after.trailing)
  {
    PageMeaning(pending + pages[0]);
  }

  /** After ESC `[`: bytes of which one is outside the grammar of control sequences. */
  predicate IsMalformedCsi(body: seq<byte>) {
    CsiLength(CsiParam, body) == None && Run(CsiParam, body) == CsiBad
  }

  lemma MalformedCsiHasNoText(body: seq<byte>, more: seq<byte>)
    requires IsMalformedCsi(body)
    ensures Stripped([ESC, 0x5B] + body + more) == []
  {
    var tail := body + more;
    CsiLengthMeaning(CsiParam, body);
    StuckCsi(more);
    RunAppend(CsiParam, body, more);
    assert [ESC, 0x5B] + body + more == [ESC] + ([0x5B] + tail);
    RunAppend(Ground, [ESC], [0x5B] + tail);
    RunAppend(Escape, [0x5B], tail);
  }

  lemma OversizedCsiPage(body: seq<byte>)
    requires IsMalformedCsi(body) && 2 + |body| > 8192
    ensures StripPageInner([ESC, 0x5B] + body) == StripPageResult([], [])
  {
    var page := [ESC, 0x5B] + body;
    assert page[2..] == body && page[..0] == [];
    assert TrailingStart(page) == Some(0);
  }

  /** The whole stream never comes back from a malformed control sequence; page by page it does, as soon as
  the sequence has outgrown the limit: from then on the pages are read as if it had not been there. */
  lemma {:induction false} MalformedCsiIsGivenUp(body: seq<byte>, more: seq<seq<byte>>)
    requires IsMalformedCsi(body)
    ensures Stripped([ESC, 0x5B] + body + Flatten(more)) == []
    ensures 2 + |body| > 8192 ==>
              StripPages([[ESC, 0x5B] + body] + more, []) == StripPages(more, [])
  {
    MalformedCsiHasNoText(body, Flatten(more));
    if 2 + |body| > 8192 {
      var page := [ESC, 0x5B] + body;
      OversizedCsiPage(body);
      assert [] + page == page;
      assert ([page] + more)[1..] == more;
      assert [] + StripPages(more, []).text == StripPages(more, []).text;
    }
  }

  predicate IsOscBody(body: seq<byte>) {
    forall i :: 0 <= i < |body| ==> body[i] != BEL && body[i] != ESC
  }

  lemma {:induction false} UnterminatedOsc(s: seq<byte>)
    requires IsOscBody(s)
    ensures StringLength(s, true) == None
  {
    if s != [] {
      UnterminatedOsc(s[1..]);
    }
  }

  lemma TerminatedOscHasNoText(body: seq<byte>)
    requires IsOscBody(body)
    ensures Stripped([ESC, 0x5D] + body + [BEL]) == []
  {
    var tail := body + [BEL];
    UnterminatedOsc(body);
    OscLengthMeaning(body);
    RunAppend(Osc, body, [BEL]);
    assert [ESC, 0x5D] + body + [BEL] == [ESC] + ([0x5D] + tail);
    RunAppend(Ground, [ESC], [0x5D] + tail);
    RunAppend(Escape, [0x5D], tail);
  }

  lemma OversizedOscPage(body: seq<byte>)
    requires IsOscBody(body) && 2 + |body| > 8192
    ensures StripPageInner([ESC, 0x5D] + body) == StripPageResult([], [])
  {
    var page := [ESC, 0x5D] + body;
    assert page[2..] == body && page[..0] == [];
    UnterminatedOsc(body);
    assert TrailingStart(page) == Some(0);
  }

  /** An OSC that outgrows the limit is given up: its terminator on the next page becomes text,
  although the whole stream has no text. */
  lemma OversizedTailLeaksItsEnd(body: seq<byte>)
    requires IsOscBody(body) && 2 + |body| > 8192
    ensures var pages := [[ESC, 0x5D] + body, [BEL]];
            && StripPages(pages, []) == StripPageResult([BEL], [])
            && Stripped(Flatten(pages)) == []
  {
    var p0 := [ESC, 0x5D] + body;
    var p1: seq<byte> := [BEL];
    OversizedOscPage(body);
    TerminatedOscHasNoText(body);
    assert [] + p0 == p0 && [] + p1 == p1;
    BellIsText();
    OnePage(p1, []);
    assert [p0, p1][1..] == [p1];
    assert Flatten([p0, p1]) == p0 + p1 by {
      assert Flatten([p1]) == p1;
    }
  }

  lemma BellIsText()
    ensures StripPageInner([BEL]) == StripPageResult([BEL], [])
  {
    var page: seq<byte> := [BEL];
    assert page[1..] == [];
    assert TrailingStart(page) == None;
    StripStep(page);
  }
}
