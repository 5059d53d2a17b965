/** Lexical normalisation of remote paths (src/application/path_policy.rs). */
module PathPolicy {
  import opened Lines

  const SLASH: char := '/'

  type Segments = seq<string>

  predicate StartsWith(s: string, c: char) {
    s != [] && s[0] == c
  }

  predicate EndsWith(s: string, c: char) {
    s != [] && s[|s| - 1] == c
  }

  predicate Rooted(path: string) {
    StartsWith(path, SLASH) || StartsWith(path, '~')
  }

  /** A segment that names something: not empty, not `.` or `..`, and without a slash in it. */
  predicate IsName(seg: string) {
    seg != "" && seg != "." && seg != ".." && SLASH !in seg
  }

  predicate AllNames(segs: Segments) {
    forall i :: 0 <= i < |segs| ==> IsName(segs[i])
  }

  // ---------------------------------------------------------------------------------------
  // The program's algorithm
  // ---------------------------------------------------------------------------------------

  /** What the loop does with one segment. */
  function Advance(rooted: bool, stack: Segments, seg: string): Segments {
    if seg == "" || seg == "." then stack
    else if seg == ".." then
      if rooted then Pop(stack)
      else if stack == [] || stack[|stack| - 1] == ".." then stack + [".."]
      else Pop(stack)
    else stack + [seg]
  }

  function Pop(stack: Segments): Segments {
    if stack == [] then [] else stack[..|stack| - 1]
  }

  function Walk(rooted: bool, stack: Segments, segs: Segments): Segments {
    if segs == [] then stack else Advance(rooted, Walk(rooted, stack, segs[..|segs| - 1]), segs[|segs| - 1])
  }

  /** The path without a leading `~` and the slash behind it. */
  function Body(path: string): string {
    if !StartsWith(path, '~') then path
    else if StartsWith(path[1..], SLASH) then path[2..]
    else path[1..]
  }

  function FirstSegments(path: string): Segments {
    if StartsWith(path, '~') then ["~"] else []
  }

  function Kept(path: string): Segments {
    Walk(Rooted(path), FirstSegments(path), Split(Body(path), SLASH))
  }

  function Render(rooted: bool, segs: Segments, trailing: bool): string {
    var out := (if rooted then "/" else "") + Join(segs, SLASH);
    if trailing && !EndsWith(out, SLASH) then out + "/" else out
  }

  function Normalize(path: string): string {
    Render(Rooted(path), Kept(path), EndsWith(path, SLASH))
  }

  method NormalizeRemotePathLexical(path: string) returns (out: string)
    ensures out == Normalize(path)
  {
    var rooted := StartsWith(path, SLASH) || StartsWith(path, '~');
    var trailing := EndsWith(path, SLASH);
    var body := path;
    var segments: Segments := [];
    if StartsWith(path, '~') {
      body := path[1..];
      if StartsWith(body, SLASH) {
        body := body[1..];
      }
      segments := ["~"];
    }
    var pieces := Split(body, SLASH);
    segments := WalkPieces(rooted, segments, pieces);
    out := (if rooted then "/" else "") + Join(segments, SLASH);
    if trailing && !EndsWith(out, SLASH) {
      out := out + "/";
    }
  }

  /** The loop over the pieces between slashes. */
  method WalkPieces(rooted: bool, first: Segments, pieces: Segments) returns (segments: Segments)
    ensures segments == Walk(rooted, first, pieces)
  {
    segments := first;
    var i := 0;
    while i < |pieces|
      invariant 0 <= i <= |pieces|
      invariant segments == Walk(rooted, first, pieces[..i])
    {
      var seg := pieces[i];
      assert pieces[..i + 1][..i] == pieces[..i];
      if seg == "" || seg == "." {
      } else if seg == ".." {
        if rooted {
          if segments != [] {
            segments := segments[..|segments| - 1];
          }
        } else if segments == [] || segments[|segments| - 1] == ".." {
          segments := segments + [".."];
        } else {
          segments := segments[..|segments| - 1];
        }
      } else {
        segments := segments + [seg];
      }
      i := i + 1;
    }
    assert pieces[..i] == pieces;
  }

  // ---------------------------------------------------------------------------------------
  // The reference: cancel from the right
  // ---------------------------------------------------------------------------------------

  /** A name survives unless a later `..` takes it away; `up` counts those that still have to. What is
  left of them at the start of the path stays at the root, or leads a relative path. */
  function Cancel(rooted: bool, segs: Segments, up: nat): Segments {
    if segs == [] then Climb(rooted, up)
    else
      var before, last := segs[..|segs| - 1], segs[|segs| - 1];
      if last == "" || last == "." then Cancel(rooted, before, up)
      else if last == ".." then Cancel(rooted, before, up + 1)
      else if up > 0 then Cancel(rooted, before, up - 1)
      else Cancel(rooted, before, 0) + [last]
  }

  function Climb(rooted: bool, up: nat): Segments {
    if rooted || up == 0 then [] else Climb(rooted, up - 1) + [".."]
  }

  /** The stack after `up` times `..`. */
  function GoUp(rooted: bool, stack: Segments, up: nat): Segments
    decreases up
  {
    if up == 0 then stack else GoUp(rooted, Advance(rooted, stack, ".."), up - 1)
  }

  lemma {:induction false} GoUpFromStart(rooted: bool, k: nat, up: nat)
    ensures GoUp(rooted, Climb(rooted, k), up) == Climb(rooted, k + up)
    decreases up
  {
    if up > 0 {
      GoUpFromStart(rooted, k + 1, up - 1);
    }
  }

  lemma {:induction false} WalkCancels(rooted: bool, segs: Segments, up: nat)
    ensures Cancel(rooted, segs, up) == GoUp(rooted, Walk(rooted, [], segs), up)
  {
    if segs == [] {
      GoUpFromStart(rooted, 0, up);
    } else {
      var before, last := segs[..|segs| - 1], segs[|segs| - 1];
      var stack := Walk(rooted, [], before);
      if last == "" || last == "." {
        WalkCancels(rooted, before, up);
      } else if last == ".." {
        WalkCancels(rooted, before, up + 1);
      } else if up > 0 {
        WalkCancels(rooted, before, up - 1);
        assert Advance(rooted, stack + [last], "..") == stack;
      } else {
        WalkCancels(rooted, before, 0);
      }
    }
  }

  lemma {:induction false} WalkFrom(rooted: bool, first: Segments, segs: Segments)
    requires AllNames(first)
    ensures Walk(rooted, first, segs) == Walk(rooted, [], first + segs)
  {
    if segs != [] {
      var before := segs[..|segs| - 1];
      WalkFrom(rooted, first, before);
      assert (first + segs)[..|first + segs| - 1] == first + before;
    } else {
      assert first + segs == first;
      NamesWalkToThemselves(rooted, first);
    }
  }

  lemma {:induction false} NamesWalkToThemselves(rooted: bool, segs: Segments)
    requires AllNames(segs)
    ensures Walk(rooted, [], segs) == segs
  {
    if segs != [] {
      NamesWalkToThemselves(rooted, segs[..|segs| - 1]);
    }
  }

  /** The path's own segments, a leading `~` being the name of the first. */
  function SegmentsOf(path: string): Segments {
    FirstSegments(path) + Split(Body(path), SLASH)
  }

  lemma {:induction false} CancelNames(segs: Segments, up: nat)
    requires forall i :: 0 <= i < |segs| ==> SLASH !in segs[i]
    ensures AllNames(Cancel(true, segs, up))
  {
    if segs != [] {
      var before := segs[..|segs| - 1];
      CancelNames(before, up);
      CancelNames(before, up + 1);
      if up > 0 {
        CancelNames(before, up - 1);
      }
    }
  }

  /** A path that starts with `/` or `~` becomes a canonical rooted one: a slash, then the names that no
  later `..` cancels, clamped at the root; a trailing slash is kept. */
  lemma RootedPathsAreCanonical(path: string)
    requires Rooted(path)
    ensures Kept(path) == Cancel(true, SegmentsOf(path), 0)
    ensures AllNames(Kept(path))
    ensures Normalize(path) == Render(true, Cancel(true, SegmentsOf(path), 0), EndsWith(path, SLASH))
  {
    var segs := SegmentsOf(path);
    assert AllNames(FirstSegments(path)) by {
      assert "~"[0] == '~' && |"~"| == 1;
    }
    WalkFrom(true, FirstSegments(path), Split(Body(path), SLASH));
    WalkCancels(true, segs, 0);
    PiecesHaveNoSeparator(Body(path), SLASH);
    CancelNames(segs, 0);
  }

  /** `~` is a name under the root: `~/r` is `/~/r`, and `~user` is `/~/user`. */
  lemma TildeIsAName(r: string)
    ensures Normalize("~/" + r) == Normalize("/~/" + r)
    ensures !StartsWith(r, SLASH) && r != "" ==> Normalize("~" + r) == Normalize("/~/" + r)
    ensures Normalize("~") == Normalize("/~")
  {
    SlashedTilde(r);
    if !StartsWith(r, SLASH) && r != "" {
      BareTilde(r);
    }
    HomeKept();
  }

  lemma SlashedTilde(r: string)
    ensures Normalize("~/" + r) == Normalize("/~/" + r)
  {
    assert ("~/" + r)[2..] == r;
    TildeKept(r, "~/" + r);
  }

  lemma BareTilde(r: string)
    requires !StartsWith(r, SLASH) && r != ""
    ensures Normalize("~" + r) == Normalize("/~/" + r)
  {
    assert ("~" + r)[1..] == r;
    TildeKept(r, "~" + r);
  }

  lemma KeptUnderTilde(r: string)
    ensures Kept("/~/" + r) == Walk(true, [], ["", "~"] + Split(r, SLASH))
  {
    SplitTilde(r);
  }

  lemma WalkUnderTilde(pieces: Segments)
    ensures Walk(true, ["~"], pieces) == Walk(true, [], ["", "~"] + pieces)
  {
    var tilde: Segments := ["~"];
    WalkFrom(true, tilde, pieces);
    WalkIgnoresBlank(true, tilde + pieces);
    assert ["", "~"] + pieces == [""] + (tilde + pieces);
  }

  lemma TildeKept(r: string, home: string)
    requires StartsWith(home, '~') && Body(home) == r
    ensures Kept(home) == Kept("/~/" + r)
  {
    KeptUnderTilde(r);
    WalkUnderTilde(Split(r, SLASH));
  }

  lemma HomeKept()
    ensures Normalize("~") == Normalize("/~")
  {
    var blank, home: string := "", "~";
    SplitOnePiece(home, SLASH);
    SplitAppend(blank, home, SLASH);
    assert Split(blank, SLASH) == [blank];
    assert blank + [SLASH] + home == "/~";
    assert [blank] + [home] == ["", "~"];
    assert Split("/~", SLASH) == ["", "~"];
    assert Body(home) == "";
    var all: Segments := ["", "~"];
    assert all[..1] == [blank] && [blank][..0] == [];
    assert Kept("/~") == ["~"];
    assert Kept(home) == ["~"];
  }

  lemma SplitTilde(r: string)
    ensures Split("/~/" + r, SLASH) == ["", "~"] + Split(r, SLASH)
  {
    var blank, tilde: string := "", "~";
    SplitOnePiece(tilde, SLASH);
    SplitAppend(tilde, r, SLASH);
    SplitAppend(blank, tilde + [SLASH] + r, SLASH);
    assert Split(blank, SLASH) == [blank];
    assert blank + [SLASH] + (tilde + [SLASH] + r) == "/~/" + r;
    assert [blank] + ([tilde] + Split(r, SLASH)) == ["", "~"] + Split(r, SLASH);
  }

  /** One segment more at the end of a path, whatever the path before it: nothing for a blank one or a dot, one
  name less for two dots (or, in a relative path with no name to take back, two dots more), and the name
  itself otherwise. */
  lemma OneSegmentMore(path: string, seg: string)
    requires path != "" && path != "~" && SLASH !in seg
    ensures var before, after := Kept(path), Kept(path + "/" + seg);
            if seg == "" || seg == "." then after == before
            else if seg != ".." then after == before + [seg]
            else if before != [] && before[|before| - 1] != ".." then after == before[..|before| - 1]
            else after == if Rooted(path) then [] else before + [".."]
  {
    var longer := path + "/" + seg;
    BodyGrows(path, seg);
    SplitAppend(Body(path), seg, SLASH);
    SplitOnePiece(seg, SLASH);
    var pieces := Split(Body(path), SLASH);
    assert Split(Body(longer), SLASH) == pieces + [seg];
    assert (pieces + [seg])[..|pieces|] == pieces;
    assert Kept(longer) == Advance(Rooted(path), Kept(path), seg);
    if Rooted(path) {
      RootedPathsAreCanonical(path);
    }
  }

  lemma BodyGrows(path: string, seg: string)
    requires path != "" && path != "~"
    ensures Body(path + "/" + seg) == Body(path) + [SLASH] + seg
    ensures Rooted(path + "/" + seg) == Rooted(path) && FirstSegments(path + "/" + seg) == FirstSegments(path)
  {
    var longer := path + "/" + seg;
    assert longer[0] == path[0];
    if StartsWith(path, '~') {
      assert longer[1..] == path[1..] + "/" + seg;
      assert path[1..] != "" && longer[1] == path[1];
      if path[1] == SLASH {
        assert longer[2..] == path[2..] + "/" + seg;
      }
    }
  }

  /** How a path is written: the names between slashes, one more slash in front of a rooted one, and one at the
  end when the original had one there. */
  lemma RenderMeaning(rooted: bool, segs: Segments, trailing: bool)
    requires AllSegments(segs)
    ensures segs == [] ==> Render(rooted, segs, trailing) == if rooted || trailing then "/" else ""
    ensures segs != [] ==>
              Render(rooted, segs, trailing)
              == (if rooted then "/" else "") + Join(segs, SLASH) + (if trailing then "/" else "")
  {
    if segs != [] {
      JoinEnds(segs);
      assert !EndsWith((if rooted then "/" else "") + Join(segs, SLASH), SLASH);
    }
  }

  // ---------------------------------------------------------------------------------------
  // Normalising twice
  // ---------------------------------------------------------------------------------------

  lemma {:induction false} SplitJoin(segs: Segments)
    requires segs != [] && forall i :: 0 <= i < |segs| ==> SLASH !in segs[i]
    ensures Split(Join(segs, SLASH), SLASH) == segs
  {
    SplitOnePiece(segs[0], SLASH);
    if |segs| > 1 {
      SplitJoin(segs[1..]);
      SplitAppend(segs[0], Join(segs[1..], SLASH), SLASH);
    }
  }

  lemma {:induction false} JoinEnds(segs: Segments)
    requires segs != [] && AllSegments(segs)
    ensures Join(segs, SLASH) != [] && Join(segs, SLASH)[0] == segs[0][0]
    ensures !EndsWith(Join(segs, SLASH), SLASH)
  {
    if |segs| > 1 {
      JoinEnds(segs[1..]);
    } else {
      assert segs[0][|segs[0]| - 1] in segs[0];
    }
  }

  /** Segments a normalised path may consist of: names, and `..` in a relative one. */
  predicate AllSegments(segs: Segments) {
    forall i :: 0 <= i < |segs| ==> segs[i] == ".." || IsName(segs[i])
  }

  /** Leading `..` only. */
  predicate IsRelative(segs: Segments) {
    AllSegments(segs) && forall i :: 0 < i < |segs| && segs[i] == ".." ==> segs[i - 1] == ".."
  }

  lemma {:induction false} WalkIsRelative(segs: Segments)
    requires forall i :: 0 <= i < |segs| ==> SLASH !in segs[i]
    ensures IsRelative(Walk(false, [], segs))
  {
    if segs != [] {
      WalkIsRelative(segs[..|segs| - 1]);
    }
  }

  lemma {:induction false} RelativeWalksToItself(segs: Segments)
    requires IsRelative(segs)
    ensures Walk(false, [], segs) == segs
  {
    if segs != [] {
      RelativeWalksToItself(segs[..|segs| - 1]);
    }
  }

  lemma {:induction false} WalkIgnoresBlank(rooted: bool, segs: Segments)
    ensures Walk(rooted, [], segs + [""]) == Walk(rooted, [], segs)
    ensures Walk(rooted, [], [""] + segs) == Walk(rooted, [], segs)
  {
    assert (segs + [""])[..|segs|] == segs;
    if segs == [] {
      assert [""] + segs == [""] && [""][..0] == [];
    } else {
      WalkIgnoresBlank(rooted, segs[..|segs| - 1]);
      assert ([""] + segs)[..|segs|] == [""] + segs[..|segs| - 1];
    }
  }

  lemma JoinedSplitsBack(segs: Segments)
    requires segs != [] && AllSegments(segs)
    ensures Split(Join(segs, SLASH), SLASH) == segs
  {
    assert forall i :: 0 <= i < |segs| ==> SLASH !in segs[i] by {
      assert SLASH !in "..";
    }
    SplitJoin(segs);
  }

  lemma SplitRenderedRooted(segs: Segments, trailing: bool)
    requires segs != [] && AllSegments(segs)
    ensures var out := Render(true, segs, trailing);
            && Split(out, SLASH) == [""] + segs + (if trailing then [""] else [])
            && EndsWith(out, SLASH) == trailing
            && out[0] == SLASH
  {
    var joined := Join(segs, SLASH);
    JoinEnds(segs);
    JoinedSplitsBack(segs);
    SplitWithOuterSlashes(joined);
    assert !EndsWith("/" + joined, SLASH);
    assert Render(true, segs, trailing) == if trailing then "/" + joined + "/" else "/" + joined;
    assert [""] + segs + [] == [""] + segs;
  }

  lemma SplitRenderedRelative(segs: Segments, trailing: bool)
    requires segs != [] && AllSegments(segs)
    ensures var out := Render(false, segs, trailing);
            && Split(out, SLASH) == segs + (if trailing then [""] else [])
            && EndsWith(out, SLASH) == trailing
            && out[0] == segs[0][0]
  {
    var joined := Join(segs, SLASH);
    JoinEnds(segs);
    JoinedSplitsBack(segs);
    SplitWithOuterSlashes(joined);
    assert "" + joined == joined;
    assert Render(false, segs, trailing) == if trailing then joined + "/" else joined;
    assert segs + [] == segs;
  }

  lemma SplitWithOuterSlashes(s: string)
    ensures Split(s + "/", SLASH) == Split(s, SLASH) + [""]
    ensures Split("/" + s, SLASH) == [""] + Split(s, SLASH)
    ensures Split("/" + s + "/", SLASH) == [""] + Split(s, SLASH) + [""]
  {
    var blank: string := "";
    assert Split(blank, SLASH) == [blank];
    SplitAppend(s, blank, SLASH);
    assert s + [SLASH] + blank == s + "/";
    SplitAppend(blank, s, SLASH);
    assert blank + [SLASH] + s == "/" + s;
    SplitAppend(blank, s + "/", SLASH);
    assert blank + [SLASH] + (s + "/") == "/" + s + "/";
  }

  lemma RootIsFixed()
    ensures Normalize("/") == "/"
  {
    var none: Segments := [];
    SplitRoot();
    assert [""] + none + [""] == ["", ""];
    WalkIgnoresOuterBlanks(none, true);
    assert Kept("/") == none;
  }

  lemma SplitRoot()
    ensures Split("/", SLASH) == ["", ""]
  {
    var blank: string := "";
    assert blank + [SLASH] + blank == "/";
    SplitAppend(blank, blank, SLASH);
  }

  lemma WalkIgnoresOuterBlanks(segs: Segments, trailing: bool)
    requires AllNames(segs)
    ensures Walk(true, [], [""] + segs + (if trailing then [""] else [])) == segs
  {
    NamesWalkToThemselves(true, segs);
    WalkIgnoresBlank(true, segs);
    WalkIgnoresBlank(true, segs + [""]);
    assert [""] + segs + [""] == [""] + (segs + [""]);
    assert [""] + segs + [] == [""] + segs;
  }

  lemma RenderedRootIsFixed(segs: Segments, trailing: bool)
    requires AllNames(segs)
    ensures Normalize(Render(true, segs, trailing)) == Render(true, segs, trailing)
  {
    if segs == [] {
      RootIsFixed();
      assert Render(true, segs, trailing) == "/";
    } else {
      SplitRenderedRooted(segs, trailing);
      WalkIgnoresOuterBlanks(segs, trailing);
    }
  }

  /** For paths that start with `/` or `~`, normalising twice is normalising once. */
  lemma RootedIsIdempotent(path: string)
    requires Rooted(path)
    ensures Normalize(Normalize(path)) == Normalize(path)
  {
    RootedPathsAreCanonical(path);
    RenderedRootIsFixed(Kept(path), EndsWith(path, SLASH));
  }

  // ---------------------------------------------------------------------------------------
  // Being under a root
  // ---------------------------------------------------------------------------------------

  function TrimSlashes(s: string): string {
    if EndsWith(s, SLASH) then TrimSlashes(s[..|s| - 1]) else s
  }

  /** `is_under_remote`: the root itself, or what starts with the root and a slash. */
  predicate IsUnderRemote(canonical: string, root: string) {
    var trimmed := TrimSlashes(root);
    var top := if trimmed == "" then "/" else trimmed;
    canonical == top || (if top == "/" then "/" else top + "/") <= canonical
  }

  /** Each segment with a slash behind it. */
  function Slashed(segs: Segments): string {
    if segs == [] then "" else segs[0] + "/" + Slashed(segs[1..])
  }

  lemma {:induction false} JoinSlashed(segs: Segments)
    requires segs != []
    ensures Join(segs, SLASH) + "/" == Slashed(segs)
  {
    if |segs| > 1 {
      JoinSlashed(segs[1..]);
      assert Join(segs, SLASH) + "/" == segs[0] + "/" + (Join(segs[1..], SLASH) + "/");
    } else {
      assert Slashed(segs[1..]) == "";
    }
  }

  /** Two texts that agree up to their first slashes have the same first segment. */
  lemma FirstSlash(a: string, b: string, x: string, y: string)
    requires SLASH !in a && SLASH !in b
    requires a + "/" + x <= b + "/" + y
    ensures a == b && x <= y
  {
    var p, q := a + "/" + x, b + "/" + y;
    SlashComesFirst(a, x);
    SlashComesFirst(b, y);
    assert p[|a|] == q[|a|];
    assert |b| < |p| ==> p[|b|] == q[|b|];
    assert |a| == |b|;
    assert a == p[..|a|] == q[..|a|] == b;
    assert x == p[|a| + 1..] && y == q[|a| + 1..];
  }

  lemma SlashComesFirst(a: string, x: string)
    requires SLASH !in a
    ensures var p := a + "/" + x;
            p[|a|] == SLASH && forall i :: 0 <= i < |a| ==> p[i] != SLASH
  {
    var p := a + "/" + x;
    forall i | 0 <= i < |a|
      ensures p[i] != SLASH
    {
      assert p[i] == a[i] && a[i] in a;
    }
  }

  /** Text prefixes of slashed segments are segment prefixes. */
  lemma {:induction false} SlashedPrefix(rs: Segments, cs: Segments)
    requires AllNames(rs) && AllNames(cs)
    ensures Slashed(rs) <= Slashed(cs) <==> rs <= cs
  {
    if rs == [] {
    } else if cs == [] {
      assert |Slashed(rs)| > 0;
    } else {
      SlashedPrefix(rs[1..], cs[1..]);
      if Slashed(rs) <= Slashed(cs) {
        FirstSlash(rs[0], cs[0], Slashed(rs[1..]), Slashed(cs[1..]));
        assert rs == [rs[0]] + rs[1..] && cs == [cs[0]] + cs[1..];
      }
      if rs <= cs {
        assert rs[1..] <= cs[1..];
        assert Slashed(cs) == rs[0] + "/" + Slashed(cs[1..]);
        PrefixUnder(rs[0] + "/", Slashed(rs[1..]), Slashed(cs[1..]));
      }
    }
  }

  lemma PrefixUnder(a: string, x: string, y: string)
    requires x <= y
    ensures a + x <= a + y
  {
  }

  lemma PrefixCancels(a: string, x: string, y: string)
    ensures a + x <= a + y <==> x <= y
  {
    if a + x <= a + y {
      assert x == (a + x)[|a|..] && y == (a + y)[|a|..];
    }
  }

  /** A canonical path with a slash behind it, if there is none yet. */
  lemma RenderSlashed(segs: Segments, trailing: bool)
    requires AllNames(segs)
    ensures var out := Render(true, segs, trailing);
            && (segs == [] || trailing ==> out == "/" + Slashed(segs))
            && (segs != [] && !trailing ==> out + "/" == "/" + Slashed(segs) && !EndsWith(out, SLASH))
  {
    if segs != [] {
      JoinEnds(segs);
      JoinSlashed(segs);
      var joined := Join(segs, SLASH);
      assert !EndsWith("/" + joined, SLASH);
      assert ("/" + joined) + "/" == "/" + (joined + "/");
    }
  }

  lemma TrimRendered(segs: Segments, trailing: bool)
    requires AllNames(segs)
    ensures TrimSlashes(Render(true, segs, trailing)) == if segs == [] then "" else Render(true, segs, false)
  {
    RenderSlashed(segs, trailing);
    RenderSlashed(segs, false);
    if segs == [] {
      assert "/"[..0] == "";
    } else if trailing {
      var out := Render(true, segs, true);
      assert out == Render(true, segs, false) + "/";
      assert out[..|out| - 1] == Render(true, segs, false);
    }
  }

  /** For canonical paths, being under a root is a matter of whole segments: never of a shared beginning
  of a name. */
  lemma UnderRemoteMeansSegments(cs: Segments, rs: Segments, trailing: bool, rootTrailing: bool)
    requires AllNames(cs) && AllNames(rs)
    ensures IsUnderRemote(Render(true, cs, trailing), Render(true, rs, rootTrailing)) <==> rs <= cs
  {
    var canonical := Render(true, cs, trailing);
    TrimRendered(rs, rootTrailing);
    RenderSlashed(cs, trailing);
    RenderSlashed(rs, false);
    SlashedPrefix(rs, cs);
    SlashedPrefix(cs, rs);
    PrefixCancels("/", Slashed(rs), Slashed(cs));
    if rs != [] {
      var top := Render(true, rs, false);
      assert top + "/" == "/" + Slashed(rs);
      UnderNonRoot(canonical, top, cs, rs, trailing);
    }
  }

  lemma UnderNonRoot(canonical: string, top: string, cs: Segments, rs: Segments, trailing: bool)
    requires AllNames(cs) && AllNames(rs) && rs != []
    requires canonical == Render(true, cs, trailing) && top + "/" == "/" + Slashed(rs)
    requires ("/" + Slashed(rs) <= "/" + Slashed(cs)) <==> rs <= cs
    ensures canonical == top || top + "/" <= canonical <==> rs <= cs
  {
    RenderSlashed(cs, trailing);
    var full := "/" + Slashed(cs);
    if cs == [] || trailing {
      assert canonical == full;
      if canonical == top {
        assert EndsWith(canonical, SLASH) by {
          assert cs == [] || EndsWith(canonical, SLASH);
        }
        NotSlashed(rs, top);
      }
    } else {
      assert canonical + "/" == full;
      SlashPrefix(top, canonical);
    }
  }

  lemma SlashPrefix(top: string, canonical: string)
    ensures top + "/" <= canonical + "/" <==> top == canonical || top + "/" <= canonical
  {
    var p, q := top + "/", canonical + "/";
    if p <= q && |top| == |canonical| {
      assert top == p[..|top|] == q[..|top|] == canonical;
    }
  }

  lemma NotSlashed(rs: Segments, top: string)
    requires AllNames(rs) && rs != [] && top + "/" == "/" + Slashed(rs)
    ensures !EndsWith(top, SLASH)
  {
    RenderSlashed(rs, false);
    var out := Render(true, rs, false);
    assert top == (top + "/")[..|top|] == (out + "/")[..|out|] == out;
  }

  /** Whatever a rooted path looks like, after normalising it is under a canonical root exactly when its
  uncancelled segments begin with the root's. */
  lemma NormalizedUnderRemote(path: string, rs: Segments, rootTrailing: bool)
    requires Rooted(path) && AllNames(rs)
    ensures IsUnderRemote(Normalize(path), Render(true, rs, rootTrailing)) <==> rs <= Cancel(true, SegmentsOf(path), 0)
  {
    RootedPathsAreCanonical(path);
    UnderRemoteMeansSegments(Kept(path), rs, EndsWith(path, SLASH), rootTrailing);
  }
}
