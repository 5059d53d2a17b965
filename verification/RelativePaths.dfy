/** Lexical normalisation of relative paths (src/application/path_policy.rs). */
module RelativePaths {
  // What they keep, and where they stop being relative. The conditions count names and `..` in the path
  // as it was given.

  import opened Lines
  import opened PathPolicy

  /** A relative path keeps the names that no later `..` cancels, behind the `..` that cancel nothing. */
  lemma RelativePathsKeepTheirClimb(path: string)
    requires !Rooted(path)
    ensures Kept(path) == Cancel(false, Split(path, SLASH), 0)
    ensures IsRelative(Kept(path))
  {
    WalkCancels(false, Split(path, SLASH), 0);
    PiecesHaveNoSeparator(path, SLASH);
    WalkIsRelative(Split(path, SLASH));
  }

  // ---------------------------------------------------------------------------------------
  // Counting
  // ---------------------------------------------------------------------------------------

  function Weight(seg: string): int {
    if seg == "" || seg == "." then 0 else if seg == ".." then -1 else 1
  }

  /** How many more names than `..` there are. */
  function Depth(segs: Segments): int {
    if segs == [] then 0 else Depth(segs[..|segs| - 1]) + Weight(segs[|segs| - 1])
  }

  /** No beginning has more `..` than names. */
  predicate StaysBelow(segs: Segments) {
    segs == [] || (StaysBelow(segs[..|segs| - 1]) && Depth(segs) >= 0)
  }

  /** The path ends where it starts, and never was above that. */
  predicate ComesBack(segs: Segments) {
    StaysBelow(segs) && Depth(segs) == 0
  }

  /** Segment `i` is the last one at which the path is where it started. */
  predicate LeavesAt(segs: Segments, i: nat) {
    && i < |segs|
    && ComesBack(segs[..i])
    && forall j :: i < j <= |segs| ==> Depth(segs[..j]) > 0
  }

  lemma {:induction false} WalkShape(segs: Segments)
    ensures var stack := Walk(false, [], segs);
            if StaysBelow(segs) then |stack| == Depth(segs) && ".." !in stack else stack != [] && stack[0] == ".."
  {
    if segs != [] {
      WalkShape(segs[..|segs| - 1]);
    }
  }

  lemma LeavesBefore(segs: Segments, i: nat)
    requires LeavesAt(segs, i) && i < |segs| - 1
    ensures LeavesAt(segs[..|segs| - 1], i)
  {
    var before := segs[..|segs| - 1];
    assert before[..i] == segs[..i];
    assert forall j :: i < j <= |before| ==> before[..j] == segs[..j];
  }

  lemma {:induction false} FirstKept(segs: Segments, i: nat)
    requires LeavesAt(segs, i)
    ensures StaysBelow(segs) && Depth(segs) > 0
    ensures Walk(false, [], segs) != [] && Walk(false, [], segs)[0] == segs[i]
  {
    var before := segs[..|segs| - 1];
    assert segs[..|segs|] == segs;
    WalkShape(before);
    if i < |segs| - 1 {
      LeavesBefore(segs, i);
      FirstKept(before, i);
    }
  }

  lemma {:induction false} LeavesAfter(segs: Segments, i: nat)
    requires segs != [] && LeavesAt(segs[..|segs| - 1], i) && Depth(segs) > 0
    ensures LeavesAt(segs, i)
  {
    var before := segs[..|segs| - 1];
    assert before[..i] == segs[..i];
    forall j | i < j <= |segs|
      ensures Depth(segs[..j]) > 0
    {
      if j == |segs| {
        assert segs[..j] == segs;
      } else {
        assert segs[..j] == before[..j];
      }
    }
  }

  lemma {:induction false} FindLeave(segs: Segments) returns (i: nat)
    requires StaysBelow(segs) && Depth(segs) > 0
    ensures LeavesAt(segs, i)
  {
    var before := segs[..|segs| - 1];
    if Depth(before) == 0 {
      i := |segs| - 1;
      assert segs[..|segs|] == segs;
    } else {
      i := FindLeave(before);
      LeavesAfter(segs, i);
    }
  }

  /** The first segment a relative path keeps, by counting: nothing when it comes back, a `..` when it climbs
  out, and otherwise the one with which it leaves for good. */
  lemma KeptByCounting(path: string)
    requires !Rooted(path)
    ensures var segs := Split(path, SLASH);
            && (Kept(path) == [] <==> ComesBack(segs))
            && (Kept(path) != [] && Kept(path)[0] == ".." <==> !StaysBelow(segs))
            && (forall i: nat :: LeavesAt(segs, i) ==> Kept(path) != [] && Kept(path)[0] == segs[i])
            && (StaysBelow(segs) && Depth(segs) > 0 ==> exists i: nat :: LeavesAt(segs, i))
  {
    var segs := Split(path, SLASH);
    WalkShape(segs);
    forall i: nat | LeavesAt(segs, i)
      ensures Kept(path) != [] && Kept(path)[0] == segs[i]
    {
      FirstKept(segs, i);
    }
    if StaysBelow(segs) && Depth(segs) > 0 {
      var i := FindLeave(segs);
    }
  }

  // ---------------------------------------------------------------------------------------
  // Normalising twice
  // ---------------------------------------------------------------------------------------

  /** A relative path leaves for good with a segment that starts with `~`. */
  predicate TildeSurfaces(path: string) {
    var segs := Split(path, SLASH);
    !Rooted(path) && exists i :: 0 <= i < |segs| && LeavesAt(segs, i) && StartsWith(segs[i], '~')
  }

  lemma TildeSurfacesMeans(path: string)
    ensures TildeSurfaces(path) <==> !Rooted(path) && Kept(path) != [] && StartsWith(Kept(path)[0], '~')
  {
    if !Rooted(path) {
      var segs := Split(path, SLASH);
      KeptByCounting(path);
      if Kept(path) != [] && StartsWith(Kept(path)[0], '~') {
        assert ".."[0] != '~';
        WalkShape(segs);
        var i: nat :| LeavesAt(segs, i);
        assert StartsWith(segs[i], '~');
      }
    }
  }

  lemma RelativeKept(path: string, segs: Segments)
    requires path != [] && !Rooted(path) && IsRelative(segs)
    requires Split(path, SLASH) == segs || Split(path, SLASH) == segs + [""]
    ensures Kept(path) == segs
  {
    RelativeWalksToItself(segs);
    WalkIgnoresBlank(false, segs);
  }

  lemma RelativeRenderedIsFixed(segs: Segments, trailing: bool)
    requires segs != [] && IsRelative(segs) && segs[0][0] != '~'
    ensures Normalize(Render(false, segs, trailing)) == Render(false, segs, trailing)
  {
    var out := Render(false, segs, trailing);
    SplitRenderedRelative(segs, trailing);
    assert segs[0] == ".." || segs[0][0] in segs[0];
    assert segs + [] == segs;
    RelativeKept(out, segs);
  }

  lemma TildeIsNotFixed(segs: Segments, trailing: bool)
    requires segs != [] && AllSegments(segs) && segs[0][0] == '~'
    ensures Normalize(Render(false, segs, trailing)) != Render(false, segs, trailing)
  {
    SplitRenderedRelative(segs, trailing);
    assert Normalize(Render(false, segs, trailing))[0] == SLASH;
  }

  /** Normalising twice is normalising once, exactly for the paths where that does not happen. */
  lemma IdempotentUnlessTildeSurfaces(path: string)
    ensures Normalize(Normalize(path)) == Normalize(path) <==> !TildeSurfaces(path)
  {
    if Rooted(path) {
      RootedIsIdempotent(path);
    } else {
      var segs := Kept(path);
      TildeSurfacesMeans(path);
      PiecesHaveNoSeparator(path, SLASH);
      WalkIsRelative(Split(path, SLASH));
      if segs == [] {
        NothingKeptIsFixed(EndsWith(path, SLASH));
      } else if segs[0][0] == '~' {
        TildeIsNotFixed(segs, EndsWith(path, SLASH));
      } else {
        RelativeRenderedIsFixed(segs, EndsWith(path, SLASH));
      }
    }
  }

  lemma NothingKeptIsFixed(trailing: bool)
    ensures Normalize(Render(false, [], trailing)) == Render(false, [], trailing)
    ensures Render(false, [], trailing) == if trailing then "/" else ""
  {
    if trailing {
      assert Render(false, [], true) == "/" == Render(true, [], true);
      RenderedRootIsFixed([], true);
    } else {
      var blank: string := "";
      assert Split(blank, SLASH) == [blank];
      WalkIgnoresBlank(false, []);
      assert [] + [blank] == [blank];
    }
  }

  /** A relative path stays relative, except that one that comes back and ends in a slash becomes the root. */
  lemma RelativeBecomesRoot(path: string)
    requires !Rooted(path)
    ensures StartsWith(Normalize(path), SLASH) <==> ComesBack(Split(path, SLASH)) && EndsWith(path, SLASH)
    ensures ComesBack(Split(path, SLASH)) && EndsWith(path, SLASH) ==> Normalize(path) == "/"
  {
    var segs := Kept(path);
    KeptByCounting(path);
    PiecesHaveNoSeparator(path, SLASH);
    WalkIsRelative(Split(path, SLASH));
    if segs == [] {
      NothingKeptIsFixed(EndsWith(path, SLASH));
    } else {
      SplitRenderedRelative(segs, EndsWith(path, SLASH));
      assert segs[0] == ".." || segs[0][0] in segs[0];
    }
  }

  // ---------------------------------------------------------------------------------------
  // Inputs at which it happens
  // ---------------------------------------------------------------------------------------

  lemma SplitTwo(a: string, b: string)
    requires SLASH !in a && SLASH !in b
    ensures Split(a + "/" + b, SLASH) == [a, b]
  {
    SplitAppend(a, b, SLASH);
    SplitOnePiece(a, SLASH);
    SplitOnePiece(b, SLASH);
  }

  /** `./` is the root when normalised. */
  lemma DotSlashIsRoot()
    ensures Normalize("./") == "/"
  {
    var dot: string := ".";
    SplitTwo(dot, "");
    assert dot + "/" + "" == "./";
    var segs: Segments := [dot, ""];
    assert segs[..1] == [dot] && [dot][..0] == [];
    assert Depth([dot]) == 0 && StaysBelow([dot]);
    RelativeBecomesRoot("./");
  }

  /** `./~x` is `~x` when normalised once, and a path under the `~` root when normalised twice. */
  lemma DotTildeTwice()
    ensures Normalize("./~x") == "~x" && Normalize("~x") == "/~/x"
  {
    DotTildeOnce();
    TildeOnce();
  }

  lemma DotTildeOnce()
    ensures Normalize("./~x") == "~x"
  {
    var dot, name: string := ".", "~x";
    SplitTwo(dot, name);
    assert dot + "/" + name == "./~x";
    var segs: Segments := [dot, name];
    assert segs[..1] == [dot] && [dot][..0] == [];
    assert Walk(false, [], [dot]) == [];
    assert Walk(false, [], segs) == [name];
    assert "" + name == name;
  }

  lemma TildeOnce()
    ensures Normalize("~x") == "/~/x"
  {
    var path: string := "~x";
    var body, home: Segments := ["x"], ["~"];
    SplitOnePiece("x", SLASH);
    assert Body(path) == "x" && body[..0] == [];
    assert Walk(true, home, body) == home + body;
    assert (home + body)[1..] == body;
    assert Join(home + body, SLASH) == "~" + [SLASH] + "x";
    assert "/" + ("~" + [SLASH] + "x") == "/~/x";
  }
}
