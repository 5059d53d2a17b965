/** Terminal control sequence stripping (src/domain/ansi_strip.rs). */
module AnsiStrip {
  // The meaning of stripping is given by an automaton that reads one byte at a time: control
  // sequences as in section 5.4 of ECMA-48 (5th edition), control strings as in section 5.6.
  // The methods are the program's lookahead loops, and each is proved against the automaton
  // or against a function that a lemma ties to the automaton.

  import opened Bytes

  const ESC: byte := 0x1B
  const BEL: byte := 0x07
  const BACKSLASH: byte := 0x5C

  predicate IsParameter(b: byte) { 0x30 <= b <= 0x3F }
  predicate IsIntermediate(b: byte) { 0x20 <= b <= 0x2F }
  predicate IsCsiFinal(b: byte) { 0x40 <= b <= 0x7E }
  predicate IsEscFinal(b: byte) { 0x30 <= b <= 0x7E }

  /** `P`, `_`, `^` and `X`: the introducers of strings that only ESC `\` ends. */
  predicate IsStringIntroducer(b: byte) { b == 0x50 || b == 0x5F || b == 0x5E || b == 0x58 }

  // ---------------------------------------------------------------------------------------
  // The reference automaton
  // ---------------------------------------------------------------------------------------

  /** Where in the escape grammar a byte stream stands. `CsiBad` is a control sequence that has
  met a byte outside its grammar: the program never resumes after one. */
  datatype Mode = Ground | Escape | EscapeInter | CsiParam | CsiInter | CsiBad | Osc | Str | StrEsc

  function Next(q: Mode, b: byte): Mode {
    match q
    case Ground => if b == ESC then Escape else Ground
    case Escape =>
      if b == 0x5B then CsiParam
      else if b == 0x5D then Osc
      else if IsStringIntroducer(b) then Str
      else AfterIntermediates(b)
    case EscapeInter => AfterIntermediates(b)
    case CsiParam => if IsParameter(b) then CsiParam else AfterParameters(b)
    case CsiInter => AfterParameters(b)
    case CsiBad => CsiBad
    case Osc => if b == BEL then Ground else if b == ESC then Escape else Osc
    case Str => if b == ESC then StrEsc else Str
    case StrEsc => if b == BACKSLASH then Ground else if b == ESC then StrEsc else Str
  }

  function AfterIntermediates(b: byte): Mode {
    if IsIntermediate(b) then EscapeInter else if b == ESC then Escape else Ground
  }

  function AfterParameters(b: byte): Mode {
    if IsIntermediate(b) then CsiInter else if IsCsiFinal(b) then Ground else CsiBad
  }

  /** The text a byte contributes: itself, outside of sequences. A byte that cannot continue an
  escape sequence is text again, except for a new ESC. */
  function Out(q: Mode, b: byte): seq<byte> {
    match q
    case Ground => if b == ESC then [] else [b]
    case Escape => if IsIntermediate(b) || IsEscFinal(b) || b == ESC then [] else [b]
    case EscapeInter => if IsIntermediate(b) || IsEscFinal(b) || b == ESC then [] else [b]
    case _ => []
  }

  function Run(q: Mode, s: seq<byte>): Mode
    decreases |s|
  {
    if s == [] then q else Run(Next(q, s[0]), s[1..])
  }

  function Emit(q: Mode, s: seq<byte>): seq<byte>
    decreases |s|
  {
    if s == [] then [] else Out(q, s[0]) + Emit(Next(q, s[0]), s[1..])
  }

  /** What the end of input adds: a lone ESC at the very end is kept. */
  function Flush(q: Mode): seq<byte> {
    if q == Escape then [ESC] else []
  }

  /** The text of a whole stream. */
  function Stripped(s: seq<byte>): seq<byte> {
    Emit(Ground, s) + Flush(Run(Ground, s))
  }

  lemma {:induction false} RunAppend(q: Mode, a: seq<byte>, b: seq<byte>)
    ensures Run(q, a + b) == Run(Run(q, a), b)
    ensures Emit(q, a + b) == Emit(q, a) + Emit(Run(q, a), b)
    decreases |a|
  {
    if a == [] {
      assert a + b == b;
    } else {
      assert (a + b)[1..] == a[1..] + b;
      RunAppend(Next(q, a[0]), a[1..], b);
    }
  }

  /** Mode `q` treats what follows exactly as `Ground` does. */
  predicate Resync(q: Mode, t: seq<byte>) {
    if t == [] then q == Ground
    else Next(q, t[0]) == Next(Ground, t[0]) && Out(q, t[0]) == Out(Ground, t[0])
  }

  lemma ResyncRun(q: Mode, t: seq<byte>)
    requires Resync(q, t)
    ensures Run(q, t) == Run(Ground, t) && Emit(q, t) == Emit(Ground, t)
  {
  }

  // ---------------------------------------------------------------------------------------
  // The lengths the lookahead loops compute
  // ---------------------------------------------------------------------------------------

  /** Bytes up to and including the final byte of a control sequence, in mode `q`. */
  function CsiLength(q: Mode, rest: seq<byte>): (n: Option<nat>)
    ensures n.Some? ==> 1 <= n.value <= |rest|
    decreases |rest|
  {
    if rest == [] || Next(q, rest[0]) == CsiBad then None
    else if Next(q, rest[0]) == Ground then Some(1)
    else Plus(1, CsiLength(Next(q, rest[0]), rest[1..]))
  }

  function Plus(k: nat, n: Option<nat>): Option<nat> {
    match n
    case None => None
    case Some(v) => Some(k + v)
  }

  /** Bytes up to the end of a control string: its terminator included, or just before a lone
  ESC when the string is an OSC. */
  function StringLength(rest: seq<byte>, osc: bool): (n: Option<nat>)
    ensures n.Some? ==> n.value <= |rest|
  {
    if rest == [] then None
    else if osc && rest[0] == BEL then Some(1)
    else if rest[0] == ESC && |rest| > 1 && rest[1] == BACKSLASH then Some(2)
    else if osc && rest[0] == ESC then Some(0)
    else Plus(1, StringLength(rest[1..], osc))
  }

  function Intermediates(t: seq<byte>): (n: nat)
    ensures n <= |t|
  {
    if t == [] || !IsIntermediate(t[0]) then 0 else 1 + Intermediates(t[1..])
  }

  /** The length of the escape sequence that `s` starts with; `None` when `s` ends too early. */
  function SequenceLength(s: seq<byte>): (n: Option<nat>)
    requires s != [] && s[0] == ESC
    ensures n.Some? ==> 1 <= n.value <= |s|
  {
    if |s| == 1 then None
    else if s[1] == 0x5B then Plus(2, CsiLength(CsiParam, s[2..]))
    else if s[1] == 0x5D then Plus(2, StringLength(s[2..], true))
    else if IsStringIntroducer(s[1]) then Plus(2, StringLength(s[2..], false))
    else
      var j := 1 + Intermediates(s[1..]);
      if j == |s| then None else if IsEscFinal(s[j]) then Some(j + 1) else Some(j)
  }

  /** Where the sequence that the end of `s` cuts off begins. */
  function TrailingStart(s: seq<byte>): (k: Option<nat>)
    ensures k.Some? ==> k.value < |s| && s[k.value] == ESC
    decreases |s|
  {
    if s == [] then None
    else if s[0] != ESC then Plus(1, TrailingStart(s[1..]))
    else
      var n := SequenceLength(s);
      if n == None then Some(0) else Plus(n.value, TrailingStart(s[n.value..]))
  }

  lemma {:induction false} CsiLengthMeaning(q: Mode, rest: seq<byte>)
    requires q == CsiParam || q == CsiInter
    ensures CsiLength(q, rest).Some? ==> Run(q, rest[..CsiLength(q, rest).value]) == Ground
    ensures CsiLength(q, rest).Some? ==> Emit(q, rest[..CsiLength(q, rest).value]) == []
    ensures CsiLength(q, rest).None? ==> Run(q, rest) in {CsiParam, CsiInter, CsiBad} && Emit(q, rest) == []
    decreases |rest|
  {
    if rest != [] {
      var n := CsiLength(q, rest);
      if Next(q, rest[0]) == CsiBad {
        StuckCsi(rest[1..]);
      } else if Next(q, rest[0]) == Ground {
        assert rest[..1] == [rest[0]];
      } else {
        CsiLengthMeaning(Next(q, rest[0]), rest[1..]);
        if n.Some? {
          assert rest[..n.value][1..] == rest[1..][..n.value - 1];
        }
      }
    }
  }

  lemma {:induction false} StuckCsi(s: seq<byte>)
    ensures Run(CsiBad, s) == CsiBad && Emit(CsiBad, s) == []
  {
    if s != [] {
      StuckCsi(s[1..]);
    }
  }

  lemma {:induction false} OscLengthMeaning(rest: seq<byte>)
    ensures var n := StringLength(rest, true);
            if n == None then Run(Osc, rest) == Osc && Emit(Osc, rest) == []
            else Resync(Run(Osc, rest[..n.value]), rest[n.value..]) && Emit(Osc, rest[..n.value]) == []
  {
    var n := StringLength(rest, true);
    if rest == [] {
    } else if rest[0] == BEL {
      assert rest[..1] == [rest[0]];
    } else if rest[0] == ESC {
      if n == Some(2) {
        assert rest[..2] == [ESC] + [BACKSLASH];
        RunAppend(Osc, [ESC], [BACKSLASH]);
      }
    } else {
      OscLengthMeaning(rest[1..]);
      if n.Some? {
        assert rest[..n.value][1..] == rest[1..][..n.value - 1];
      }
    }
  }

  lemma {:induction false} StrLengthMeaning(q: Mode, rest: seq<byte>)
    requires q == Str || (q == StrEsc && (rest == [] || rest[0] != BACKSLASH))
    ensures var n := StringLength(rest, false);
            if n == None then Run(q, rest) in {Str, StrEsc} && Emit(q, rest) == []
            else Run(q, rest[..n.value]) == Ground && Emit(q, rest[..n.value]) == []
    decreases |rest|
  {
    var n := StringLength(rest, false);
    if rest == [] {
    } else if n == Some(2) && rest[0] == ESC && rest[1] == BACKSLASH {
      assert rest[..2] == [ESC] + [BACKSLASH];
      RunAppend(q, [ESC], [BACKSLASH]);
    } else {
      StrLengthMeaning(Next(q, rest[0]), rest[1..]);
      if n.Some? {
        assert rest[..n.value][1..] == rest[1..][..n.value - 1];
      }
    }
  }

  lemma {:induction false} IntermediatesMeaning(q: Mode, t: seq<byte>)
    requires q == EscapeInter
    ensures var n := Intermediates(t);
            Run(q, t[..n]) == EscapeInter && Emit(q, t[..n]) == [] && (n < |t| ==> !IsIntermediate(t[n]))
  {
    var n := Intermediates(t);
    if n > 0 {
      IntermediatesMeaning(q, t[1..]);
      assert t[..n][1..] == t[1..][..n - 1];
    }
  }

  /** A complete sequence contributes no text and leaves the automaton as good as in `Ground`; an
  incomplete one contributes no text and leaves it inside a sequence. */
  lemma {:induction false} SequenceMeaning(s: seq<byte>)
    requires s != [] && s[0] == ESC
    ensures var n := SequenceLength(s);
            if n == None
            then Emit(Ground, s) == [] && Run(Ground, s) != Ground && (Run(Ground, s) == Escape <==> |s| == 1)
            else Emit(Ground, s[..n.value]) == [] && Resync(Run(Ground, s[..n.value]), s[n.value..])
  {
    var n := SequenceLength(s);
    if |s| == 1 {
      assert s[1..] == [];
    } else if HasIntroducer(s) {
      IntroducerMeaning(s);
    } else {
      OtherMeaning(s);
    }
  }

  predicate HasIntroducer(s: seq<byte>) {
    |s| > 1 && s[0] == ESC && (s[1] == 0x5B || s[1] == 0x5D || IsStringIntroducer(s[1]))
  }

  lemma Introduced(s: seq<byte>, m: nat)
    requires HasIntroducer(s) && m + 2 <= |s|
    ensures Run(Ground, s[..m + 2]) == Run(Next(Escape, s[1]), s[2..][..m])
    ensures Emit(Ground, s[..m + 2]) == Emit(Next(Escape, s[1]), s[2..][..m])
    ensures s[m + 2..] == s[2..][m..]
  {
    var body := s[2..][..m];
    assert s[..m + 2] == [ESC] + ([s[1]] + body);
    RunAppend(Ground, [ESC], [s[1]] + body);
    RunAppend(Escape, [s[1]], body);
  }

  /** What `SequenceMeaning` says, for a sequence with an introducer, given what its body does. */
  lemma IntroducedMeaning(s: seq<byte>, q: Mode, n: Option<nat>)
    requires HasIntroducer(s) && q == Next(Escape, s[1]) && SequenceLength(s) == Plus(2, n)
    requires n.Some? ==> n.value + 2 <= |s| && Emit(q, s[2..][..n.value]) == []
    requires n.Some? ==> Resync(Run(q, s[2..][..n.value]), s[2..][n.value..])
    requires n.None? ==> Emit(q, s[2..]) == [] && Run(q, s[2..]) !in {Ground, Escape}
    ensures SequenceLength(s) == None ==> Emit(Ground, s) == [] && Run(Ground, s) !in {Ground, Escape}
    ensures SequenceLength(s).Some? ==> Emit(Ground, s[..SequenceLength(s).value]) == []
    ensures SequenceLength(s).Some? ==>
              Resync(Run(Ground, s[..SequenceLength(s).value]), s[SequenceLength(s).value..])
  {
    if n.Some? {
      Introduced(s, n.value);
    } else {
      Introduced(s, |s| - 2);
      assert s[..|s|] == s && s[2..][..|s| - 2] == s[2..];
    }
  }

  lemma IntroducerMeaning(s: seq<byte>)
    requires HasIntroducer(s)
    ensures SequenceLength(s) == None ==> Emit(Ground, s) == [] && Run(Ground, s) !in {Ground, Escape}
    ensures SequenceLength(s).Some? ==> Emit(Ground, s[..SequenceLength(s).value]) == []
    ensures SequenceLength(s).Some? ==>
              Resync(Run(Ground, s[..SequenceLength(s).value]), s[SequenceLength(s).value..])
  {
    if s[1] == 0x5B {
      CsiLengthMeaning(CsiParam, s[2..]);
      IntroducedMeaning(s, CsiParam, CsiLength(CsiParam, s[2..]));
    } else if s[1] == 0x5D {
      OscLengthMeaning(s[2..]);
      IntroducedMeaning(s, Osc, StringLength(s[2..], true));
    } else {
      StrLengthMeaning(Str, s[2..]);
      IntroducedMeaning(s, Str, StringLength(s[2..], false));
    }
  }

  lemma {:induction false} InterAfterEscape(t: seq<byte>, n: nat)
    requires t != [] && IsIntermediate(t[0]) && n == Intermediates(t)
    ensures Run(Escape, t[..n]) == EscapeInter && Emit(Escape, t[..n]) == []
    ensures n < |t| ==> !IsIntermediate(t[n])
  {
    IntermediatesMeaning(EscapeInter, t[1..]);
    assert t[..n] == [t[0]] + t[1..][..n - 1];
    OneInter(t[0], t[1..][..n - 1]);
  }

  lemma {:induction false} OneInter(b: byte, more: seq<byte>)
    requires IsIntermediate(b)
    ensures Run(Escape, [b] + more) == Run(EscapeInter, more) && Emit(Escape, [b] + more) == Emit(EscapeInter, more)
  {
    assert ([b] + more)[1..] == more;
  }

  lemma {:induction false} EscapeInterPrefix(s: seq<byte>)
    requires |s| > 1 && s[0] == ESC && !HasIntroducer(s)
    ensures var j := 1 + Intermediates(s[1..]);
            && Run(Ground, s[..j]) == (if j == 1 then Escape else EscapeInter)
            && Emit(Ground, s[..j]) == []
            && (j < |s| ==> !IsIntermediate(s[j]))
  {
    var n := Intermediates(s[1..]);
    if n > 0 {
      InterAfterEscape(s[1..], n);
    }
    assert s[..n + 1] == [ESC] + s[1..][..n];
    RunAppend(Ground, [ESC], s[1..][..n]);
  }

  /** The byte that ends an escape sequence without an introducer. */
  lemma {:induction false} EscFinalEnds(p: seq<byte>, b: byte)
    requires Emit(Ground, p) == [] && IsEscFinal(b)
    requires Run(Ground, p) == EscapeInter
             || (Run(Ground, p) == Escape && b != 0x5B && b != 0x5D && !IsStringIntroducer(b))
    ensures Run(Ground, p + [b]) == Ground && Emit(Ground, p + [b]) == []
  {
    var last := [b];
    assert last[1..] == [];
    RunAppend(Ground, p, last);
  }

  lemma OtherLength(s: seq<byte>)
    requires |s| > 1 && s[0] == ESC && !HasIntroducer(s)
    ensures var j := 1 + Intermediates(s[1..]);
            SequenceLength(s) == if j == |s| then None else if IsEscFinal(s[j]) then Some(j + 1) else Some(j)
  {
  }

  lemma {:induction false} EndsWithFinal(s: seq<byte>, j: nat)
    requires j < |s| && Emit(Ground, s[..j]) == [] && IsEscFinal(s[j])
    requires Run(Ground, s[..j]) == EscapeInter
             || (Run(Ground, s[..j]) == Escape && s[j] != 0x5B && s[j] != 0x5D && !IsStringIntroducer(s[j]))
    ensures Run(Ground, s[..j + 1]) == Ground && Emit(Ground, s[..j + 1]) == []
  {
    EscFinalEnds(s[..j], s[j]);
    assert s[..j + 1] == s[..j] + [s[j]];
  }

  lemma ResyncAtText(q: Mode, t: seq<byte>)
    requires t != [] && (q == Escape || q == EscapeInter) && !IsIntermediate(t[0]) && !IsEscFinal(t[0])
    ensures Resync(q, t)
  {
  }

  lemma {:induction false} OtherMeaning(s: seq<byte>)
    requires |s| > 1 && s[0] == ESC && !HasIntroducer(s)
    ensures SequenceLength(s) == None ==> Emit(Ground, s) == [] && Run(Ground, s) == EscapeInter
    ensures SequenceLength(s).Some? ==> Emit(Ground, s[..SequenceLength(s).value]) == []
    ensures SequenceLength(s).Some? ==>
              Resync(Run(Ground, s[..SequenceLength(s).value]), s[SequenceLength(s).value..])
  {
    var j := 1 + Intermediates(s[1..]);
    EscapeInterPrefix(s);
    OtherLength(s);
    if j == |s| {
      assert s[..j] == s;
    } else if IsEscFinal(s[j]) {
      EndsWithFinal(s, j);
    } else {
      ResyncAtText(Run(Ground, s[..j]), s[j..]);
    }
  }

  lemma StripStep(s: seq<byte>)
    requires s != []
    ensures s[0] != ESC ==> Stripped(s) == [s[0]] + Stripped(s[1..])
    ensures s[0] == ESC && SequenceLength(s).Some? ==> Stripped(s) == Stripped(s[SequenceLength(s).value..])
    ensures s[0] == ESC && SequenceLength(s).None? ==> Stripped(s) == if |s| == 1 then [ESC] else []
  {
    if s[0] == ESC {
      SequenceMeaning(s);
      var n := SequenceLength(s);
      if n.Some? {
        assert s == s[..n.value] + s[n.value..];
        RunAppend(Ground, s[..n.value], s[n.value..]);
        ResyncRun(Run(Ground, s[..n.value]), s[n.value..]);
      }
    }
  }

  // ---------------------------------------------------------------------------------------
  // The program's loops
  // ---------------------------------------------------------------------------------------

  /** One byte of a control sequence that does not end it. */
  lemma CsiGoesOn(q: Mode, rest: seq<byte>, i: nat)
    requires i < |rest| && Next(q, rest[i]) !in {CsiBad, Ground}
    ensures CsiLength(q, rest[i..]) == Plus(1, CsiLength(Next(q, rest[i]), rest[i + 1..]))
  {
    assert rest[i..][1..] == rest[i + 1..];
  }

  lemma CsiEnds(q: Mode, rest: seq<byte>, i: nat)
    requires i <= |rest| && (i < |rest| ==> Next(q, rest[i]) in {CsiBad, Ground})
    ensures CsiLength(q, rest[i..]) == if i < |rest| && Next(q, rest[i]) == Ground then Some(1) else None
  {
  }

  lemma PlusPlus(i: nat, k: nat, n: Option<nat>)
    ensures Plus(i, Plus(k, n)) == Plus(i + k, n)
  {
  }

  method ConsumeCsi(rest: seq<byte>) returns (r: Option<nat>)
    ensures r == CsiLength(CsiParam, rest)
  {
    var i := 0;
    while i < |rest| && IsParameter(rest[i])
      invariant 0 <= i <= |rest|
      invariant CsiLength(CsiParam, rest) == Plus(i, CsiLength(CsiParam, rest[i..]))
    {
      CsiGoesOn(CsiParam, rest, i);
      PlusPlus(i, 1, CsiLength(CsiParam, rest[i + 1..]));
      i := i + 1;
    }
    ghost var q := CsiParam;
    while i < |rest| && IsIntermediate(rest[i])
      invariant 0 <= i <= |rest|
      invariant q == CsiInter || (q == CsiParam && (i < |rest| ==> !IsParameter(rest[i])))
      invariant CsiLength(CsiParam, rest) == Plus(i, CsiLength(q, rest[i..]))
    {
      CsiGoesOn(q, rest, i);
      PlusPlus(i, 1, CsiLength(CsiInter, rest[i + 1..]));
      q := CsiInter;
      i := i + 1;
    }
    CsiEnds(q, rest, i);
    if i < |rest| && IsCsiFinal(rest[i]) {
      i := i + 1;
      r := Some(i);
    } else {
      r := None;
    }
  }

  method ConsumeStringUntil(rest: seq<byte>, osc: bool) returns (r: Option<nat>)
    ensures r == StringLength(rest, osc)
  {
    var i := 0;
    while i < |rest|
      invariant 0 <= i <= |rest|
      invariant StringLength(rest, osc) == Plus(i, StringLength(rest[i..], osc))
    {
      if osc && rest[i] == BEL {
        return Some(i + 1);
      }
      if rest[i] == ESC && i + 1 < |rest| && rest[i + 1] == BACKSLASH {
        return Some(i + 2);
      }
      if rest[i] == ESC && osc {
        return Some(i);
      }
      assert rest[i..][1..] == rest[i + 1..];
      i := i + 1;
    }
    r := None;
  }

  /** The same loop when only the consumed length matters: an unterminated string is all of it. */
  method ConsumeStringTerminator(rest: seq<byte>, osc: bool) returns (n: nat)
    ensures n == if StringLength(rest, osc) == None then |rest| else StringLength(rest, osc).value
  {
    var i := 0;
    while i < |rest|
      invariant 0 <= i <= |rest|
      invariant StringLength(rest, osc) == Plus(i, StringLength(rest[i..], osc))
    {
      if osc && rest[i] == BEL {
        return i + 1;
      }
      if rest[i] == ESC && i + 1 < |rest| && rest[i + 1] == BACKSLASH {
        return i + 2;
      }
      if rest[i] == ESC && osc {
        return i;
      }
      assert rest[i..][1..] == rest[i + 1..];
      i := i + 1;
    }
    n := i;
  }

  method SkipIntermediates(input: seq<byte>, start: nat) returns (j: nat)
    requires start <= |input|
    ensures j == start + Intermediates(input[start..])
  {
    j := start;
    while j < |input| && IsIntermediate(input[j])
      invariant start <= j <= |input|
      invariant Intermediates(input[start..]) == j - start + Intermediates(input[j..])
    {
      assert input[j..][1..] == input[j + 1..];
      j := j + 1;
    }
  }

  method SequenceEnd(input: seq<byte>, esc: nat) returns (end: Option<nat>)
    requires esc < |input| && input[esc] == ESC
    ensures end == Plus(esc, SequenceLength(input[esc..]))
  {
    if esc + 1 >= |input| {
      return None;
    }
    assert input[esc..][2..] == input[esc + 2..];
    assert input[esc..][1..] == input[esc + 1..];
    if input[esc + 1] == 0x5B {
      var n := ConsumeCsi(input[esc + 2..]);
      end := Plus(esc + 2, n);
    } else if input[esc + 1] == 0x5D {
      var n := ConsumeStringUntil(input[esc + 2..], true);
      end := Plus(esc + 2, n);
    } else if IsStringIntroducer(input[esc + 1]) {
      var n := ConsumeStringUntil(input[esc + 2..], false);
      end := Plus(esc + 2, n);
    } else {
      var j := SkipIntermediates(input, esc + 1);
      if j < |input| && IsEscFinal(input[j]) {
        end := Some(j + 1);
      } else if j >= |input| {
        end := None;
      } else {
        end := Some(j);
      }
    }
  }

  /** What starts at the end of the sequence at `i`, given where that is. */
  lemma {:induction false} TrailingAfterSequence(input: seq<byte>, i: nat, end: Option<nat>)
    requires i < |input| && input[i] == ESC && end == Plus(i, SequenceLength(input[i..]))
    ensures end.Some? ==>
              && i < end.value <= |input|
              && TrailingStart(input[i..]) == Plus(end.value - i, TrailingStart(input[end.value..]))
    ensures end.None? ==> TrailingStart(input[i..]) == Some(0)
  {
    if end.Some? {
      assert input[i..][end.value - i..] == input[end.value..];
    }
  }

  lemma {:induction false} TrailingAfterText(input: seq<byte>, i: nat)
    requires i < |input| && input[i] != ESC
    ensures TrailingStart(input[i..]) == Plus(1, TrailingStart(input[i + 1..]))
  {
    assert input[i..][1..] == input[i + 1..];
  }

  /** A scan that has come to `i` has found nothing cut off before it. */
  predicate ScannedTo(input: seq<byte>, i: nat) {
    i <= |input| && TrailingStart(input) == Plus(i, TrailingStart(input[i..]))
  }

  lemma {:induction false} ScanStep(input: seq<byte>, i: nat, end: nat)
    requires i < end <= |input| && ScannedTo(input, i)
    requires TrailingStart(input[i..]) == Plus(end - i, TrailingStart(input[end..]))
    ensures ScannedTo(input, end)
  {
    PlusPlus(i, end - i, TrailingStart(input[end..]));
  }

  lemma {:induction false} ScanSequence(input: seq<byte>, i: nat, end: Option<nat>)
    requires i < |input| && input[i] == ESC && end == Plus(i, SequenceLength(input[i..])) && ScannedTo(input, i)
    ensures end.Some? ==> i < end.value && ScannedTo(input, end.value)
    ensures end.None? ==> TrailingStart(input) == Some(i)
  {
    TrailingAfterSequence(input, i, end);
    if end.Some? {
      ScanStep(input, i, end.value);
    }
  }

  lemma {:induction false} ScanText(input: seq<byte>, i: nat)
    requires i < |input| && input[i] != ESC && ScannedTo(input, i)
    ensures ScannedTo(input, i + 1)
  {
    TrailingAfterText(input, i);
    ScanStep(input, i, i + 1);
  }

  lemma {:induction false} ScanDone(input: seq<byte>)
    ensures ScannedTo(input, 0)
    ensures ScannedTo(input, |input|) ==> TrailingStart(input) == None
  {
    assert input[0..] == input && input[|input|..] == [];
  }

  method IncompleteTrailingStart(input: seq<byte>) returns (start: Option<nat>)
    ensures start == TrailingStart(input)
  {
    var i := 0;
    ScanDone(input);
    while i < |input|
      invariant ScannedTo(input, i)
    {
      if input[i] == ESC {
        var end := SequenceEnd(input, i);
        ScanSequence(input, i, end);
        match end {
          case Some(e) =>
            i := e;
          case None =>
            return Some(i);
        }
      } else {
        ScanText(input, i);
        i := i + 1;
      }
    }
    start := None;
  }

  /** The arms of the match on the byte after an ESC: where scanning goes on. */
  method SkipSequence(input: seq<byte>, i: nat) returns (next: nat)
    requires i + 1 < |input| && input[i] == ESC
    ensures next == match SequenceLength(input[i..]) case Some(n) => i + n case None => |input|
  {
    assert input[i..][2..] == input[i + 2..];
    assert input[i..][1..] == input[i + 1..];
    if input[i + 1] == 0x5B {
      var consumed := ConsumeCsi(input[i + 2..]);
      match consumed {
        case Some(n) => next := i + 2 + n;
        case None => next := |input|;
      }
    } else if input[i + 1] == 0x5D {
      var n := ConsumeStringTerminator(input[i + 2..], true);
      next := i + 2 + n;
    } else if IsStringIntroducer(input[i + 1]) {
      var n := ConsumeStringTerminator(input[i + 2..], false);
      next := i + 2 + n;
    } else {
      var j := SkipIntermediates(input, i + 1);
      if j < |input| && IsEscFinal(input[j]) {
        next := j + 1;
      } else if j >= |input| {
        next := |input|;
      } else {
        next := j;
      }
    }
  }

  /** `out` is the text of what comes before `i`, wherever the rest leads. */
  predicate StrippedUpTo(input: seq<byte>, out: seq<byte>, i: nat) {
    i <= |input| && Stripped(input) == out + Stripped(input[i..])
  }

  lemma TextGoesOn(input: seq<byte>, out: seq<byte>, i: nat)
    requires i < |input| && input[i] != ESC && StrippedUpTo(input, out, i)
    ensures StrippedUpTo(input, out + [input[i]], i + 1)
  {
    StripStep(input[i..]);
    assert input[i..][1..] == input[i + 1..];
    assert out + ([input[i]] + Stripped(input[i + 1..])) == (out + [input[i]]) + Stripped(input[i + 1..]);
  }

  lemma SequenceGoesOn(input: seq<byte>, out: seq<byte>, i: nat, next: nat)
    requires i < |input| && input[i] == ESC && i + 1 < |input| && StrippedUpTo(input, out, i)
    requires next == match SequenceLength(input[i..]) case None => |input| case Some(n) => i + n
    ensures next > i && StrippedUpTo(input, out, next)
  {
    var n := SequenceLength(input[i..]);
    StripStep(input[i..]);
    if n.Some? {
      assert input[i..][n.value..] == input[next..];
    } else {
      assert input[next..] == [];
    }
  }

  lemma LoneEscapeStays(input: seq<byte>, out: seq<byte>, i: nat)
    requires i + 1 == |input| && input[i] == ESC && StrippedUpTo(input, out, i)
    ensures Stripped(input) == out + [ESC]
  {
    StripStep(input[i..]);
  }

  lemma StrippingIsDone(input: seq<byte>, out: seq<byte>)
    ensures StrippedUpTo(input, [], 0)
    ensures StrippedUpTo(input, out, |input|) ==> Stripped(input) == out
  {
    assert input[0..] == input && [] + Stripped(input) == Stripped(input);
    assert input[|input|..] == [] && out + [] == out;
  }

  method StripControlSequences(input: seq<byte>) returns (out: seq<byte>)
    ensures out == Stripped(input)
  {
    out := [];
    var i := 0;
    StrippingIsDone(input, out);
    while i < |input|
      invariant StrippedUpTo(input, out, i)
    {
      var b := input[i];
      if b == ESC {
        if i + 1 >= |input| {
          LoneEscapeStays(input, out, i);
          out := out + [b];
          return;
        }
        var next := SkipSequence(input, i);
        SequenceGoesOn(input, out, i, next);
        i := next;
      } else {
        TextGoesOn(input, out, i);
        out := out + [b];
        i := i + 1;
      }
    }
    StrippingIsDone(input, out);
  }
}
