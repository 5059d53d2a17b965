/** The grammar of control sequences in plain byte ranges, and that stripping leaves just the text of it. */
module AnsiTokens {
  import opened Bytes
  import opened AnsiStrip

  // ---------------------------------------------------------------------------------------
  // The grammar
  // ---------------------------------------------------------------------------------------

  /** A stream is a list of these. A cut sequence is one that the byte after it ends without being part of it. */
  datatype Token =
    | Text(b: byte)
    | Csi(params: seq<byte>, inters: seq<byte>, final: byte)
    | Operating(body: seq<byte>, bel: bool)
    | OperatingCut(body: seq<byte>)
    | ControlString(intro: byte, body: seq<byte>)
    | Plain(inters: seq<byte>, final: byte)
    | PlainCut(inters: seq<byte>)

  predicate Within(s: seq<byte>, low: int, high: int) {
    forall i :: 0 <= i < |s| ==> low <= s[i] <= high
  }

  /** Neither BEL nor ESC. */
  predicate Unended(s: seq<byte>) {
    forall i :: 0 <= i < |s| ==> s[i] != 0x07 && s[i] != 0x1B
  }

  /** Nowhere ESC and backslash side by side. */
  predicate Unclosed(s: seq<byte>) {
    forall i :: 0 <= i < |s| - 1 ==> s[i] != 0x1B || s[i + 1] != 0x5C
  }

  predicate OpensString(b: byte) {
    b == 0x50 || b == 0x58 || b == 0x5E || b == 0x5F
  }

  function Spelled(t: Token): seq<byte> {
    match t
    case Text(b) => [b]
    case Csi(params, inters, final) => [0x1B, 0x5B] + params + inters + [final]
    case Operating(body, bel) => [0x1B, 0x5D] + body + (if bel then [0x07] else [0x1B, 0x5C])
    case OperatingCut(body) => [0x1B, 0x5D] + body
    case ControlString(intro, body) => [0x1B, intro] + body + [0x1B, 0x5C]
    case Plain(inters, final) => [0x1B] + inters + [final]
    case PlainCut(inters) => [0x1B] + inters
  }

  /** `t` is a token when `rest` follows it. */
  predicate IsToken(t: Token, rest: seq<byte>) {
    match t
    case Text(b) => b != 0x1B
    case Csi(params, inters, final) =>
      Within(params, 0x30, 0x3F) && Within(inters, 0x20, 0x2F) && 0x40 <= final <= 0x7E
    case Operating(body, _) => Unended(body)
    case OperatingCut(body) => Unended(body) && rest != [] && rest[0] == 0x1B && (|rest| == 1 || rest[1] != 0x5C)
    case ControlString(intro, body) => OpensString(intro) && Unclosed(body)
    case Plain(inters, final) =>
      && Within(inters, 0x20, 0x2F) && 0x30 <= final <= 0x7E
      && (inters == [] ==> final != 0x5B && final != 0x5D && !OpensString(final))
    case PlainCut(inters) => Within(inters, 0x20, 0x2F) && rest != [] && (rest[0] < 0x20 || rest[0] > 0x7E)
  }

  function TextOf(t: Token): seq<byte> {
    if t.Text? then [t.b] else []
  }

  /** What may stand at the end of a stream: nothing, one ESC, or a sequence that is not complete. */
  ghost predicate IsEnding(e: seq<byte>) {
    || e == []
    || e == [0x1B]
    || (|e| >= 2 && e[0] == 0x1B && IsOpen(e[1], e[2..]))
  }

  ghost predicate IsOpen(b: byte, body: seq<byte>) {
    if b == 0x5B then IsOpenCsi(body)
    else if b == 0x5D then Unended(body)
    else if OpensString(b) then Unclosed(body)
    else Within([b] + body, 0x20, 0x2F)
  }

  /** Parameters, intermediates, and then the end of the stream or a byte that a final one should have been:
  the program never resumes after that. */
  ghost predicate IsOpenCsi(body: seq<byte>) {
    exists params: seq<byte>, inters: seq<byte>, more: seq<byte> ::
      && body == params + inters + more
      && Within(params, 0x30, 0x3F) && Within(inters, 0x20, 0x2F)
      && (more != [] ==> more[0] < 0x20 || more[0] > 0x7E || (inters != [] && 0x30 <= more[0] <= 0x3F))
  }

  function Spell(ts: seq<Token>): seq<byte> {
    if ts == [] then [] else Spelled(ts[0]) + Spell(ts[1..])
  }

  function AllText(ts: seq<Token>): seq<byte> {
    if ts == [] then [] else TextOf(ts[0]) + AllText(ts[1..])
  }

  predicate AreTokens(ts: seq<Token>, ending: seq<byte>) {
    ts != [] ==> IsToken(ts[0], Spell(ts[1..]) + ending) && AreTokens(ts[1..], ending)
  }

  // ---------------------------------------------------------------------------------------
  // What the automaton does on each part
  // ---------------------------------------------------------------------------------------

  lemma {:induction false} ParametersStay(p: seq<byte>)
    requires Within(p, 0x30, 0x3F)
    ensures Run(CsiParam, p) == CsiParam && Emit(CsiParam, p) == []
  {
    if p != [] {
      ParametersStay(p[1..]);
    }
  }

  lemma {:induction false} CsiIntermediatesStay(q: Mode, i: seq<byte>)
    requires (q == CsiParam || q == CsiInter) && Within(i, 0x20, 0x2F)
    ensures Run(q, i) == (if i == [] then q else CsiInter) && Emit(q, i) == []
    decreases |i|
  {
    if i != [] {
      CsiIntermediatesStay(CsiInter, i[1..]);
    }
  }

  lemma {:induction false} EscIntermediatesStay(q: Mode, i: seq<byte>)
    requires (q == Escape || q == EscapeInter) && Within(i, 0x20, 0x2F)
    ensures Run(q, i) == (if i == [] then q else EscapeInter) && Emit(q, i) == []
    decreases |i|
  {
    if i != [] {
      EscIntermediatesStay(EscapeInter, i[1..]);
    }
  }

  lemma {:induction false} OscStays(body: seq<byte>)
    requires Unended(body)
    ensures Run(Osc, body) == Osc && Emit(Osc, body) == []
  {
    if body != [] {
      OscStays(body[1..]);
    }
  }

  lemma {:induction false} StringStays(q: Mode, body: seq<byte>)
    requires Unclosed(body) && (q == Str || (q == StrEsc && (body == [] || body[0] != 0x5C)))
    ensures Run(q, body) in {Str, StrEsc} && Emit(q, body) == []
    decreases |body|
  {
    if body != [] {
      assert body[0] == 0x1B && |body| > 1 ==> body[1..][0] != 0x5C;
      assert forall i :: 0 <= i < |body[1..]| - 1 ==> body[1..][i] == body[i + 1];
      StringStays(Next(q, body[0]), body[1..]);
    }
  }

  lemma RunOne(q: Mode, b: byte)
    ensures Run(q, [b]) == Next(q, b) && Emit(q, [b]) == Out(q, b)
  {
    assert [b][1..] == [];
  }

  /** Two bytes, the first of them an ESC. */
  lemma Opening(b: byte)
    ensures Run(Ground, [0x1B, b]) == Next(Escape, b) && Emit(Ground, [0x1B, b]) == Out(Escape, b)
  {
    assert [0x1B, b] == [0x1B] + [b];
    RunOne(Ground, 0x1B);
    RunOne(Escape, b);
    RunAppend(Ground, [0x1B], [b]);
  }

  /** Two parts without text, one after the other. */
  lemma Silent(q: Mode, a: seq<byte>, b: seq<byte>)
    requires Emit(q, a) == [] && Emit(Run(q, a), b) == []
    ensures Run(q, a + b) == Run(Run(q, a), b) && Emit(q, a + b) == []
  {
    RunAppend(q, a, b);
  }

  lemma CsiRuns(params: seq<byte>, inters: seq<byte>)
    requires Within(params, 0x30, 0x3F) && Within(inters, 0x20, 0x2F)
    ensures var head := [0x1B, 0x5B] + params + inters;
            Emit(Ground, head) == [] && Run(Ground, head) == if inters == [] then CsiParam else CsiInter
  {
    Opening(0x5B);
    ParametersStay(params);
    CsiIntermediatesStay(CsiParam, inters);
    Silent(Ground, [0x1B, 0x5B], params);
    Silent(Ground, [0x1B, 0x5B] + params, inters);
  }

  lemma OscRuns(body: seq<byte>)
    requires Unended(body)
    ensures Emit(Ground, [0x1B, 0x5D] + body) == [] && Run(Ground, [0x1B, 0x5D] + body) == Osc
  {
    Opening(0x5D);
    OscStays(body);
    Silent(Ground, [0x1B, 0x5D], body);
  }

  lemma StringRuns(intro: byte, body: seq<byte>)
    requires OpensString(intro) && Unclosed(body)
    ensures Emit(Ground, [0x1B, intro] + body) == [] && Run(Ground, [0x1B, intro] + body) in {Str, StrEsc}
  {
    Opening(intro);
    StringStays(Str, body);
    Silent(Ground, [0x1B, intro], body);
  }

  lemma PlainRuns(inters: seq<byte>)
    requires Within(inters, 0x20, 0x2F)
    ensures var head := [0x1B] + inters;
            Emit(Ground, head) == [] && Run(Ground, head) == if inters == [] then Escape else EscapeInter
  {
    RunOne(Ground, 0x1B);
    EscIntermediatesStay(Escape, inters);
    Silent(Ground, [0x1B], inters);
  }

  /** ESC and backslash end a string, and an OSC. */
  lemma Terminator(q: Mode)
    requires q in {Osc, Str, StrEsc}
    ensures Emit(q, [0x1B, 0x5C]) == [] && Run(q, [0x1B, 0x5C]) == Ground
  {
    assert [0x1B, 0x5C] == [0x1B] + [0x5C];
    RunOne(q, 0x1B);
    RunOne(Next(q, 0x1B), 0x5C);
    RunAppend(q, [0x1B], [0x5C]);
  }

  /** A token leaves its text, and the rest is read as from the start. */
  lemma TokenRuns(t: Token, rest: seq<byte>)
    requires IsToken(t, rest)
    ensures Emit(Ground, Spelled(t)) == TextOf(t) && Resync(Run(Ground, Spelled(t)), rest)
  {
    match t {
      case Text(b) =>
        RunOne(Ground, b);
      case Csi(params, inters, final) =>
        CsiRuns(params, inters);
        RunOne(Run(Ground, [0x1B, 0x5B] + params + inters), final);
        Silent(Ground, [0x1B, 0x5B] + params + inters, [final]);
      case Operating(body, bel) =>
        OscRuns(body);
        RunOne(Osc, 0x07);
        Terminator(Osc);
        Silent(Ground, [0x1B, 0x5D] + body, if bel then [0x07] else [0x1B, 0x5C]);
      case OperatingCut(body) =>
        OscRuns(body);
      case ControlString(intro, body) =>
        StringRuns(intro, body);
        Terminator(Run(Ground, [0x1B, intro] + body));
        Silent(Ground, [0x1B, intro] + body, [0x1B, 0x5C]);
      case Plain(inters, final) =>
        PlainRuns(inters);
        RunOne(Run(Ground, [0x1B] + inters), final);
        Silent(Ground, [0x1B] + inters, [final]);
      case PlainCut(inters) =>
        PlainRuns(inters);
    }
  }

  // ---------------------------------------------------------------------------------------
  // Stripping leaves the text
  // ---------------------------------------------------------------------------------------

  /** Whatever follows: a token is stripped down to its text, and what follows is stripped on its own. */
  lemma TokenStripped(t: Token, rest: seq<byte>)
    requires IsToken(t, rest)
    ensures Stripped(Spelled(t) + rest) == TextOf(t) + Stripped(rest)
  {
    TokenRuns(t, rest);
    RunAppend(Ground, Spelled(t), rest);
    ResyncRun(Run(Ground, Spelled(t)), rest);
  }

  lemma BadByte(q: Mode, more: seq<byte>)
    requires q == CsiParam || q == CsiInter
    requires more != [] && (more[0] < 0x20 || more[0] > 0x7E || (q == CsiInter && 0x30 <= more[0] <= 0x3F))
    ensures Run(q, more) == CsiBad && Emit(q, more) == []
  {
    StuckCsi(more[1..]);
  }

  lemma Associative<T>(a: seq<T>, b: seq<T>, c: seq<T>)
    ensures (a + b) + c == a + (b + c)
  {
  }

  lemma OpenCsiParts(params: seq<byte>, inters: seq<byte>, more: seq<byte>)
    requires Within(params, 0x30, 0x3F) && Within(inters, 0x20, 0x2F)
    requires more != [] ==> more[0] < 0x20 || more[0] > 0x7E || (inters != [] && 0x30 <= more[0] <= 0x3F)
    ensures Stripped([0x1B, 0x5B] + params + inters + more) == []
  {
    var head := [0x1B, 0x5B] + params + inters;
    CsiRuns(params, inters);
    if more != [] {
      BadByte(Run(Ground, head), more);
    }
    Silent(Ground, head, more);
  }

  lemma OpenCsiRuns(body: seq<byte>)
    requires IsOpenCsi(body)
    ensures Stripped([0x1B, 0x5B] + body) == []
  {
    var params: seq<byte>, inters: seq<byte>, more: seq<byte> :|
      && body == params + inters + more
      && Within(params, 0x30, 0x3F) && Within(inters, 0x20, 0x2F)
      && (more != [] ==> more[0] < 0x20 || more[0] > 0x7E || (inters != [] && 0x30 <= more[0] <= 0x3F));
    var opening: seq<byte> := [0x1B, 0x5B];
    OpenCsiParts(params, inters, more);
    Associative(opening, params, inters);
    Associative(opening, params + inters, more);
  }

  /** The end of the stream shows nothing, but for a lone ESC. */
  lemma EndingStripped(e: seq<byte>)
    requires IsEnding(e)
    ensures Stripped(e) == if e == [0x1B] then [0x1B] else []
  {
    if e == [0x1B] {
      RunOne(Ground, 0x1B);
    } else if e != [] {
      var body := e[2..];
      assert e == [0x1B, e[1]] + body;
      if e[1] == 0x5B {
        OpenCsiRuns(body);
      } else if e[1] == 0x5D {
        OscRuns(body);
      } else if OpensString(e[1]) {
        StringRuns(e[1], body);
      } else {
        assert e == [0x1B] + ([e[1]] + body);
        PlainRuns([e[1]] + body);
      }
    }
  }

  lemma SpellFirst(ts: seq<Token>, ending: seq<byte>, last: seq<byte>)
    requires ts != []
    ensures Spell(ts) + ending == Spelled(ts[0]) + (Spell(ts[1..]) + ending)
    ensures AllText(ts) + last == TextOf(ts[0]) + (AllText(ts[1..]) + last)
  {
    Associative(Spelled(ts[0]), Spell(ts[1..]), ending);
    Associative(TextOf(ts[0]), AllText(ts[1..]), last);
  }

  lemma ConsTokens(t: Token, more: seq<Token>, ending: seq<byte>)
    requires IsToken(t, Spell(more) + ending) && AreTokens(more, ending)
    ensures AreTokens([t] + more, ending) && Spell([t] + more) + ending == Spelled(t) + (Spell(more) + ending)
  {
    assert ([t] + more)[1..] == more;
    SpellFirst([t] + more, ending, []);
  }

  /** Stripping a stream leaves its text bytes, in order, and a lone ESC at its end. */
  lemma {:induction false} StrippedIsTheText(ts: seq<Token>, ending: seq<byte>)
    requires AreTokens(ts, ending) && IsEnding(ending)
    ensures Stripped(Spell(ts) + ending) == AllText(ts) + if ending == [0x1B] then [0x1B] else []
  {
    if ts == [] {
      EndingStripped(ending);
      assert Spell(ts) + ending == ending;
    } else {
      StrippedIsTheText(ts[1..], ending);
      TokenStripped(ts[0], Spell(ts[1..]) + ending);
      SpellFirst(ts, ending, if ending == [0x1B] then [0x1B] else []);
    }
  }

  // ---------------------------------------------------------------------------------------
  // Every stream is of this grammar
  // ---------------------------------------------------------------------------------------

  /** How far the bytes at the start of `s` stay in a range. */
  lemma {:induction false} LongestRun(s: seq<byte>, low: int, high: int) returns (n: nat)
    ensures n <= |s| && Within(s[..n], low, high)
    ensures n < |s| ==> s[n] < low || s[n] > high
  {
    if s == [] || s[0] < low || s[0] > high {
      n := 0;
    } else {
      n := LongestRun(s[1..], low, high);
      assert s[..n + 1] == [s[0]] + s[1..][..n];
      n := n + 1;
    }
  }

  lemma {:induction false} UntilEnded(s: seq<byte>) returns (n: nat)
    ensures n <= |s| && Unended(s[..n])
    ensures n < |s| ==> s[n] == 0x07 || s[n] == 0x1B
  {
    if s == [] || s[0] == 0x07 || s[0] == 0x1B {
      n := 0;
    } else {
      n := UntilEnded(s[1..]);
      assert s[..n + 1] == [s[0]] + s[1..][..n];
      n := n + 1;
    }
  }

  lemma {:induction false} UntilClosed(s: seq<byte>) returns (n: nat)
    ensures n <= |s| && Unclosed(s[..n])
    ensures n < |s| ==> n + 1 < |s| && s[n] == 0x1B && s[n + 1] == 0x5C
  {
    if s == [] || (|s| > 1 && s[0] == 0x1B && s[1] == 0x5C) {
      n := 0;
    } else {
      n := UntilClosed(s[1..]);
      assert s[..n + 1] == [s[0]] + s[1..][..n];
      n := n + 1;
    }
  }

  /** The first token of `s`, or the whole of `s` as an ending. */
  ghost predicate Starts(s: seq<byte>, t: Option<Token>) {
    if t.None? then IsEnding(s)
    else Spelled(t.value) <= s && Spelled(t.value) != [] && IsToken(t.value, s[|Spelled(t.value)|..])
  }

  lemma FirstCsi(s: seq<byte>) returns (t: Option<Token>)
    requires |s| >= 2 && s[0] == 0x1B && s[1] == 0x5B
    ensures Starts(s, t)
  {
    var body := s[2..];
    var n := LongestRun(body, 0x30, 0x3F);
    var params, after := body[..n], body[n..];
    var m := LongestRun(after, 0x20, 0x2F);
    var inters, more := after[..m], after[m..];
    assert body == params + inters + more;
    if more != [] && 0x40 <= more[0] <= 0x7E {
      t := Some(Csi(params, inters, more[0]));
      assert s == Spelled(t.value) + more[1..];
    } else {
      t := None;
      assert more != [] ==> more[0] == after[m];
      assert m == 0 && more != [] ==> more[0] == body[n];
      assert IsOpenCsi(body);
    }
  }

  lemma FirstOsc(s: seq<byte>) returns (t: Option<Token>)
    requires |s| >= 2 && s[0] == 0x1B && s[1] == 0x5D
    ensures Starts(s, t)
  {
    var body := s[2..];
    var n := UntilEnded(body);
    var head, rest := body[..n], body[n..];
    assert s == [0x1B, 0x5D] + head + rest;
    if rest == [] {
      t := None;
      assert head == body;
    } else {
      assert rest[0] == body[n];
      t := OscEnds(head, rest);
    }
  }

  lemma OscEnds(head: seq<byte>, rest: seq<byte>) returns (t: Option<Token>)
    requires Unended(head) && rest != [] && (rest[0] == 0x07 || rest[0] == 0x1B)
    ensures t.Some? && Starts([0x1B, 0x5D] + head + rest, t)
  {
    var s := [0x1B, 0x5D] + head + rest;
    if rest[0] == 0x07 {
      t := Some(Operating(head, true));
      assert s == Spelled(t.value) + rest[1..];
    } else if |rest| > 1 && rest[1] == 0x5C {
      t := Some(Operating(head, false));
      assert s == Spelled(t.value) + rest[2..];
    } else {
      t := Some(OperatingCut(head));
      assert s[|Spelled(t.value)|..] == rest;
    }
  }

  lemma FirstString(s: seq<byte>) returns (t: Option<Token>)
    requires |s| >= 2 && s[0] == 0x1B && OpensString(s[1])
    ensures Starts(s, t)
  {
    var body := s[2..];
    var n := UntilClosed(body);
    if n == |body| {
      t := None;
      assert body[..n] == body;
    } else {
      t := Some(ControlString(s[1], body[..n]));
      assert s == Spelled(t.value) + body[n + 2..];
    }
  }

  lemma FirstPlain(s: seq<byte>) returns (t: Option<Token>)
    requires |s| >= 2 && s[0] == 0x1B && s[1] != 0x5B && s[1] != 0x5D && !OpensString(s[1])
    ensures Starts(s, t)
  {
    var n := LongestRun(s[1..], 0x20, 0x2F);
    var inters, rest := s[1..][..n], s[1..][n..];
    assert s == [0x1B] + inters + rest;
    if rest == [] {
      t := None;
      assert [s[1]] + s[2..] == inters;
    } else if 0x30 <= rest[0] <= 0x7E {
      t := Some(Plain(inters, rest[0]));
      assert s == Spelled(t.value) + rest[1..];
    } else {
      t := Some(PlainCut(inters));
      assert s[|Spelled(t.value)|..] == rest;
    }
  }

  lemma FirstToken(s: seq<byte>) returns (t: Option<Token>)
    ensures Starts(s, t)
  {
    if s == [] {
      t := None;
    } else if s[0] != 0x1B {
      t := Some(Text(s[0]));
    } else if |s| == 1 {
      t := None;
      assert s == [0x1B];
    } else if s[1] == 0x5B {
      t := FirstCsi(s);
    } else if s[1] == 0x5D {
      t := FirstOsc(s);
    } else if OpensString(s[1]) {
      t := FirstString(s);
    } else {
      t := FirstPlain(s);
    }
  }

  /** `s` is these tokens and this ending. */
  ghost predicate Parses(s: seq<byte>, ts: seq<Token>, ending: seq<byte>) {
    Spell(ts) + ending == s && AreTokens(ts, ending) && IsEnding(ending)
  }

  lemma EndingParses(s: seq<byte>)
    requires IsEnding(s)
    ensures Parses(s, [], s)
  {
  }

  lemma {:induction false} TokenParses(s: seq<byte>, t: Token, more: seq<Token>, ending: seq<byte>)
    requires Starts(s, Some(t)) && Parses(s[|Spelled(t)|..], more, ending)
    ensures Parses(s, [t] + more, ending)
  {
    ConsTokens(t, more, ending);
    assert s == s[..|Spelled(t)|] + s[|Spelled(t)|..];
  }

  lemma {:induction false} EveryStreamIsTokens(s: seq<byte>) returns (ts: seq<Token>, ending: seq<byte>)
    ensures Parses(s, ts, ending)
    decreases |s|
  {
    var first := FirstToken(s);
    if first.None? {
      ts, ending := [], s;
      EndingParses(s);
    } else {
      var more;
      more, ending := EveryStreamIsTokens(s[|Spelled(first.value)|..]);
      ts := [first.value] + more;
      TokenParses(s, first.value, more, ending);
    }
  }

  /** For every stream: it is tokens and an ending, and stripping it leaves just the text of the tokens and a
  lone ESC at the end. */
  lemma StrippingMeansText(s: seq<byte>) returns (ts: seq<Token>, ending: seq<byte>)
    ensures Spell(ts) + ending == s && AreTokens(ts, ending) && IsEnding(ending)
    ensures Stripped(s) == AllText(ts) + if ending == [0x1B] then [0x1B] else []
  {
    ts, ending := EveryStreamIsTokens(s);
    StrippedIsTheText(ts, ending);
  }

  /** Bytes without an ESC are all text. */
  lemma {:induction false} TextIsKept(s: seq<byte>)
    requires forall i :: 0 <= i < |s| ==> s[i] != 0x1B
    ensures Stripped(s) == s
  {
    if s != [] {
      TextIsKept(s[1..]);
      TokenStripped(Text(s[0]), s[1..]);
      assert [s[0]] + s[1..] == s;
    }
  }

  /** Showing and hiding the cursor, as almost every program does, leaves the text between. */
  lemma PrivateModesAreStripped(t: seq<byte>)
    ensures Stripped([0x1B, 0x5B, 0x3F, 0x32, 0x35, 0x68] + t) == Stripped(t)
  {
    var token := Csi([0x3F, 0x32, 0x35], [], 0x68);
    assert Spelled(token) == [0x1B, 0x5B, 0x3F, 0x32, 0x35, 0x68];
    TokenStripped(token, t);
  }
}
