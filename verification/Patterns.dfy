/** Finding a pattern in output bytes (`match_pattern` and `find_subslice` in src/domain/output.rs). */
module Patterns {
  import opened Bytes

  datatype Match = Match(start: nat, end: nat)

  /** The compiled regular expression, if the pattern is one (any function of a text here), and the pattern
  as plain bytes. */
  datatype Pattern = Pattern(regex: Option<seq<byte> -> Option<Match>>, plain: seq<byte>)

  // ---------------------------------------------------------------------------------------
  // UTF-8, as section 4 of RFC 3629 has it
  // ---------------------------------------------------------------------------------------

  predicate IsContinuation(b: byte) { 0x80 <= b <= 0xBF }

  /** The byte after `lead` may be a continuation: no overlong forms, no surrogates, nothing above U+10FFFF. */
  predicate MayFollow(lead: byte, b: byte) {
    && IsContinuation(b)
    && (lead == 0xE0 ==> b >= 0xA0)
    && (lead == 0xED ==> b <= 0x9F)
    && (lead == 0xF0 ==> b >= 0x90)
    && (lead == 0xF4 ==> b <= 0x8F)
  }

  /** How many bytes the character takes that `lead` begins; 0 when it begins none. */
  function CharLength(lead: byte): nat {
    if lead < 0x80 then 1
    else if 0xC2 <= lead <= 0xDF then 2
    else if 0xE0 <= lead <= 0xEF then 3
    else if 0xF0 <= lead <= 0xF4 then 4
    else 0
  }

  predicate ValidUtf8(s: seq<byte>) {
    s == [] ||
    var n := CharLength(s[0]);
    && 0 < n <= |s|
    && (n > 1 ==> MayFollow(s[0], s[1]))
    && (forall i :: 2 <= i < n ==> IsContinuation(s[i]))
    && ValidUtf8(s[n..])
  }

  // ---------------------------------------------------------------------------------------
  // Matching
  // ---------------------------------------------------------------------------------------

  predicate OccursAt(data: seq<byte>, sub: seq<byte>, pos: nat) {
    pos + |sub| <= |data| && data[pos..pos + |sub|] == sub
  }

  /** The leftmost occurrence. */
  method FindSubslice(data: seq<byte>, sub: seq<byte>) returns (pos: Option<nat>)
    ensures pos.Some? ==> OccursAt(data, sub, pos.value) && forall i :: 0 <= i < pos.value ==> !OccursAt(data, sub, i)
    ensures pos.None? ==> forall i: nat :: !OccursAt(data, sub, i)
  {
    if sub == [] {
      return Some(0);
    }
    var i := 0;
    while i + |sub| <= |data|
      invariant forall k :: 0 <= k < i ==> !OccursAt(data, sub, k)
    {
      if data[i..i + |sub|] == sub {
        return Some(i);
      }
      i := i + 1;
    }
    pos := None;
  }

  predicate InRange(m: Option<Match>, data: seq<byte>) {
    m.Some? && m.value.start <= m.value.end <= |data|
  }

  /** What the regular expression finds: nothing when there is none, or in bytes that are no text. */
  function RegexMatch(data: seq<byte>, p: Pattern): Option<Match> {
    if p.regex.Some? && ValidUtf8(data) then p.regex.value(data) else None
  }

  /** The regular expression's match, or else the leftmost occurrence of the plain pattern. */
  ghost predicate IsMatch(data: seq<byte>, p: Pattern, m: Option<Match>) {
    if InRange(RegexMatch(data, p), data) then m == RegexMatch(data, p)
    else if m.None? then forall i: nat :: !OccursAt(data, p.plain, i)
    else
      && m.value.end == m.value.start + |p.plain|
      && OccursAt(data, p.plain, m.value.start)
      && forall i :: 0 <= i < m.value.start ==> !OccursAt(data, p.plain, i)
  }

  method MatchPattern(data: seq<byte>, p: Pattern) returns (m: Option<Match>)
    ensures IsMatch(data, p, m)
    ensures m.Some? ==> InRange(m, data)
  {
    if p.regex.Some? && ValidUtf8(data) {
      m := p.regex.value(data);
      if InRange(m, data) {
        return;
      }
    }
    var pos := FindSubslice(data, p.plain);
    m := match pos case None => None case Some(i) => Some(Match(i, i + |p.plain|));
  }
}
