/** String operations of the two standard libraries, on strings that hold one char per byte. */
module Text {
  import opened Options

  predicate HasAt(s: string, i: int, pat: string) {
    0 <= i && i + |pat| <= |s| && s[i..i+|pat|] == pat
  }

  /** The first occurrence of `pat` at or after `from`, or -1. */
  function IndexOf(s: string, pat: string, from: nat): (r: int)
    ensures r >= 0 ==> from <= r && HasAt(s, r, pat) && forall i :: from <= i < r ==> !HasAt(s, i, pat)
    ensures r < 0 ==> r == -1 && forall i :: from <= i ==> !HasAt(s, i, pat)
    decreases |s| - from
  {
    if from + |pat| > |s| then -1
    else if HasAt(s, from, pat) then from
    else IndexOf(s, pat, from + 1)
  }

  predicate Contains(s: string, pat: string) { IndexOf(s, pat, 0) >= 0 }

  /** Index of the first c, or the length. */
  function Until(s: string, c: char): (i: nat)
    ensures i <= |s| && (i < |s| ==> s[i] == c)
  {
    if s == "" || s[0] == c then 0 else 1 + Until(s[1..], c)
  }

  lemma {:induction false} NoneBefore(s: string, c: char)
    ensures forall k :: 0 <= k < Until(s, c) ==> s[k] != c
  {
    if s != "" && s[0] != c { NoneBefore(s[1..], c); }
  }

  lemma {:induction false} UntilIs(s: string, i: nat, c: char)
    requires i < |s| && s[i] == c && forall k :: 0 <= k < i ==> s[k] != c
    ensures Until(s, c) == i
  {
    if i > 0 { UntilIs(s[1..], i - 1, c); }
  }

  function UpperChar(c: char): char {
    if 'a' <= c <= 'z' then (c as int - 32) as char else c
  }

  function LowerChar(c: char): char {
    if 'A' <= c <= 'Z' then (c as int + 32) as char else c
  }

  function Upper(s: string): string { seq(|s|, i requires 0 <= i < |s| => UpperChar(s[i])) }

  function Lower(s: string): string { seq(|s|, i requires 0 <= i < |s| => LowerChar(s[i])) }

  /** `\s` in the sources' patterns. */
  predicate Blank(c: char) { c == ' ' || '\t' <= c <= '\r' }

  datatype Lang = Go | Kotlin

  /** White space that TrimSpace and trim drop from a text of one char per byte. Kotlin also takes the separators 0x1c
      to 0x1f and the no-break space. */
  predicate IsSpace(c: char, lang: Lang) {
    Blank(c) || (lang.Kotlin? && ('\U{1c}' <= c <= '\U{1f}' || c == '\U{a0}'))
  }

  const CAPITALS := "ABCDEFGHIJKLMNOPQRSTUVWXYZ"
  const SMALL := "abcdefghijklmnopqrstuvwxyz"

  /** The letters have two cases, and no other character has. */
  lemma CasesAre(c: char)
    ensures Upper(SMALL) == CAPITALS && Lower(CAPITALS) == SMALL
    ensures (UpperChar(c) != c <==> 'a' <= c <= 'z') && (LowerChar(c) != c <==> 'A' <= c <= 'Z')
  {
  }

  lemma SpacesAre(c: char)
    ensures IsSpace(c, Go) <==> c in "\t\n\U{b}\U{c}\r "
    ensures IsSpace(c, Kotlin) <==> c in "\t\n\U{b}\U{c}\r \U{1c}\U{1d}\U{1e}\U{1f}\U{a0}"
  {
  }

  function TrimLeft(s: string, lang: Lang): string {
    if s != [] && IsSpace(s[0], lang) then TrimLeft(s[1..], lang) else s
  }

  function TrimRight(s: string, lang: Lang): string {
    if s != [] && IsSpace(s[|s|-1], lang) then TrimRight(s[..|s|-1], lang) else s
  }

  function Trim(s: string, lang: Lang): string { TrimRight(TrimLeft(s, lang), lang) }

  /** TrimLeft drops exactly the leading spaces. */
  lemma {:induction false} TrimLeftIs(s: string, lang: Lang)
    ensures var r := TrimLeft(s, lang);
            && |r| <= |s| && s[|s|-|r|..] == r && (r != [] ==> !IsSpace(r[0], lang))
            && forall i :: 0 <= i < |s| - |r| ==> IsSpace(s[i], lang)
  {
    if s != [] && IsSpace(s[0], lang) {
      TrimLeftIs(s[1..], lang);
      var r := TrimLeft(s, lang);
      assert s[|s|-|r|..] == s[1..][|s|-1-|r|..];
      forall i | 0 <= i < |s| - |r| ensures IsSpace(s[i], lang) {
        assert i > 0 ==> s[i] == s[1..][i-1];
      }
    }
  }

  /** TrimRight drops exactly the trailing spaces. */
  lemma {:induction false} TrimRightIs(s: string, lang: Lang)
    ensures var r := TrimRight(s, lang);
            r <= s && (r != [] ==> !IsSpace(r[|r|-1], lang)) && forall i :: |r| <= i < |s| ==> IsSpace(s[i], lang)
  {
    if s != [] && IsSpace(s[|s|-1], lang) { TrimRightIs(s[..|s|-1], lang); }
  }

  lemma {:induction false} TrimAgain(s: string, lang: Lang)
    ensures Trim(Trim(s, lang), lang) == Trim(s, lang)
  {
    var t := TrimLeft(s, lang);
    var r := TrimRight(t, lang);
    TrimLeftIs(s, lang);
    TrimRightIs(t, lang);
    if r != [] { assert r[0] == t[0]; }
    assert TrimLeft(r, lang) == r;
  }

  /** What Go trims a text to does not begin or end with a character that only Kotlin trims. */
  predicate TrimmedAlike(s: string) {
    var t := Trim(s, Go); t != "" ==> !IsSpace(t[0], Kotlin) && !IsSpace(t[|t|-1], Kotlin)
  }

  lemma {:induction false} GoTrimsLess(s: string)
    ensures TrimLeft(TrimLeft(s, Go), Kotlin) == TrimLeft(s, Kotlin)
  {
    if s != [] && IsSpace(s[0], Go) { GoTrimsLess(s[1..]); }
  }

  lemma {:induction false} GoTrimsLessRight(s: string)
    ensures TrimRight(TrimRight(s, Go), Kotlin) == TrimRight(s, Kotlin)
  {
    if s != [] && IsSpace(s[|s|-1], Go) { GoTrimsLessRight(s[..|s|-1]); }
  }

  lemma TrimsAgreeIff(s: string)
    ensures Trim(s, Go) == Trim(s, Kotlin) <==> TrimmedAlike(s)
  {
    var u := TrimLeft(s, Go);
    TrimLeftIs(s, Go);
    TrimRightIs(u, Go);
    TrimLeftIs(s, Kotlin);
    TrimRightIs(TrimLeft(s, Kotlin), Kotlin);
    GoTrimsLess(s);
    GoTrimsLessRight(u);
  }

  /** Trimming drops exactly the white space around. */
  lemma TrimIs(x: string, t: string, y: string, lang: Lang)
    requires (forall k :: 0 <= k < |x| ==> IsSpace(x[k], lang)) && (forall k :: 0 <= k < |y| ==> IsSpace(y[k], lang))
    requires t != "" ==> !IsSpace(t[0], lang) && !IsSpace(t[|t|-1], lang)
    ensures Trim(x + t + y, lang) == t
  {
    var s := x + t + y;
    var r := TrimLeft(s, lang);
    TrimLeftIs(s, lang);
    TrimRightIs(r, lang);
    var d := |s| - |r|;
    assert forall k :: 0 <= k < |r| ==> r[k] == s[d+k];
    if t != "" {
      assert s[|x|] == t[0];
      assert d == |x| && r == t + y;
      assert r[|t|-1] == t[|t|-1];
    }
  }

  /** Drops trailing chars that are in `cut`. */
  function CutRight(s: string, cut: string): (r: string)
    ensures r != [] ==> r[|r|-1] !in cut
    ensures r <= s && forall i :: |r| <= i < |s| ==> s[i] in cut
  {
    if s != [] && s[|s|-1] in cut then CutRight(s[..|s|-1], cut) else s
  }

  lemma HasAtChar(s: string, i: int, pat: string, k: nat)
    requires HasAt(s, i, pat) && k < |pat|
    ensures s[i+k] == pat[k]
  {
    assert s[i..i+|pat|][k] == s[i+k];
  }

  function Join(parts: seq<string>, sep: string): string {
    if parts == [] then ""
    else if |parts| == 1 then parts[0]
    else parts[0] + sep + Join(parts[1..], sep)
  }

  /** The last occurrence of `pat` starting before `before`, or -1. */
  function LastIndexOf(s: string, pat: string, before: nat): (r: int)
    ensures r >= 0 ==> r < before && HasAt(s, r, pat) && forall i :: r < i < before ==> !HasAt(s, i, pat)
    ensures r < 0 ==> r == -1 && forall i :: i < before ==> !HasAt(s, i, pat)
  {
    if before == 0 then -1
    else if HasAt(s, before - 1, pat) then before - 1
    else LastIndexOf(s, pat, before - 1)
  }

  function Concat(parts: seq<string>): string {
    if parts == [] then "" else parts[0] + Concat(parts[1..])
  }

  /** Printable ASCII. */
  predicate Printable(c: char) { '\U{20}' <= c <= '\U{7e}' }

  /** Drops trailing spaces. */
  function CutSpaces(s: string): string {
    if s != "" && s[|s|-1] == ' ' then CutSpaces(s[..|s|-1]) else s
  }

  lemma {:induction false} CutSpacesIs(s: string)
    ensures var r := CutSpaces(s);
            r <= s && (r != "" ==> r[|r|-1] != ' ') && forall i :: |r| <= i < |s| ==> s[i] == ' '
  {
    if s != "" && s[|s|-1] == ' ' { CutSpacesIs(s[..|s|-1]); }
  }

  lemma Regroup<T>(a: seq<T>, x: T, b: seq<T>)
    ensures a + ([x] + b) == (a + [x]) + b
  {
  }

  lemma Associates<T>(a: seq<T>, b: seq<T>, c: seq<T>)
    ensures (a + b) + c == a + (b + c)
  {
  }
}
