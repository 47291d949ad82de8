/** Text helpers of XmlText.kt: where the XML of a reply starts and whether its root element is closed. */
module XmlText {
  import opened Numerals
  import opened Options
  import opened Text

  // ---------------------------------------------------------------- FOOTER

  predicate WordChar(c: char) { 'a' <= c <= 'z' || 'A' <= c <= 'Z' || '0' <= c <= '9' || c == '_' }

  predicate BoundaryBefore(b: string, i: int) { 0 < i <= |b| && !WordChar(b[i-1]) }

  /** Length of the run of decimal digits at `i`. */
  function Digits(b: string, i: nat): (n: nat)
    requires i <= |b|
    ensures i + n <= |b| && forall k :: i <= k < i + n ==> '0' <= b[k] <= '9'
    ensures i + n == |b| || !('0' <= b[i+n] <= '9')
    decreases |b| - i
  {
    if i < |b| && '0' <= b[i] <= '9' then 1 + Digits(b, i + 1) else 0
  }

  /** `No="digits"` at `i`: the end of the match, or -1. */
  function NoAt(b: string, i: nat): (r: int)
    ensures r >= 0 ==> i < r <= |b|
  {
    if BoundaryBefore(b, i) && HasAt(Upper(b), i, "NO=\"") && Digits(b, i + 4) > 0
       && HasAt(b, i + 4 + Digits(b, i + 4), "\"")
    then i + 5 + Digits(b, i + 4) else -1
  }

  predicate EotAt(b: string, i: nat) {
    && BoundaryBefore(b, i) && HasAt(Upper(b), i, "EOT=\"") && i + 6 < |b|
    && (b[i+5] == '0' || b[i+5] == '1') && b[i+6] == '"'
  }

  /** The greedy match takes the last EOT, and the last No that has an EOT after it. */
  function LastEot(b: string, from: nat, before: nat): (r: int)
    ensures r >= 0 ==> from <= r < before && EotAt(b, r)
  {
    if before <= from then -1 else if EotAt(b, before - 1) then before - 1 else LastEot(b, from, before - 1)
  }

  function LastNo(b: string, before: nat): (r: int)
    ensures r >= 0 ==> r < before && NoAt(b, r) >= 0 && LastEot(b, NoAt(b, r), |b|) >= 0
  {
    if before == 0 then -1
    else if NoAt(b, before - 1) >= 0 && LastEot(b, NoAt(b, before - 1), |b|) >= 0 then before - 1
    else LastNo(b, before - 1)
  }

  /** Body of a tag, between '<' and '>', that FOOTER accepts. */
  predicate FooterBody(b: string) {
    && ((HasAt(Upper(b), 0, "FOOT") && (|b| == 4 || !WordChar(b[4])))
        || (HasAt(Upper(b), 0, "FOOTER") && (|b| == 6 || !WordChar(b[6]))))
    && LastNo(b, |b|) >= 0
  }

  /** The end of a FOOTER match starting at `i`, or -1. */
  function FooterAt(s: string, i: nat): (r: int)
    ensures r >= 0 ==> i < r - 1 < |s| && s[i] == '<' && FooterBody(s[i+1..r-1])
  {
    if i < |s| && s[i] == '<' && IndexOf(s, ">", i + 1) >= 0 && FooterBody(s[i+1..IndexOf(s, ">", i + 1)])
    then IndexOf(s, ">", i + 1) + 1 else -1
  }

  /** FOOTER.replace(s, ""), from position `i` on. */
  function StripFooters(s: string, i: nat := 0): string
    requires i <= |s|
    decreases |s| - i
  {
    if i == |s| then ""
    else if FooterAt(s, i) >= 0 then StripFooters(s, FooterAt(s, i))
    else [s[i]] + StripFooters(s, i + 1)
  }

  // ---------------------------------------------------------------- ROOT

  predicate NameStart(c: char) { 'a' <= c <= 'z' || 'A' <= c <= 'Z' || c == '_' || c == ':' }

  predicate NameChar(c: char) { NameStart(c) || '0' <= c <= '9' || c == '.' || c == '-' }

  function NameEnd(s: string, i: nat): (r: nat)
    requires i <= |s|
    ensures i <= r <= |s| && (r == |s| || !NameChar(s[r])) && forall k :: i <= k < r ==> NameChar(s[k])
    decreases |s| - i
  {
    if i < |s| && NameChar(s[i]) then NameEnd(s, i + 1) else i
  }

  /** The end of a ROOT match starting at `i`, or -1: a name, then '>' or a space and no '>' before the '>'. */
  function RootAt(s: string, i: nat): (r: int)
    ensures r >= 0 ==> i + 2 < r <= |s| && s[i] == '<' && s[r-1] == '>'
  {
    if i + 1 < |s| && s[i] == '<' && NameStart(s[i+1]) then
      var e := NameEnd(s, i + 1);
      if e < |s| && s[e] == '>' then e + 1
      else if e < |s| && Blank(s[e]) && IndexOf(s, ">", e) >= 0 then IndexOf(s, ">", e) + 1
      else -1
    else -1
  }

  /** ROOT.find: the start of the first match at or after `i`, or -1. */
  function FindRoot(s: string, i: nat): (r: int)
    requires i <= |s|
    ensures r >= 0 ==> i <= r < |s| && RootAt(s, r) >= 0
    ensures forall k :: i <= k < (if r >= 0 then r else |s|) ==> RootAt(s, k) < 0
    decreases |s| - i
  {
    if i == |s| then -1 else if RootAt(s, i) >= 0 then i else FindRoot(s, i + 1)
  }

  function ExtractXml(s: string): string {
    if IndexOf(s, "<?xml", 0) >= 0 then s[IndexOf(s, "<?xml", 0)..]
    else
      var m := IndexOf(Upper(s), ",<XML>,", 0);
      var t := if m >= 0 then s[m+7..] else s;
      if FindRoot(t, 0) >= 0 then t[FindRoot(t, 0)..] else t
  }

  // ---------------------------------------------------------------- one datagram

  /** The first tag and what it encloses; `close` closes it. */
  datatype Parts = Parts(open: string, close: string, inner: string)

  ghost predicate Usable(p: Parts) { |p.open| > 2 && p.open[0] == '<' && |p.close| > 2 }

  /** `x` without an XML declaration and blanks around it. */
  function DropDeclaration(x: string, lang: Lang): string {
    if HasAt(x, 0, "<?xml") && IndexOf(x, "?>", 0) >= 0 then Trim(x[IndexOf(x, "?>", 0)+2..], lang) else x
  }

  function PartsIn(x: string): (r: Option<Parts>)
    ensures r.Some? ==> Usable(r.value)
  {
    var i := FindRoot(x, 0);
    if i < 0 then None
    else
      var e := RootAt(x, i);
      var close := "</" + x[i+1..NameEnd(x, i + 1)] + ">";
      var end := LastIndexOf(x, close, |x|);
      Some(Parts(x[i..e], close, if end < e then "" else x[e..end]))
  }

  function PartsOf(xml: string, lang: Lang): (r: Option<Parts>)
    ensures r.Some? ==> Usable(r.value)
  {
    PartsIn(DropDeclaration(Trim(StripFooters(ExtractXml(xml)), lang), lang))
  }

  /** A numbered fragment, or lines. `bare` is the XML without footers. Kotlin does not take a number beyond Int; Go
      takes one beyond int64 for the greatest of them. */
  datatype Datagram =
    | Fragment(no: nat, eot: bool, parts: Option<Parts>, bare: string)
    | Unnumbered
    | Plain(text: string)

  function FindFooter(s: string, i: nat): (r: int)
    requires i <= |s|
    ensures r >= 0 ==> i <= r < |s| && FooterAt(s, r) >= 0
    decreases |s| - i
  {
    if i == |s| then -1 else if FooterAt(s, i) >= 0 then i else FindFooter(s, i + 1)
  }

  /** The two groups of a FOOTER match, from the body of its tag: its number and whether EOT is 1. */
  function Groups(b: string): (nat, bool)
    requires FooterBody(b)
  {
    var p := LastNo(b, |b|);
    var q := LastEot(b, NoAt(b, p), |b|);
    var no := Value(b[p+4..p+4+Digits(b, p + 4)]);
    (if no.Some? then no.value else 0, b[q+5] == '1')
  }

  function FooterGroups(text: string, f: nat): (nat, bool)
    requires f <= |text| && FooterAt(text, f) >= 0
  {
    Groups(text[f+1..FooterAt(text, f)-1])
  }

  function Numbered(no: nat, eot: bool, xml: string, lang: Lang): (d: Datagram)
    ensures d.Fragment? && d.parts.Some? ==> Usable(d.parts.value)
  {
    if lang.Kotlin? && no > INT32_MAX then Unnumbered
    else Fragment(if no > INT64_MAX then INT64_MAX else no, eot, PartsOf(xml, lang), StripFooters(xml))
  }

  /** What either program takes a datagram for. */
  function Classify(datagram: string, lang: Lang): (d: Datagram)
    ensures d.Fragment? && d.parts.Some? ==> Usable(d.parts.value)
  {
    var text := CutRight(datagram, "\0");
    var f := FindFooter(text, 0);
    if f < 0 then Plain(text)
    else
      var (no, eot) := FooterGroups(text, f);
      Numbered(no, eot, ExtractXml(text), lang)
  }

  // ---------------------------------------------------------------- isComplete

  function TagEnd(x: string, j: nat): (r: nat)
    requires j <= |x|
    ensures j <= r <= |x|
    decreases |x| - j
  {
    if j < |x| && !IsSpace(x[j], Kotlin) && x[j] != '>' && x[j] != '/' then TagEnd(x, j + 1) else j
  }

  /** Name of the first element from `i` on, skipping declarations and comments. */
  function RootName(x: string, i: nat := 0): (r: Option<string>)
    ensures r.Some? ==> '<' in x
    decreases |x| - i
  {
    var lt := IndexOf(x, "<", i);
    if lt < 0 || lt + 1 >= |x| then None
    else if x[lt+1] == '?' || x[lt+1] == '!' then RootName(x, lt + 1)
    else
      assert x[lt..lt+1] == "<" && x[lt] == '<';
      var name := x[lt+1..TagEnd(x, lt + 1)];
      if name == "" then None else Some(name)
  }

  /** `<root\b[^>]*\/>` at `i`: the end of the match, or -1. */
  function SelfClosedAt(x: string, root: string, i: nat): (r: int)
    ensures r >= 0 ==> r <= |x|
  {
    var g := IndexOf(x, ">", i);
    if HasAt(x, i, "<" + root) && g > i + |root| + 1 && x[g-1] == '/'
       && WordChar(x[i+|root|+1]) != (root != "" && WordChar(root[|root|-1]))
    then g + 1 else -1
  }

  function SelfClosed(x: string, root: string, i: nat): (r: int)
    requires i <= |x|
    ensures r >= 0 ==> r <= |x|
    decreases |x| - i
  {
    if i == |x| then -1
    else if SelfClosedAt(x, root, i) >= 0 then SelfClosedAt(x, root, i)
    else SelfClosed(x, root, i + 1)
  }

  /** The root element has been closed, or is self-closing with only blanks after it. */
  predicate RootClosed(x: string) {
    match RootName(x)
    case None => false
    case Some(root) =>
      Contains(x, "</" + root + ">") || (SelfClosed(x, root, 0) >= 0 && Trim(x[SelfClosed(x, root, 0)..], Kotlin) == "")
  }

  predicate IsComplete(s: string) { RootClosed(StripFooters(ExtractXml(s))) }

  lemma {:induction false} NothingToStrip(s: string, i: nat)
    requires i <= |s| && '<' !in s
    ensures StripFooters(s, i) == s[i..]
    decreases |s| - i
  {
    if i < |s| { NothingToStrip(s, i + 1); }
  }
}
