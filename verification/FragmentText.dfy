/**
 Numbered fragments as the scanner sends them, and that XmlText takes them apart again: from the text of a
 datagram to its number, its EOT mark, its root and what the root encloses.
 */
module FragmentText {
  import opened Numerals
  import opened Options
  import opened Text
  import opened XmlText
  import RA = ReplyAssembler

  // A datagram is a marker on a line of its own, the XML declaration, and a whole element: the root of the document,
  // opened and closed in each fragment, with a part of the contents and the footer inside.
  //
  //   GLT,<XML>,
  //   <?xml version="1.0" encoding="utf-8"?>
  //   <GLT> ... <Footer No="1" EOT="0"/></GLT>

  /** One fragment: `decl` is what the XML declaration holds, `foot` the footer's tag without its brackets, which
      says `no` and `eot`, and `tail` what follows the footer. */
  datatype Printed = Printed(
    cmd: string, decl: string, root: string, inner: string, foot: string, no: nat, eot: bool, tail: string)

  function FooterText(no: nat, eot: bool): string {
    "Footer No=\"" + Decimal(no) + "\" EOT=\"" + (if eot then "1" else "0") + "\"/"
  }

  function Open(root: string): string { "<" + root + ">" }

  function Close(root: string): string { "</" + root + ">" }

  function Marker(cmd: string): string { cmd + ",<XML>,\r" }

  function Declaration(decl: string): string { "<?xml" + decl + "?>" }

  function Front(p: Printed): string { Declaration(p.decl) + ("\r" + (Open(p.root) + p.inner)) }

  function Back(p: Printed): string { p.tail + Close(p.root) + "\r" }

  function Around(a: string, foot: string, b: string): string { a + ("<" + foot + ">" + b) }

  function Xml(p: Printed): string { Around(Front(p), p.foot, Back(p)) }

  /** The datagram. */
  function Wire(p: Printed): string { Marker(p.cmd) + Xml(p) }

  // ---------------------------------------------------------------- what may stand where

  predicate Lacks(s: string, c: char) { forall k :: 0 <= k < |s| ==> s[k] != c }

  predicate Is(c: char, upper: char) { UpperChar(c) == upper }

  /** The beginning of what FOOTER looks for. */
  predicate FootAt(s: string, i: nat) {
    && i + 5 <= |s| && s[i] == '<'
    && Is(s[i+1], 'F') && Is(s[i+2], 'O') && Is(s[i+3], 'O') && Is(s[i+4], 'T')
  }

  predicate NoFoot(s: string) { forall i :: 0 <= i < |s| ==> !FootAt(s, i) }

  predicate GoodRoot(root: string) {
    && root != "" && NameStart(root[0]) && (forall k :: 0 <= k < |root| ==> NameChar(root[k]))
    && !FootAt("<" + root, 0)
  }

  /** A tag that FOOTER takes for the footer of fragment `no`. */
  predicate Says(foot: string, no: nat, eot: bool) { FooterBody(foot) && Lacks(foot, '>') && Groups(foot) == (no, eot) }

  predicate Good(p: Printed) {
    && Lacks(p.cmd, '<') && GoodRoot(p.root) && NoFoot(p.inner) && NoFoot(p.tail)
    && Says(p.foot, p.no, p.eot)
    && Lacks(p.decl, '<') && Lacks(p.decl, '>') && Lacks(p.decl, '?')
  }

  // ---------------------------------------------------------------- where a footer cannot be

  lemma NameLetters(b: string, name: string)
    requires HasAt(Upper(b), 0, name) && |name| >= 4
    ensures |b| >= 4 && forall k :: 0 <= k < 4 ==> UpperChar(b[k]) == name[k]
  {
    forall k | 0 <= k < 4 ensures UpperChar(b[k]) == name[k] {
      HasAtChar(Upper(b), 0, name, k);
    }
  }

  lemma FooterBodyLetters(b: string)
    requires FooterBody(b)
    ensures |b| >= 4 && Is(b[0], 'F') && Is(b[1], 'O') && Is(b[2], 'O') && Is(b[3], 'T')
  {
    if HasAt(Upper(b), 0, "FOOT") { NameLetters(b, "FOOT"); } else { NameLetters(b, "FOOTER"); }
  }

  lemma FooterStartsWithFoot(s: string, i: nat)
    ensures FooterAt(s, i) >= 0 ==> FootAt(s, i)
  {
    if FooterAt(s, i) >= 0 {
      var b := s[i+1..FooterAt(s, i)-1];
      FooterBodyLetters(b);
      assert b[0] == s[i+1] && b[1] == s[i+2] && b[2] == s[i+3] && b[3] == s[i+4];
    }
  }

  /** One character that starts no footer. */
  lemma OnePast(s: string, i: nat)
    requires i < |s| && !FootAt(s, i)
    ensures FindFooter(s, i) == FindFooter(s, i + 1) && StripFooters(s, i) == [s[i]] + StripFooters(s, i + 1)
  {
    FooterStartsWithFoot(s, i);
  }

  lemma {:induction false} FindPast(s: string, i: nat, j: nat)
    requires i <= j <= |s| && forall k :: i <= k < j ==> !FootAt(s, k)
    ensures FindFooter(s, i) == FindFooter(s, j)
    decreases j - i
  {
    if i < j {
      OnePast(s, i);
      FindPast(s, i + 1, j);
    }
  }

  lemma {:induction false} StripPast(s: string, i: nat, j: nat)
    requires i <= j <= |s| && forall k :: i <= k < j ==> !FootAt(s, k)
    ensures StripFooters(s, i) == s[i..j] + StripFooters(s, j)
    decreases j - i
  {
    if i < j {
      OnePast(s, i);
      StripPast(s, i + 1, j);
      Associates([s[i]], s[i+1..j], StripFooters(s, j));
      assert [s[i]] + s[i+1..j] == s[i..j];
    }
  }

  /** A footer cannot start in `a` and end behind it if `a` ends a tag or `b` starts one. */
  lemma NoFootJoined(a: string, b: string)
    requires NoFoot(a) && NoFoot(b)
    requires b == "" || b[0] == '<' || b[0] == '\r' || Lacks(a, '<') || (a != "" && a[|a|-1] == '>')
    ensures NoFoot(a + b)
  {
    forall i | 0 <= i < |a + b| ensures !FootAt(a + b, i) {
      if i >= |a| {
        assert FootAt(a + b, i) == FootAt(b, i - |a|);
      } else if i + 5 <= |a| {
        assert FootAt(a + b, i) == FootAt(a, i);
      } else {
        assert b != "" ==> (a + b)[|a|] == b[0];
        assert (a + b)[|a|-1] == a[|a|-1];
      }
    }
  }

  lemma NoFootWithout(s: string)
    requires Lacks(s, '<')
    ensures NoFoot(s)
  {
  }

  lemma NoFootOpen(root: string)
    requires GoodRoot(root)
    ensures NoFoot(Open(root)) && NoFoot(Close(root))
  {
    var o, c := Open(root), Close(root);
    forall i | 0 <= i < |o| ensures !FootAt(o, i) {
      if i == 0 {
        assert o[..|root|+1] == "<" + root;
      } else {
        assert NameChar(o[i]) || o[i] == '>';
      }
    }
    forall i | 0 <= i < |c| ensures !FootAt(c, i) {
      assert i == 0 || i == 1 || i == |c| - 1 || NameChar(c[i]);
    }
  }

  // ---------------------------------------------------------------- the footer itself

  /** The footer's characters: N at 7, the digits from 11, E and the mark behind them. */
  lemma FooterChars(no: nat, eot: bool)
    ensures var b, n := FooterText(no, eot), |Decimal(no)|;
            && n > 0 && |b| == 21 + n && b[6] == ' ' && b[12+n] == ' '
            && b[7] == 'N' && b[8] == 'o' && b[9] == '=' && b[10] == '"' && b[11+n] == '"'
            && b[11..11+n] == Decimal(no)
            && b[13+n] == 'E' && b[14+n] == 'O' && b[15+n] == 'T' && b[16+n] == '=' && b[17+n] == '"'
            && b[18+n] == (if eot then '1' else '0') && b[19+n] == '"' && b[20+n] == '/'
  {
    ValueOfDecimal(no);
    var a, d, e := "Footer No=\"", Decimal(no), if eot then "1" else "0";
    var b := FooterText(no, eot);
    assert b == a + (d + ("\" EOT=\"" + (e + "\"/")));
    assert b[11..11+|d|] == d;
  }

  lemma FooterDigits(no: nat, eot: bool, k: nat)
    requires 11 <= k < 11 + |Decimal(no)|
    ensures |FooterText(no, eot)| > k && IsDigit(FooterText(no, eot)[k])
  {
    FooterChars(no, eot);
    ValueOfDecimal(no);
    assert FooterText(no, eot)[k] == FooterText(no, eot)[11..11+|Decimal(no)|][k-11];
  }

  lemma {:induction false} DigitsAre(b: string, i: nat, n: nat)
    requires i + n < |b| && !IsDigit(b[i+n]) && forall k :: i <= k < i + n ==> IsDigit(b[k])
    ensures Digits(b, i) == n
    decreases n
  {
    if n > 0 { DigitsAre(b, i + 1, n - 1); }
  }

  lemma FooterNo(no: nat, eot: bool)
    ensures NoAt(FooterText(no, eot), 7) == 12 + |Decimal(no)| && Digits(FooterText(no, eot), 11) == |Decimal(no)|
  {
    var b, n := FooterText(no, eot), |Decimal(no)|;
    FooterChars(no, eot);
    forall k | 11 <= k < 11 + n ensures IsDigit(b[k]) { FooterDigits(no, eot, k); }
    DigitsAre(b, 11, n);
    assert Upper(b)[7..11] == "NO=\"";
    assert b[11+n..12+n] == "\"";
  }

  lemma FooterEot(no: nat, eot: bool)
    ensures EotAt(FooterText(no, eot), 13 + |Decimal(no)|)
  {
    var b, n := FooterText(no, eot), |Decimal(no)|;
    FooterChars(no, eot);
    assert Upper(b)[13+n..18+n] == "EOT=\"";
  }

  lemma NoStartsWithN(b: string, i: nat)
    ensures NoAt(b, i) >= 0 ==> i < |b| && Is(b[i], 'N')
  {
    if NoAt(b, i) >= 0 { HasAtChar(Upper(b), i, "NO=\"", 0); }
  }

  lemma EotStartsWithE(b: string, i: nat)
    ensures EotAt(b, i) ==> i < |b| && Is(b[i], 'E')
  {
    if EotAt(b, i) { HasAtChar(Upper(b), i, "EOT=\"", 0); }
  }

  lemma {:induction false} LastEotIs(b: string, from: nat, before: nat, q: nat)
    requires from <= q < before && EotAt(b, q) && forall i :: q < i < before ==> !EotAt(b, i)
    ensures LastEot(b, from, before) == q
    decreases before
  {
    if q < before - 1 { LastEotIs(b, from, before - 1, q); }
  }

  lemma {:induction false} LastNoIs(b: string, before: nat, p: nat)
    requires p < before && NoAt(b, p) >= 0 && LastEot(b, NoAt(b, p), |b|) >= 0
    requires forall i :: p < i < before ==> NoAt(b, i) < 0
    ensures LastNo(b, before) == p
    decreases before
  {
    if p < before - 1 { LastNoIs(b, before - 1, p); }
  }

  /** Nothing behind the N of No starts with an N, nothing behind the E of EOT with an E. */
  lemma FooterLetters(no: nat, eot: bool, k: nat)
    requires 7 < k < |FooterText(no, eot)|
    ensures !Is(FooterText(no, eot)[k], 'N') && FooterText(no, eot)[k] != '>'
    ensures k > 13 + |Decimal(no)| ==> !Is(FooterText(no, eot)[k], 'E')
  {
    FooterChars(no, eot);
    if 11 <= k < 11 + |Decimal(no)| { FooterDigits(no, eot, k); }
  }

  /** FOOTER accepts the footer and takes out its number and its mark. */
  lemma FooterRead(no: nat, eot: bool)
    ensures var b, n := FooterText(no, eot), |Decimal(no)|;
            LastNo(b, |b|) == 7 && LastEot(b, NoAt(b, 7), |b|) == 13 + n && FooterBody(b)
  {
    var b, n := FooterText(no, eot), |Decimal(no)|;
    FooterChars(no, eot);
    FooterNo(no, eot);
    FooterEot(no, eot);
    forall i | 13 + n < i < |b| ensures !EotAt(b, i) {
      EotStartsWithE(b, i);
      FooterLetters(no, eot, i);
    }
    LastEotIs(b, 12 + n, |b|, 13 + n);
    forall i | 7 < i < |b| ensures NoAt(b, i) < 0 {
      NoStartsWithN(b, i);
      FooterLetters(no, eot, i);
    }
    LastNoIs(b, |b|, 7);
    FooterNamed(no, eot);
  }

  lemma FooterNamed(no: nat, eot: bool)
    ensures var b := FooterText(no, eot); HasAt(Upper(b), 0, "FOOTER") && |b| > 6 && !WordChar(b[6])
  {
    FooterChars(no, eot);
    var b := FooterText(no, eot);
    assert b[..6] == "Footer";
    assert b[0] == 'F' && b[1] == 'o' && b[2] == 'o' && b[3] == 't' && b[4] == 'e' && b[5] == 'r';
    assert Upper(b)[0..6] == "FOOTER";
  }

  lemma FooterHasNoEnd(no: nat, eot: bool, k: nat)
    requires k < |FooterText(no, eot)|
    ensures FooterText(no, eot)[k] != '>'
  {
    var b := FooterText(no, eot);
    if k <= 7 { assert b[..8] == "Footer N" by { FooterChars(no, eot); } assert b[k] == b[..8][k]; }
    else { FooterLetters(no, eot, k); }
  }

  lemma IndexOfIs(s: string, pat: string, from: nat, r: nat)
    requires from <= r && HasAt(s, r, pat) && forall i :: from <= i < r ==> !HasAt(s, i, pat)
    ensures IndexOf(s, pat, from) == r
  {
  }

  lemma NextChar(x: string, c: string, from: nat, o: nat)
    requires |c| == 1 && from <= o < |x| && x[o] == c[0] && forall k :: from <= k < o ==> x[k] != c[0]
    ensures IndexOf(x, c, from) == o
  {
    assert x[o..o+1] == c;
    forall i | from <= i < o ensures !HasAt(x, i, c) {
      if HasAt(x, i, c) { HasAtChar(x, i, c, 0); }
    }
    IndexOfIs(x, c, from, o);
  }

  lemma TagChars(a: string, b: string, c: string)
    requires Lacks(b, '>')
    ensures var s, f, e := a + ("<" + b + ">" + c), |a|, |a| + 1 + |b|;
            s[f] == '<' && s[f+1..e] == b && s[e] == '>' && forall i :: f < i < e ==> s[i] != '>'
  {
    var s, f, e := a + ("<" + b + ">" + c), |a|, |a| + 1 + |b|;
    forall i | f < i < e ensures s[i] != '>' { assert s[i] == b[i-f-1]; }
  }

  lemma TagAt(a: string, b: string, c: string)
    requires FooterBody(b) && Lacks(b, '>')
    ensures var s, f := a + ("<" + b + ">" + c), |a|;
            FooterAt(s, f) == f + |b| + 2 && s[f+1..FooterAt(s, f)-1] == b
  {
    TagChars(a, b, c);
    NextChar(a + ("<" + b + ">" + c), ">", |a| + 1, |a| + 1 + |b|);
  }

  lemma GroupsOfTag(s: string, f: nat)
    requires f <= |s|
    ensures FooterAt(s, f) >= 0 ==> FooterGroups(s, f) == Groups(s[f+1..FooterAt(s, f)-1])
  {
  }

  /** A footer's tag is found in any text, and read as it is on its own. */
  lemma TagSpans(a: string, b: string, c: string)
    requires FooterBody(b) && Lacks(b, '>')
    ensures var s, f := a + ("<" + b + ">" + c), |a|;
            FooterAt(s, f) == f + |b| + 2 && FooterGroups(s, f) == Groups(b)
  {
    TagAt(a, b, c);
    GroupsOfTag(a + ("<" + b + ">" + c), |a|);
  }

  /** The footer as the scanner writes it is one. */
  lemma ScannerFooter(no: nat, eot: bool)
    ensures Says(FooterText(no, eot), no, eot)
  {
    var b := FooterText(no, eot);
    FooterRead(no, eot);
    forall k | 0 <= k < |b| ensures b[k] != '>' { FooterHasNoEnd(no, eot, k); }
    FooterChars(no, eot);
    FooterNo(no, eot);
    ValueOfDecimal(no);
  }

  // ---------------------------------------------------------------- the datagram as a whole

  lemma NoFootMarker(cmd: string)
    requires Lacks(cmd, '<')
    ensures NoFoot(Marker(cmd))
  {
    NoFootJoined(cmd, ",<XML>,\r");
  }

  lemma NoFootDeclaration(decl: string)
    requires Lacks(decl, '<')
    ensures NoFoot(Declaration(decl)) && Declaration(decl)[|Declaration(decl)|-1] == '>'
  {
    var s := Declaration(decl);
    forall i | 0 <= i < |s| ensures !FootAt(s, i) {
      assert i > 0 ==> s[i] != '<';
    }
  }

  lemma NoFootFront(p: Printed)
    requires Good(p)
    ensures NoFoot(Front(p)) && NoFoot(Marker(p.cmd) + Front(p)) && NoFoot(Back(p))
  {
    NoFootMarker(p.cmd);
    NoFootDeclaration(p.decl);
    NoFootOpen(p.root);
    NoFootJoined(Open(p.root), p.inner);
    NoFootWithout("\r");
    NoFootJoined("\r", Open(p.root) + p.inner);
    NoFootJoined(Declaration(p.decl), "\r" + (Open(p.root) + p.inner));
    NoFootJoined(Marker(p.cmd), Front(p));
    NoFootJoined(p.tail, Close(p.root));
    NoFootJoined(p.tail + Close(p.root), "\r");
  }

  /** In front of a tag no footer starts that does not start in `a`. */
  lemma NoFootBefore(a: string, rest: string, i: nat)
    requires NoFoot(a) && rest != "" && rest[0] == '<' && i < |a|
    ensures !FootAt(a + rest, i)
  {
    assert (a + rest)[|a|] == '<';
    if i + 5 <= |a| { assert FootAt(a + rest, i) == FootAt(a, i); }
  }

  lemma FooterFound(a: string, foot: string, b: string)
    requires NoFoot(a) && FooterBody(foot) && Lacks(foot, '>')
    ensures var s := Around(a, foot, b);
            FindFooter(s, 0) == |a| && FooterAt(s, |a|) >= 0 && FooterGroups(s, |a|) == Groups(foot)
  {
    var s := Around(a, foot, b);
    TagSpans(a, foot, b);
    forall i | 0 <= i < |a| ensures !FootAt(s, i) { NoFootBefore(a, "<" + foot + ">" + b, i); }
    FindPast(s, 0, |a|);
  }

  lemma StripRest(a: string, b: string)
    requires NoFoot(b)
    ensures StripFooters(a + b, |a|) == b
  {
    var s := a + b;
    forall i | |a| <= i < |s| ensures !FootAt(s, i) {
      assert FootAt(s, i) == FootAt(b, i - |a|);
    }
    StripPast(s, |a|, |s|);
    assert s[|a|..] == b;
  }

  lemma StripTag(s: string, f: nat, g: nat)
    requires f < |s| && g <= |s|
    ensures FooterAt(s, f) == g ==> StripFooters(s, f) == StripFooters(s, g)
  {
  }

  lemma FooterStripped(a: string, foot: string, b: string)
    requires NoFoot(a) && NoFoot(b) && FooterBody(foot) && Lacks(foot, '>')
    ensures StripFooters(Around(a, foot, b)) == a + b
  {
    var s, tag := Around(a, foot, b), "<" + foot + ">";
    TagSpans(a, foot, b);
    forall i | 0 <= i < |a| ensures !FootAt(s, i) { NoFootBefore(a, tag + b, i); }
    StripPast(s, 0, |a|);
    assert s[0..|a|] == a;
    StripTag(s, |a|, |a + tag|);
    assert s == (a + tag) + b by { Associates(a, tag, b); }
    StripRest(a + tag, b);
  }

  // ---------------------------------------------------------------- the parts

  /** The XML is taken from its declaration on, with or without a marker in front. */
  lemma DeclarationFound(cmd: string, decl: string, rest: string)
    requires Lacks(cmd, '<')
    ensures var x := Declaration(decl) + rest; ExtractXml(Marker(cmd) + x) == x && ExtractXml(x) == x
  {
    var x, m := Declaration(decl) + rest, |Marker(cmd)|;
    var w := Marker(cmd) + x;
    assert w[m..] == x;
    assert x[..5] == "<?xml";
    assert HasAt(x, 0, "<?xml") && HasAt(w, m, "<?xml") by { assert w[m..m+5] == x[..5]; }
    forall i | 0 <= i < m ensures !HasAt(w, i, "<?xml") {
      assert w[i] == Marker(cmd)[i] && (i < |cmd| ==> w[i] == cmd[i]);
      assert w[|cmd|+2] == Marker(cmd)[|cmd|+2] == 'X';
      if HasAt(w, i, "<?xml") {
        HasAtChar(w, i, "<?xml", 0);
        HasAtChar(w, i, "<?xml", 1);
      }
    }
    IndexOfIs(w, "<?xml", 0, m);
    IndexOfIs(x, "<?xml", 0, 0);
  }

  lemma XmlFound(p: Printed)
    requires Good(p)
    ensures ExtractXml(Wire(p)) == Xml(p) && ExtractXml(Xml(p)) == Xml(p)
  {
    var rest := "\r" + (Open(p.root) + p.inner) + ("<" + p.foot + ">" + Back(p));
    assert Xml(p) == Declaration(p.decl) + rest by {
      Associates(Declaration(p.decl), "\r" + (Open(p.root) + p.inner), "<" + p.foot + ">" + Back(p));
    }
    DeclarationFound(p.cmd, p.decl, rest);
  }

  predicate Tight(s: string) { s != "" && !IsSpace(s[0], Kotlin) && !IsSpace(s[|s|-1], Kotlin) }

  lemma TrimTight(s: string, lang: Lang)
    requires Tight(s)
    ensures Trim(s + "\r", lang) == s && Trim("\r" + s, lang) == s
  {
    assert (s + "\r")[..|s|] == s && ("\r" + s)[1..] == s;
    assert TrimLeft(s + "\r", lang) == s + "\r" && TrimRight(s + "\r", lang) == TrimRight(s, lang) == s;
    assert TrimLeft("\r" + s, lang) == TrimLeft(s, lang) == s;
  }

  function Element(p: Printed): string { Open(p.root) + p.inner + p.tail + Close(p.root) }

  lemma DeclarationDropped(decl: string, element: string, lang: Lang)
    requires Lacks(decl, '?')
    ensures DropDeclaration(Declaration(decl) + "\r" + element, lang) == Trim("\r" + element, lang)
  {
    var s, e := Declaration(decl) + "\r" + element, 5 + |decl|;
    assert s[..5] == "<?xml" && s[e..e+2] == "?>" && s[e+2..] == "\r" + element;
    forall i | 0 <= i < e ensures !HasAt(s, i, "?>") {
      assert s[i] == Declaration(decl)[i] && (i >= 5 ==> s[i] == decl[i-5]) && s[2] == 'x';
      if HasAt(s, i, "?>") {
        HasAtChar(s, i, "?>", 0);
        HasAtChar(s, i, "?>", 1);
      }
    }
    IndexOfIs(s, "?>", 0, e);
  }

  lemma {:induction false} NameEndIs(s: string, i: nat, e: nat)
    requires i <= e < |s| && !NameChar(s[e]) && forall k :: i <= k < e ==> NameChar(s[k])
    ensures NameEnd(s, i) == e
    decreases e - i
  {
    if i < e { NameEndIs(s, i + 1, e); }
  }

  lemma RootRead(root: string, rest: string)
    requires GoodRoot(root)
    ensures var z, n := Open(root) + rest, |root|;
            && FindRoot(z, 0) == 0 && RootAt(z, 0) == 2 + n && NameEnd(z, 1) == 1 + n
            && z[..2+n] == Open(root) && z[1..1+n] == root && z[2+n..] == rest
  {
    var z, n := Open(root) + rest, |root|;
    assert z[0] == '<' && z[1..1+n] == root && z[1+n] == '>';
    forall k | 1 <= k < 1 + n ensures NameChar(z[k]) { assert z[k] == root[k-1]; }
    NameEndIs(z, 1, 1 + n);
  }

  lemma LastOf(a: string, pat: string)
    requires pat != ""
    ensures LastIndexOf(a + pat, pat, |a + pat|) == |a|
  {
    var s := a + pat;
    assert s[|a|..|a|+|pat|] == pat;
    assert HasAt(s, |a|, pat);
  }

  /** The parts of an element: its tags and everything between them. */
  lemma ElementParts(root: string, text: string)
    requires GoodRoot(root)
    ensures PartsIn(Open(root) + text + Close(root)) == Some(Parts(Open(root), Close(root), text))
  {
    var z, n := Open(root) + text + Close(root), |root|;
    Associates(Open(root), text, Close(root));
    RootRead(root, text + Close(root));
    LastOf(Open(root) + text, Close(root));
    assert z[2+n..2+n+|text|] == text;
  }

  lemma WireIsAround(p: Printed)
    ensures Wire(p) == Around(Marker(p.cmd) + Front(p), p.foot, Back(p))
  {
    Associates(Marker(p.cmd), Front(p), "<" + p.foot + ">" + Back(p));
  }

  lemma FrontAndBack(p: Printed)
    ensures Front(p) + Back(p) == Declaration(p.decl) + "\r" + Element(p) + "\r"
  {
  }

  lemma ElementTight(p: Printed)
    ensures Tight(Element(p)) && Tight(Declaration(p.decl) + "\r" + Element(p))
  {
    var e := Element(p);
    assert e[0] == '<' && e[|e|-1] == '>';
  }

  lemma PrintedParts(p: Printed, lang: Lang)
    requires Good(p)
    ensures PartsOf(Xml(p), lang) == Some(Parts(Open(p.root), Close(p.root), p.inner + p.tail))
  {
    XmlFound(p);
    NoFootFront(p);
    FooterStripped(Front(p), p.foot, Back(p));
    FrontAndBack(p);
    ElementTight(p);
    TrimTight(Declaration(p.decl) + "\r" + Element(p), lang);
    DeclarationDropped(p.decl, Element(p), lang);
    TrimTight(Element(p), lang);
    Associates(Open(p.root), p.inner, p.tail);
    ElementParts(p.root, p.inner + p.tail);
  }

  /** What a fragment says. */
  function Meaning(p: Printed): Datagram {
    Fragment(p.no, p.eot, Some(Parts(Open(p.root), Close(p.root), p.inner + p.tail)), Front(p) + Back(p))
  }

  /** The footer of a datagram is found, and says number and mark. */
  lemma FooterOfWire(p: Printed)
    requires Good(p)
    ensures var f := |Marker(p.cmd) + Front(p)|;
            FindFooter(Wire(p), 0) == f && FooterAt(Wire(p), f) >= 0 && FooterGroups(Wire(p), f) == (p.no, p.eot)
  {
    NoFootFront(p);
    WireIsAround(p);
    FooterFound(Marker(p.cmd) + Front(p), p.foot, Back(p));
  }

  /** Kotlin drops a fragment whose number is no Int, Go takes the greatest int64 for what is beyond it. */
  function Reading(p: Printed, lang: Lang): Datagram {
    if lang.Kotlin? && p.no > 0x7fff_ffff then Unnumbered
    else if p.no > 0x7fff_ffff_ffff_ffff then Meaning(p.(no := 0x7fff_ffff_ffff_ffff))
    else Meaning(p)
  }

  /** The rest of a datagram: its parts, and its text without the footer. */
  lemma XmlOfWire(p: Printed, lang: Lang)
    requires Good(p)
    ensures Numbered(p.no, p.eot, ExtractXml(Wire(p)), lang) == Reading(p, lang)
  {
    NoFootFront(p);
    XmlFound(p);
    FooterStripped(Front(p), p.foot, Back(p));
    PrintedParts(p, lang);
  }

  lemma NothingCut(p: Printed)
    ensures CutRight(Wire(p), "\0") == Wire(p)
  {
    assert Wire(p)[|Wire(p)|-1] == '\r';
  }

  lemma Classified(text: string, lang: Lang)
    ensures var t := CutRight(text, "\0"); var f := FindFooter(t, 0);
            f >= 0 ==> Classify(text, lang) == Numbered(FooterGroups(t, f).0, FooterGroups(t, f).1, ExtractXml(t), lang)
  {
  }

  /** A printed fragment is taken for exactly what it is, by both programs, as far as they can count. */
  lemma FragmentRead(p: Printed, lang: Lang)
    requires Good(p)
    ensures Classify(Wire(p), lang) == Reading(p, lang)
  {
    NothingCut(p);
    FooterOfWire(p);
    XmlOfWire(p, lang);
    Classified(Wire(p), lang);
  }

  /** A fragment whose number is no Int changes nothing. */
  lemma BeyondIntIgnored(p: Printed, st: RA.State, expected: string)
    requires Good(p) && p.no > 0x7fff_ffff
    ensures RA.Accept(st, Classify(Wire(p), Kotlin), expected) == (st, None)
  {
    FragmentRead(p, Kotlin);
  }

  // ---------------------------------------------------------------- a document sent whole

  function Begun(decl: string, root: string): string { Declaration(decl) + "\r" + Open(root) }

  /** `root` is not opened again in what follows its opening tag. */
  ghost predicate OpenedOnce(root: string, rest: string) { forall i :: !HasAt(rest, i, "<" + root) }

  predicate Header(a: string) { |a| >= 2 && a[0] == '<' && a[1] == '?' && forall k :: 0 < k < |a| ==> a[k] != '<' }

  lemma DeclarationChars(decl: string)
    requires Lacks(decl, '<')
    ensures Header(Declaration(decl) + "\r")
  {
    var a := Declaration(decl) + "\r";
    forall k | 0 < k < |a| ensures a[k] != '<' {
      assert 5 <= k < 5 + |decl| ==> a[k] == decl[k-5];
    }
  }

  lemma OpenChars(root: string)
    requires GoodRoot(root)
    ensures Lacks(root, '<')
  {
    forall k | 0 <= k < |root| ensures root[k] != '<' {
      assert NameChar(root[k]);
    }
  }

  lemma HeaderThenTag(a: string, root: string, rest: string)
    requires Header(a) && root != "" && Lacks(root, '<')
    ensures var x, o := a + ("<" + root + ">" + rest), |a|;
            && x[0] == '<' && x[1] == '?' && (forall k :: 0 < k < o ==> x[k] != '<')
            && x[o] == '<' && x[o+1..o+1+|root|] == root && x[o+1+|root|] == '>'
            && (forall k :: o < k < o + 2 + |root| ==> x[k] != '<') && x[o+1] == root[0] && x[o+2+|root|..] == rest
  {
  }

  lemma BegunChars(decl: string, root: string, rest: string)
    requires GoodRoot(root) && Lacks(decl, '<')
    ensures var x, o := Begun(decl, root) + rest, |Declaration(decl)| + 1;
            && |Begun(decl, root)| == o + 2 + |root|
            && x[0] == '<' && x[1] == '?' && (forall k :: 0 < k < o ==> x[k] != '<')
            && x[o] == '<' && x[o+1..o+1+|root|] == root && x[o+1+|root|] == '>'
            && (forall k :: o < k < o + 2 + |root| ==> x[k] != '<') && x[o+1] == root[0] && x[o+2+|root|..] == rest
  {
    DeclarationChars(decl);
    OpenChars(root);
    HeaderThenTag(Declaration(decl) + "\r", root, rest);
    Associates(Declaration(decl) + "\r", Open(root), rest);
  }

  lemma {:induction false} TagEndIs(x: string, j: nat, e: nat)
    requires j <= e < |x| && x[e] == '>' && forall k :: j <= k < e ==> NameChar(x[k])
    ensures TagEnd(x, j) == e
    decreases e - j
  {
    if j < e { TagEndIs(x, j + 1, e); }
  }

  lemma TagNamed(x: string, o: nat, root: string)
    requires GoodRoot(root) && o + 1 + |root| < |x| && x[o+1..o+1+|root|] == root && x[o+1+|root|] == '>'
    ensures TagEnd(x, o + 1) == o + 1 + |root| && x[o+1] == root[0]
  {
    forall k | o + 1 <= k < o + 1 + |root| ensures NameChar(x[k]) {
      assert x[k] == x[o+1..o+1+|root|][k-o-1];
    }
    TagEndIs(x, o + 1, o + 1 + |root|);
  }

  lemma Skipped(x: string, i: nat, lt: nat)
    requires IndexOf(x, "<", i) == lt && lt + 1 < |x| && (x[lt+1] == '?' || x[lt+1] == '!')
    ensures RootName(x, i) == RootName(x, lt + 1)
  {
  }

  lemma NameFound(x: string, i: nat, lt: nat, root: string)
    requires IndexOf(x, "<", i) == lt && lt + 1 < |x| && x[lt+1] != '?' && x[lt+1] != '!' && root != ""
    requires TagEnd(x, lt + 1) == lt + 1 + |root| && x[lt+1..lt+1+|root|] == root
    ensures RootName(x, i) == Some(root)
  {
  }

  lemma RootNameRead(decl: string, root: string, rest: string)
    requires GoodRoot(root) && Lacks(decl, '<')
    ensures RootName(Begun(decl, root) + rest) == Some(root)
  {
    var x, o := Begun(decl, root) + rest, |Declaration(decl)| + 1;
    BegunChars(decl, root, rest);
    NextChar(x, "<", 0, 0);
    NextChar(x, "<", 1, o);
    TagNamed(x, o, root);
    Skipped(x, 0, 0);
    NameFound(x, 1, o, root);
  }

  /** What starts with `<` and is not the root's own tag can only be found behind that tag. */
  lemma FoundBehind(decl: string, root: string, rest: string, pat: string, i: nat)
    requires GoodRoot(root) && Lacks(decl, '<') && |pat| >= 2 && pat[0] == '<' && pat[1] != '?'
    ensures var x, o, b := Begun(decl, root) + rest, |Declaration(decl)| + 1, |Begun(decl, root)|;
            HasAt(x, i, pat) ==> (i == o && pat[1] == root[0]) || (i >= b && HasAt(rest, i - b, pat))
  {
    var x, b := Begun(decl, root) + rest, |Begun(decl, root)|;
    BegunChars(decl, root, rest);
    if HasAt(x, i, pat) {
      HasAtChar(x, i, pat, 0);
      HasAtChar(x, i, pat, 1);
      if i >= b { assert rest[i-b..i-b+|pat|] == x[i..i+|pat|]; }
    }
  }

  lemma ClosedBehind(decl: string, root: string, rest: string)
    requires GoodRoot(root) && Lacks(decl, '<')
    ensures Contains(Begun(decl, root) + rest, Close(root)) <==> Contains(rest, Close(root))
  {
    var x, b := Begun(decl, root) + rest, |Begun(decl, root)|;
    var r, q := IndexOf(x, Close(root), 0), IndexOf(rest, Close(root), 0);
    if r >= 0 { FoundBehind(decl, root, rest, Close(root), r); }
    if q >= 0 {
      assert x[b+q..b+q+|Close(root)|] == rest[q..q+|Close(root)|];
      assert HasAt(x, b + q, Close(root));
    }
  }

  lemma {:induction false} NeverSelfClosed(x: string, root: string, i: nat)
    requires i <= |x| && forall k :: i <= k < |x| ==> SelfClosedAt(x, root, k) < 0
    ensures SelfClosed(x, root, i) < 0
    decreases |x| - i
  {
    if i < |x| { NeverSelfClosed(x, root, i + 1); }
  }

  /** The opening tag is not self-closing, and nothing behind it opens the root again. */
  lemma NotSelfClosed(decl: string, root: string, rest: string)
    requires GoodRoot(root) && Lacks(decl, '<') && OpenedOnce(root, rest)
    ensures SelfClosed(Begun(decl, root) + rest, root, 0) < 0
  {
    var x, o := Begun(decl, root) + rest, |Declaration(decl)| + 1;
    BegunChars(decl, root, rest);
    forall k | 0 <= k < |x| ensures SelfClosedAt(x, root, k) < 0 {
      FoundBehind(decl, root, rest, "<" + root, k);
      if k == o {
        assert HasAt(x, o + 1 + |root|, ">") by { assert x[o+1+|root|..o+2+|root|] == ">"; }
        assert IndexOf(x, ">", o) <= o + 1 + |root|;
      }
    }
    NeverSelfClosed(x, root, 0);
  }

  lemma ClosedIff(decl: string, root: string, rest: string)
    requires GoodRoot(root) && Lacks(decl, '<') && OpenedOnce(root, rest)
    ensures RootClosed(Begun(decl, root) + rest) <==> Contains(rest, Close(root))
  {
    RootNameRead(decl, root, rest);
    ClosedBehind(decl, root, rest);
    NotSelfClosed(decl, root, rest);
  }

  lemma NothingStripped(x: string)
    requires NoFoot(x)
    ensures StripFooters(x) == x
  {
    StripPast(x, 0, |x|);
    assert x[0..|x|] == x && StripFooters(x, |x|) == "";
  }

  lemma BegunTaken(cmd: string, decl: string, root: string, rest: string)
    requires Lacks(cmd, '<') && Lacks(decl, '<') && GoodRoot(root) && NoFoot(rest)
    ensures var x := Begun(decl, root) + rest; StripFooters(ExtractXml(Marker(cmd) + x)) == x
  {
    var x := Begun(decl, root) + rest;
    assert x == Declaration(decl) + ("\r" + Open(root) + rest);
    DeclarationFound(cmd, decl, "\r" + Open(root) + rest);
    NoFootBegun(decl, root, rest);
    NothingStripped(x);
  }

  /** A reply that has begun with its root's opening tag is complete exactly when the closing tag has come. */
  lemma CompleteIffClosed(cmd: string, decl: string, root: string, rest: string)
    requires Lacks(cmd, '<') && Lacks(decl, '<') && GoodRoot(root) && NoFoot(rest) && OpenedOnce(root, rest)
    ensures IsComplete(Marker(cmd) + (Begun(decl, root) + rest)) <==> Contains(rest, Close(root))
  {
    BegunTaken(cmd, decl, root, rest);
    ClosedIff(decl, root, rest);
  }

  lemma NoFootBegun(decl: string, root: string, rest: string)
    requires Lacks(decl, '<') && GoodRoot(root) && NoFoot(rest)
    ensures NoFoot(Begun(decl, root) + rest)
  {
    NoFootDeclaration(decl);
    NoFootWithout("\r");
    NoFootJoined(Declaration(decl), "\r");
    NoFootOpen(root);
    NoFootJoined(Declaration(decl) + "\r", Open(root));
    NoFootJoined(Begun(decl, root), rest);
  }

  // ---------------------------------------------------------------- a document sent in fragments

  /** Fragment i + 1 holds inner[i]. */
  datatype Sent = Sent(cmd: string, decl: string, root: string, inner: seq<string>, tail: string)

  predicate GoodSent(d: Sent) {
    && Lacks(d.cmd, '<') && GoodRoot(d.root) && 0 < |d.inner| <= INT32_MAX
    && (forall i :: 0 <= i < |d.inner| ==> NoFoot(d.inner[i]) && d.inner[i] + d.tail != "") && NoFoot(d.tail)
    && Lacks(d.decl, '<') && Lacks(d.decl, '>') && Lacks(d.decl, '?')
  }

  predicate InRange(d: Sent, k: nat) { 1 <= k <= |d.inner| }

  function NthFragment(d: Sent, k: nat): Printed
    requires InRange(d, k)
  {
    Printed(d.cmd, d.decl, d.root, d.inner[k-1], FooterText(k, k == |d.inner|), k, k == |d.inner|, d.tail)
  }

  /** What a fragment contributes to the document. */
  function Contents(d: Sent): seq<string> { seq(|d.inner|, i requires 0 <= i < |d.inner| => d.inner[i] + d.tail) }

  function CutOf(d: Sent): RA.Cut {
    RA.Cut(Open(d.root), Close(d.root), 1, Contents(d),
           seq(|d.inner|, i requires 0 <= i < |d.inner| => Front(NthFragment(d, i + 1)) + Back(NthFragment(d, i + 1))))
  }

  lemma NthIsGood(d: Sent, k: nat)
    requires GoodSent(d) && InRange(d, k)
    ensures Good(NthFragment(d, k))
  {
    ScannerFooter(k, k == |d.inner|);
  }

  lemma NthMeans(d: Sent, k: nat)
    requires d.root != "" && InRange(d, k)
    ensures RA.Sound(CutOf(d)) && RA.Numbers(CutOf(d), k) && RA.Nth(CutOf(d), k) == Meaning(NthFragment(d, k))
  {
  }

  lemma FragmentIsNth(d: Sent, k: nat, lang: Lang)
    requires GoodSent(d) && InRange(d, k)
    ensures RA.Sound(CutOf(d)) && RA.Numbers(CutOf(d), k)
    ensures Classify(Wire(NthFragment(d, k)), lang) == RA.Nth(CutOf(d), k)
  {
    NthIsGood(d, k);
    NthMeans(d, k);
    FragmentRead(NthFragment(d, k), lang);
  }

  /** The datagrams that arrive when the fragments come in the order of their numbers `order`. */
  function Wires(d: Sent, order: seq<nat>): (texts: seq<string>)
    requires forall k :: k in order ==> InRange(d, k)
    ensures |texts| == |order|
  {
    if order == [] then [] else Wires(d, order[..|order|-1]) + [Wire(NthFragment(d, order[|order|-1]))]
  }

  lemma {:induction false} OfferedIsAfter(d: Sent, order: seq<nat>, expected: string)
    requires GoodSent(d) && forall k :: k in order ==> InRange(d, k)
    ensures RA.Sound(CutOf(d)) && RA.Delivery(CutOf(d), order)
    ensures RA.Offered(expected, Wires(d, order)) == RA.After(CutOf(d), order)
  {
    if order != [] {
      var front, k := order[..|order|-1], order[|order|-1];
      OfferedIsAfter(d, front, expected);
      FragmentIsNth(d, k, Kotlin);
      assert Wires(d, order)[..|front|] == Wires(d, front);
    }
  }

  predicate AllCame(d: Sent, order: seq<nat>) { forall k :: 1 <= k <= |d.inner| ==> k in order }

  lemma WholeOrNothing(d: Sent, order: seq<nat>)
    requires GoodSent(d) && order != [] && forall k :: k in order ==> InRange(d, k)
    ensures RA.Sound(CutOf(d)) && RA.Delivery(CutOf(d), order)
    ensures RA.Merge(RA.After(CutOf(d), order))
            == if AllCame(d, order) then Some(Open(d.root) + Concat(Contents(d)) + Close(d.root)) else None
  {
    RA.OrderIndependence(CutOf(d), order);
  }

  lemma AnswerIs(d: Sent, st: RA.State, datagram: Datagram, order: seq<nat>, last: nat, expected: string)
    requires GoodSent(d) && InRange(d, last) && forall k :: k in order ==> InRange(d, k)
    requires RA.Sound(CutOf(d)) && RA.Delivery(CutOf(d), order) && RA.Numbers(CutOf(d), last)
    requires st == RA.After(CutOf(d), order) && datagram == RA.Nth(CutOf(d), last)
    ensures RA.Accept(st, datagram, expected).1
            == if AllCame(d, order + [last]) then Some(Open(d.root) + Concat(Contents(d)) + Close(d.root)) else None
  {
    assert (order + [last])[..|order|] == order;
    WholeOrNothing(d, order + [last]);
  }

  /** From datagram to document: whatever the order and however often each fragment comes, the offer of the last
      datagram so far answers null until every fragment has come, and then with the whole document. */
  lemma DocumentFromDatagrams(d: Sent, order: seq<nat>, last: nat, expected: string)
    requires GoodSent(d) && InRange(d, last) && forall k :: k in order ==> InRange(d, k)
    ensures RA.Accept(RA.Offered(expected, Wires(d, order)), Classify(Wire(NthFragment(d, last)), Kotlin), expected).1
            == if AllCame(d, order + [last]) then Some(Open(d.root) + Concat(Contents(d)) + Close(d.root)) else None
  {
    OfferedIsAfter(d, order, expected);
    FragmentIsNth(d, last, Kotlin);
    var text := Wire(NthFragment(d, last));
    AnswerIs(d, RA.Offered(expected, Wires(d, order)), Classify(text, Kotlin), order, last, expected);
  }

  /** And if the rest never comes, the timeout returns the root with what has come, in number order. */
  lemma PartialFromDatagrams(d: Sent, order: seq<nat>, expected: string, bound: nat)
    requires GoodSent(d) && order != [] && forall k :: k in order ==> InRange(d, k)
    requires |d.inner| < bound
    ensures RA.Sound(CutOf(d))
    ensures RA.Timeout(RA.Offered(expected, Wires(d, order)), expected, bound)
            == Some(Open(d.root) + RA.Arrived(CutOf(d), order, |d.inner|) + Close(d.root))
  {
    OfferedIsAfter(d, order, expected);
    RA.FragmentsAre(CutOf(d), order);
    RA.TimeoutGivesWhatArrived(CutOf(d), order, expected, bound);
  }
}
