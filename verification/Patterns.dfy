/**
 The patterns FOOTER and ROOT of XmlText.kt and protocol.go read as patterns: what the searches of XmlText accept, and
 what they take out of it.
 */
module Patterns {
  import opened FragmentText
  import opened Numerals
  import opened Options
  import opened Text
  import opened XmlText

  // ---------------------------------------------------------------- FOOTER

  /** `Foot` or `Footer` in any case, and the end of a word. */
  predicate Named(b: string) {
    || (|b| >= 4 && Upper(b[..4]) == "FOOT" && (|b| == 4 || !WordChar(b[4])))
    || (|b| >= 6 && Upper(b[..6]) == "FOOTER" && (|b| == 6 || !WordChar(b[6])))
  }

  /** `No="` in any case at the start of a word, d digits and a quote. */
  predicate NumberAt(b: string, p: nat, d: nat) {
    && 0 < p && p + 4 + d < |b| && !WordChar(b[p-1]) && Upper(b[p..p+4]) == "NO=\"" && d > 0
    && (forall k :: p + 4 <= k < p + 4 + d ==> IsDigit(b[k])) && b[p+4+d] == '"'
  }

  /** `EOT="0"` or `EOT="1"` in any case at the start of a word. */
  predicate MarkAt(b: string, q: nat) {
    && 0 < q && q + 6 < |b| && !WordChar(b[q-1]) && Upper(b[q..q+5]) == "EOT=\"" && b[q+5] in "01" && b[q+6] == '"'
  }

  predicate Match(b: string, p: nat, d: nat, q: nat) { NumberAt(b, p, d) && p + 5 + d <= q && MarkAt(b, q) }

  lemma UpperSlice(b: string, i: nat, j: nat)
    requires i <= j <= |b|
    ensures Upper(b)[i..j] == Upper(b[i..j])
  {
  }

  lemma NumberRead(b: string, p: nat, d: nat)
    requires NumberAt(b, p, d)
    ensures NoAt(b, p) == p + 5 + d && Digits(b, p + 4) == d
  {
    UpperSlice(b, p, p + 4);
    DigitsAre(b, p + 4, d);
    assert b[p+4+d..p+5+d] == "\"";
  }

  lemma NumberFound(b: string, p: nat)
    requires NoAt(b, p) >= 0
    ensures NumberAt(b, p, Digits(b, p + 4)) && NoAt(b, p) == p + 5 + Digits(b, p + 4)
  {
    UpperSlice(b, p, p + 4);
    HasAtChar(b, p + 4 + Digits(b, p + 4), "\"", 0);
  }

  lemma MarkRead(b: string, q: nat)
    ensures EotAt(b, q) <==> MarkAt(b, q)
  {
    if q + 6 < |b| { UpperSlice(b, q, q + 5); }
  }

  lemma {:induction false} LastEotMost(b: string, from: nat, before: nat, q: nat)
    requires from <= q < before && EotAt(b, q)
    ensures LastEot(b, from, before) >= q
    decreases before
  {
    if !EotAt(b, before - 1) { LastEotMost(b, from, before - 1, q); }
  }

  lemma {:induction false} LastNoMost(b: string, before: nat, p: nat)
    requires p < before && NoAt(b, p) >= 0 && LastEot(b, NoAt(b, p), |b|) >= 0
    ensures LastNo(b, before) >= p
    decreases before
  {
    if p < before - 1 { LastNoMost(b, before - 1, p); }
  }

  lemma MatchFound(b: string, p: nat, d: nat, q: nat)
    requires Match(b, p, d, q)
    ensures LastNo(b, |b|) >= p && NoAt(b, p) == p + 5 + d && LastEot(b, p + 5 + d, |b|) >= q
  {
    NumberRead(b, p, d);
    MarkRead(b, q);
    LastEotMost(b, p + 5 + d, |b|, q);
    LastNoMost(b, |b|, p);
  }

  /** The match that the searches take: the last number with a mark behind it, and the last mark behind that. */
  predicate Taken(b: string, p: nat, d: nat, q: nat) {
    p == LastNo(b, |b|) && d == Digits(b, p + 4) && NoAt(b, p) == p + 5 + d && q == LastEot(b, p + 5 + d, |b|)
  }

  lemma TakenMatches(b: string, p: nat, d: nat, q: nat)
    requires Taken(b, p, d, q)
    ensures Match(b, p, d, q)
  {
    NumberFound(b, p);
    MarkRead(b, q);
  }

  lemma SomeTaken(b: string) returns (p: nat, d: nat, q: nat)
    requires LastNo(b, |b|) >= 0
    ensures Taken(b, p, d, q)
  {
    p := LastNo(b, |b|);
    d := Digits(b, p + 4);
    NumberFound(b, p);
    q := LastEot(b, NoAt(b, p), |b|);
  }

  lemma NoLaterNumber(b: string, p: nat, d: nat, q: nat, last: int)
    requires Match(b, p, d, q) && last == LastNo(b, |b|)
    ensures p <= last
  {
    MatchFound(b, p, d, q);
  }

  lemma NoLaterMark(b: string, p: nat, d: nat, q: nat, last: int)
    requires Match(b, p, d, q) && last == LastEot(b, p + 5 + d, |b|)
    ensures q <= last
  {
    MarkRead(b, q);
    LastEotMost(b, p + 5 + d, |b|, q);
  }

  lemma NamedIs(b: string)
    ensures Named(b) <==> (HasAt(Upper(b), 0, "FOOT") && (|b| == 4 || !WordChar(b[4])))
                          || (HasAt(Upper(b), 0, "FOOTER") && (|b| == 6 || !WordChar(b[6])))
  {
    if |b| >= 4 { UpperSlice(b, 0, 4); }
    if |b| >= 6 { UpperSlice(b, 0, 6); }
  }

  /** The search accepts exactly the bodies that the pattern matches. */
  lemma FooterIffPattern(b: string)
    ensures FooterBody(b) <==> Named(b) && exists p, d, q :: Match(b, p, d, q)
  {
    NamedIs(b);
    if exists p, d, q :: Match(b, p, d, q) {
      var p, d, q :| Match(b, p, d, q);
      MatchFound(b, p, d, q);
    }
    if LastNo(b, |b|) >= 0 {
      var p, d, q := SomeTaken(b);
      TakenMatches(b, p, d, q);
    }
  }

  /** No other match has a later number, or with the same number a later mark: what greedy stars take. */
  ghost predicate Latest(b: string, p: nat, d: nat, q: nat) {
    && Match(b, p, d, q)
    && forall p': nat, d': nat, q': nat :: Match(b, p', d', q') ==> p' <= p && (p' == p ==> q' <= q)
  }

  lemma LatestIsTaken(b: string, p: nat, d: nat, q: nat)
    requires LastNo(b, |b|) >= 0 && Latest(b, p, d, q)
    ensures Taken(b, p, d, q)
  {
    var p0, d0, q0 := SomeTaken(b);
    TakenMatches(b, p0, d0, q0);
    assert p0 <= p && (p0 == p ==> q0 <= q);
    NoLaterNumber(b, p, d, q, p0);
    SameTaken(b, p0, d0, q0, d, q);
  }

  lemma SameTaken(b: string, p: nat, d0: nat, q0: nat, d: nat, q: nat)
    requires Taken(b, p, d0, q0) && Match(b, p, d, q) && q0 <= q
    ensures d == d0 && q == q0
  {
    NumberRead(b, p, d);
    NoLaterMark(b, p, d, q, q0);
  }

  /** It takes out the number and the mark of the latest match. */
  lemma GroupsAreLatest(b: string, p: nat, d: nat, q: nat)
    requires FooterBody(b) && Latest(b, p, d, q)
    ensures Value(b[p+4..p+4+d]) == Some(Groups(b).0) && Groups(b).1 == (b[q+5] == '1')
  {
    LatestIsTaken(b, p, d, q);
    GroupsRead(b, p, d, q);
  }

  lemma GroupsRead(b: string, p: nat, d: nat, q: nat)
    requires FooterBody(b) && Taken(b, p, d, q)
    ensures Match(b, p, d, q) && Value(b[p+4..p+4+d]) == Some(Groups(b).0) && Groups(b).1 == (b[q+5] == '1')
  {
    TakenMatches(b, p, d, q);
    ValueOfDigits(b[p+4..p+4+d]);
  }

  lemma {:induction false} ValueOfDigits(s: string)
    requires forall k :: 0 <= k < |s| ==> IsDigit(s[k])
    ensures Value(s).Some?
  {
    if s != "" { ValueOfDigits(s[..|s|-1]); }
  }

  // ---------------------------------------------------------------- ROOT

  predicate Attributes(attrs: string) { attrs == "" || (Blank(attrs[0]) && Lacks(attrs, '>')) }

  function OpenWith(root: string, attrs: string): string { "<" + root + attrs + ">" }

  lemma OpenWithChars(root: string, attrs: string, rest: string)
    requires GoodRoot(root) && Attributes(attrs)
    ensures var z, n, m := OpenWith(root, attrs) + rest, |root|, |root| + |attrs|;
            && z[0] == '<' && z[1..1+n] == root && z[1+m] == '>'
            && z[2+m..] == rest && z[..2+m] == OpenWith(root, attrs)
            && (forall k :: 1 <= k < 1 + n ==> NameChar(z[k])) && !NameChar(z[1+n])
            && (forall k :: 1 + n <= k < 1 + m ==> z[k] != '>') && (attrs != "" ==> Blank(z[1+n]))
  {
    var z, n := OpenWith(root, attrs) + rest, |root|;
    assert z[1..1+n] == root && z[1+n..1+n+|attrs|] == attrs;
    forall k | 1 <= k < 1 + n ensures NameChar(z[k]) { assert z[k] == z[1..1+n][k-1]; }
    forall k | 1 + n <= k < 1 + n + |attrs| ensures z[k] != '>' { assert z[k] == z[1+n..1+n+|attrs|][k-1-n]; }
  }

  /** A root with attributes is found, and its name is what is in front of them. */
  lemma RootWithAttributes(root: string, attrs: string, rest: string)
    requires GoodRoot(root) && Attributes(attrs)
    ensures var z := OpenWith(root, attrs) + rest;
            FindRoot(z, 0) == 0 && RootAt(z, 0) == |OpenWith(root, attrs)| && NameEnd(z, 1) == 1 + |root|
  {
    var z, n := OpenWith(root, attrs) + rest, |root|;
    OpenWithChars(root, attrs, rest);
    NameEndIs(z, 1, 1 + n);
    NextChar(z, ">", 1 + n, 1 + n + |attrs|);
  }

  /** The parts of an element whose root has attributes. */
  lemma PartsWithAttributes(root: string, attrs: string, text: string)
    requires GoodRoot(root) && Attributes(attrs)
    ensures PartsIn(OpenWith(root, attrs) + text + Close(root))
            == Some(Parts(OpenWith(root, attrs), Close(root), text))
  {
    var o := OpenWith(root, attrs);
    var z := o + text + Close(root);
    Associates(o, text, Close(root));
    OpenWithChars(root, attrs, text + Close(root));
    RootWithAttributes(root, attrs, text + Close(root));
    LastOf(o + text, Close(root));
    assert z[|o|..|o|+|text|] == text;
  }

  // ---------------------------------------------------------------- a root that closes itself

  predicate PlainAttributes(attrs: string) { Attributes(attrs) && Lacks(attrs, '<') }

  function Empty(decl: string, root: string, attrs: string): string {
    Declaration(decl) + "\r" + ("<" + root + attrs + "/>")
  }

  /** Such a document: its first tag is the declaration and its second the root's, from `o` to the '>' at `g`. */
  lemma EmptyChars(decl: string, root: string, attrs: string, rest: string) returns (o: nat, g: nat)
    requires GoodRoot(root) && Lacks(decl, '<') && PlainAttributes(attrs) && Lacks(rest, '<')
    ensures var x, n := Empty(decl, root, attrs) + rest, |root|;
            && 0 < o && g == o + 2 + n + |attrs| < |x| && x[0] == '<' && x[1] == '?' && x[o] == '<'
            && (forall k :: 0 <= k < |x| && x[k] == '<' ==> k == 0 || k == o)
            && x[o+1..o+1+n] == root && (x[o+1+n] == '/' || Blank(x[o+1+n]))
            && x[g-1] == '/' && x[g] == '>' && x[g+1..] == rest && (forall k :: o + 1 + n <= k < g ==> x[k] != '>')
  {
    var d, t := Declaration(decl) + "\r", "<" + root + attrs + "/>";
    var x := Empty(decl, root, attrs) + rest;
    o := |d|;
    g := o + 2 + |root| + |attrs|;
    DeclarationChars(decl);
    OpenChars(root);
    assert x[o..g+1] == t && x[..o] == d && x[g+1..] == rest;
    forall k | 0 < k < |x| && k != o ensures x[k] != '<' {
      if k < o { assert d[k] == x[k]; } else if k <= g { assert t[k-o] == x[k]; } else { assert rest[k-g-1] == x[k]; }
    }
    assert t[1..1+|root|] == root && t[1+|root|..1+|root|+|attrs|] == attrs;
    forall k | o + 1 + |root| <= k < g ensures x[k] != '>' { assert t[k-o] == x[k]; }
  }

  lemma {:induction false} TagEndAt(x: string, j: nat, e: nat)
    requires j <= e < |x| && (x[e] == '/' || Blank(x[e])) && forall k :: j <= k < e ==> NameChar(x[k])
    ensures TagEnd(x, j) == e
    decreases e - j
  {
    if j < e { TagEndAt(x, j + 1, e); }
  }

  lemma EmptyRootName(decl: string, root: string, attrs: string, rest: string)
    requires GoodRoot(root) && Lacks(decl, '<') && PlainAttributes(attrs) && Lacks(rest, '<')
    ensures RootName(Empty(decl, root, attrs) + rest) == Some(root)
  {
    var x := Empty(decl, root, attrs) + rest;
    var o, g := EmptyChars(decl, root, attrs, rest);
    NextChar(x, "<", 0, 0);
    NextChar(x, "<", 1, o);
    forall k | o + 1 <= k < o + 1 + |root| ensures NameChar(x[k]) { assert x[k] == x[o+1..o+1+|root|][k-o-1]; }
    TagEndAt(x, o + 1, o + 1 + |root|);
    assert x[o+1] == x[o+1..o+1+|root|][0] == root[0];
    Skipped(x, 0, 0);
    NameFound(x, 1, o, root);
  }

  /** The only place where the root is opened is its own tag. */
  lemma OpenedAt(x: string, o: nat, root: string, k: int)
    requires root != "" && 0 < o < |x| && 1 < |x| && x[1] == '?' && root[0] != '?'
    requires forall k :: 0 <= k < |x| && x[k] == '<' ==> k == 0 || k == o
    ensures HasAt(x, k, "<" + root) ==> k == o
  {
    if HasAt(x, k, "<" + root) {
      HasAtChar(x, k, "<" + root, 0);
      HasAtChar(x, k, "<" + root, 1);
    }
  }

  lemma {:induction false} FirstSelfClosed(x: string, root: string, i: nat, o: nat)
    requires i <= o < |x| && forall k :: i <= k < o ==> SelfClosedAt(x, root, k) < 0
    requires SelfClosedAt(x, root, o) >= 0
    ensures SelfClosed(x, root, i) == SelfClosedAt(x, root, o)
    decreases o - i
  {
    if i < o { FirstSelfClosed(x, root, i + 1, o); }
  }

  lemma OwnTagCloses(x: string, root: string, o: nat, g: nat)
    requires root != "" && o + 1 + |root| < g < |x| && x[o..o+1+|root|] == "<" + root && x[g-1] == '/' && x[g] == '>'
    requires (x[o+1+|root|] == '/' || Blank(x[o+1+|root|])) && forall k :: o <= k < g ==> x[k] != '>'
    ensures SelfClosedAt(x, root, o) == if WordChar(root[|root|-1]) then g + 1 else -1
  {
    NextChar(x, ">", o, g);
  }

  lemma OnlyTagCloses(x: string, root: string, o: nat, g: nat)
    requires root != "" && 0 < o && o + 1 + |root| < g < |x| && x[1] == '?' && root[0] != '?'
    requires x[o..o+1+|root|] == "<" + root && x[g-1] == '/' && x[g] == '>'
    requires (x[o+1+|root|] == '/' || Blank(x[o+1+|root|])) && forall k :: o <= k < g ==> x[k] != '>'
    requires forall k :: 0 <= k < |x| && x[k] == '<' ==> k == 0 || k == o
    ensures if WordChar(root[|root|-1]) then SelfClosed(x, root, 0) == g + 1 else SelfClosed(x, root, 0) < 0
  {
    forall k: nat | k != o ensures SelfClosedAt(x, root, k) < 0 { OpenedAt(x, o, root, k); }
    OwnTagCloses(x, root, o, g);
    if WordChar(root[|root|-1]) { FirstSelfClosed(x, root, 0, o); } else { NeverSelfClosed(x, root, 0); }
  }

  lemma EmptySelfClosed(decl: string, root: string, attrs: string, rest: string)
    requires GoodRoot(root) && Lacks(decl, '<') && PlainAttributes(attrs) && Lacks(rest, '<')
    ensures var r := SelfClosed(Empty(decl, root, attrs) + rest, root, 0);
            if WordChar(root[|root|-1]) then r == |Empty(decl, root, attrs)| else r < 0
  {
    var x := Empty(decl, root, attrs) + rest;
    var o, g := EmptyChars(decl, root, attrs, rest);
    forall k | o <= k < g ensures x[k] != '>' {
      if o < k < o + 1 + |root| { assert x[k] == x[o+1..o+1+|root|][k-o-1]; }
    }
    assert x[o..o+1+|root|] == "<" + root;
    assert |x[g+1..]| == |rest|;
    OnlyTagCloses(x, root, o, g);
  }

  lemma EmptyNotClosed(decl: string, root: string, attrs: string, rest: string)
    requires GoodRoot(root) && Lacks(decl, '<') && PlainAttributes(attrs) && Lacks(rest, '<')
    ensures !Contains(Empty(decl, root, attrs) + rest, Close(root))
  {
    var x := Empty(decl, root, attrs) + rest;
    var o, g := EmptyChars(decl, root, attrs, rest);
    assert x[o+1] == x[o+1..o+1+|root|][0] == root[0];
    if Contains(x, Close(root)) {
      HasAtChar(x, IndexOf(x, Close(root), 0), Close(root), 0);
      HasAtChar(x, IndexOf(x, Close(root), 0), Close(root), 1);
    }
  }

  lemma NoFootEmpty(decl: string, root: string, attrs: string, rest: string)
    requires GoodRoot(root) && Lacks(decl, '<') && PlainAttributes(attrs) && Lacks(rest, '<')
    ensures NoFoot(Empty(decl, root, attrs) + rest)
  {
    var x := Empty(decl, root, attrs) + rest;
    var o, g := EmptyChars(decl, root, attrs, rest);
    assert x[o..o+1+|root|] == "<" + root;
    forall i | 0 <= i < |x| ensures !FootAt(x, i) {
      if i == o {
        if |root| >= 4 {
          assert x[o+1] == root[0] && x[o+2] == root[1] && x[o+3] == root[2] && x[o+4] == root[3] by {
            assert x[o+1..o+1+|root|] == root;
          }
          assert ("<" + root)[1..] == root;
        }
      }
    }
  }

  lemma ClosedByItself(x: string, root: string, e: nat)
    requires root != "" && RootName(x) == Some(root) && !Contains(x, Close(root)) && e <= |x|
    requires if WordChar(root[|root|-1]) then SelfClosed(x, root, 0) == e else SelfClosed(x, root, 0) < 0
    ensures RootClosed(x) <==> WordChar(root[|root|-1]) && Trim(x[e..], Kotlin) == ""
  {
  }

  lemma EmptyTaken(cmd: string, decl: string, root: string, attrs: string, rest: string)
    requires Lacks(cmd, '<') && GoodRoot(root) && Lacks(decl, '<') && PlainAttributes(attrs) && Lacks(rest, '<')
    ensures var x := Empty(decl, root, attrs) + rest; StripFooters(ExtractXml(Marker(cmd) + x)) == x
  {
    var x, t := Empty(decl, root, attrs) + rest, "<" + root + attrs + "/>";
    assert x == Declaration(decl) + (("\r" + t) + rest);
    DeclarationFound(cmd, decl, ("\r" + t) + rest);
    NoFootEmpty(decl, root, attrs, rest);
    NothingStripped(x);
  }

  /** A document whose root closes itself: it is complete if and only if only blanks follow, and the root's name ends in
      a letter, digit or underscore. */
  lemma SelfClosedCompleteIff(cmd: string, decl: string, root: string, attrs: string, rest: string)
    requires Lacks(cmd, '<') && GoodRoot(root) && Lacks(decl, '<') && PlainAttributes(attrs) && Lacks(rest, '<')
    ensures IsComplete(Marker(cmd) + (Empty(decl, root, attrs) + rest))
            <==> WordChar(root[|root|-1]) && Trim(rest, Kotlin) == ""
  {
    var x := Empty(decl, root, attrs) + rest;
    EmptyTaken(cmd, decl, root, attrs, rest);
    EmptyRootName(decl, root, attrs, rest);
    EmptyNotClosed(decl, root, attrs, rest);
    EmptySelfClosed(decl, root, attrs, rest);
    assert x[|Empty(decl, root, attrs)|..] == rest;
    ClosedByItself(x, root, |Empty(decl, root, attrs)|);
  }
}
