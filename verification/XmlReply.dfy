/**
 An XML reply that comes as two datagrams, first the bare "CMD,<XML>," marker and then the document: the case the
 loops of ReplyAssembler.kt and protocol.go are written for.
 */
module XmlReply {
  import opened FragmentText
  import opened Options
  import opened ReplyAssembler
  import opened Text
  import opened XmlText

  // ---------------------------------------------------------------- lines

  predicate Unbroken(s: string) { Lacks(s, '\r') && Lacks(s, '\n') }

  lemma OneLine(s: string)
    requires Lacks(s, '\r')
    ensures Lines(s) == [s]
  {
    var i := IndexOf(s, "\r", 0);
    if i >= 0 { HasAtChar(s, i, "\r", 0); }
  }

  lemma FirstLine(a: string, b: string)
    requires Lacks(a, '\r')
    ensures Lines(a + "\r" + b) == [a] + Lines(b)
  {
    var s := a + "\r" + b;
    assert s[|a|..|a|+1] == "\r";
    forall i | 0 <= i < |a| ensures !HasAt(s, i, "\r") {
      assert s[i] == a[i];
      if HasAt(s, i, "\r") { HasAtChar(s, i, "\r", 0); }
    }
    IndexOfIs(s, "\r", 0, |a|);
    assert s[..|a|] == a && s[|a|+1..] == b;
  }

  /** Splitting into lines loses nothing. */
  lemma {:induction false} LinesJoined(s: string)
    ensures Join(Lines(s), "\r") == s && forall k :: 0 <= k < |Lines(s)| ==> Lacks(Lines(s)[k], '\r')
    decreases |s|
  {
    var i := IndexOf(s, "\r", 0);
    if i < 0 {
      forall k | 0 <= k < |s| ensures s[k] != '\r' { NotThere(s, k, '\r'); }
    } else {
      HasAtChar(s, i, "\r", 0);
      LinesJoined(s[i+1..]);
      assert s == s[..i] + "\r" + s[i+1..];
      forall k | 0 <= k < i ensures s[k] != '\r' { NotThere(s, k, '\r'); }
    }
  }

  lemma NoNewlines(s: string)
    requires Lacks(s, '\n')
    ensures NewlinesToCr(s) == s
  {
  }

  // ---------------------------------------------------------------- lines that do not answer

  predicate Command(cmd: string) {
    && cmd != "" && Unbroken(cmd) && Lacks(cmd, '<') && Lacks(cmd, '\0')
    && Upper(cmd) == cmd && !IsSpace(cmd[0], Kotlin)
  }

  lemma TagStaysFirst(line: string, lang: Lang)
    requires line != "" && line[0] == '<'
    ensures Upper(Trim(line, lang)) != "" && Upper(Trim(line, lang))[0] == '<'
  {
    TrimRightIs(line, lang);
    assert TrimLeft(line, lang) == line;
  }

  /** A line that starts a tag is neither the marker nor an error nor an answer. */
  lemma TagIsNoAnswer(line: string, cmd: string, lang: Lang)
    requires line != "" && line[0] == '<' && Command(cmd)
    ensures !IsMarker(line, cmd, lang) && !IsError(Upper(Trim(line, lang)), cmd) && !Answers(line, cmd, lang)
  {
    var u := Upper(Trim(line, lang));
    TagStaysFirst(line, lang);
    if HasAt(u, 0, cmd + ",") { HasAtChar(u, 0, cmd + ",", 0); }
  }

  function MarkerLine(cmd: string): string { cmd + ",<XML>," }

  lemma MarkerIsMarker(cmd: string, lang: Lang)
    requires Command(cmd)
    ensures IsMarker(MarkerLine(cmd), cmd, lang) && Lacks(MarkerLine(cmd), '\r') && IsXmlReply(MarkerLine(cmd))
  {
    var m := MarkerLine(cmd);
    assert Trim(m, lang) == m by { assert m[|m|-1] == ','; }
    assert Upper(m) == Upper(cmd) + ",<XML>,";
    assert HasAt(Upper(m), |cmd|, ",<XML>,") by { assert Upper(m)[|cmd|..|cmd|+7] == ",<XML>,"; }
  }

  // ---------------------------------------------------------------- the two datagrams

  function Waiting(cmd: string): State { NOTHING.(ordinary := [MarkerLine(cmd)]) }

  lemma MarkerTaken(cmd: string)
    requires Command(cmd)
    ensures OfferText(NOTHING, Marker(cmd), cmd) == (Waiting(cmd), None)
  {
    var m := MarkerLine(cmd);
    MarkerIsMarker(cmd, Kotlin);
    NoNewlines(Marker(cmd));
    FirstLine(m, "");
    assert Marker(cmd) == m + "\r" + "";
    OneLine("");
    assert TakeLines([m], [""], cmd) == ([m], None);
    assert TakeLines([], [m, ""], cmd) == ([m], None) by {
      assert [m, ""][1..] == [""] && [] + [m] == [m];
    }
    MarkerIsIncomplete(m, cmd, Kotlin);
  }

  lemma PlainText(text: string, lang: Lang)
    requires NoFoot(text) && (text != "" ==> text[|text|-1] != '\0')
    ensures Classify(text, lang) == Plain(text)
  {
    assert CutRight(text, "\0") == text;
    FindPast(text, 0, |text|);
  }

  /** The marker on its own is kept and answered with nothing. */
  lemma MarkerKept(cmd: string)
    requires Command(cmd)
    ensures Accept(NOTHING, Classify(Marker(cmd), Kotlin), cmd) == (Waiting(cmd), None)
  {
    NoFootMarker(cmd);
    PlainText(Marker(cmd), Kotlin);
    MarkerTaken(cmd);
  }

  /** Each line starts a tag. */
  predicate Tags(lines: seq<string>) { forall k :: 0 <= k < |lines| ==> lines[k] != "" && lines[k][0] == '<' }

  /** The lines of a datagram may end in a carriage return of their own. */
  predicate Ending(end: string) { end == "" || end == "\r" }

  predicate Whole(decl: string, root: string, rest: string) {
    && Unbroken(decl) && Lacks(decl, '<') && GoodRoot(root) && Lacks(rest, '\n') && NoFoot(rest)
    && (rest != "" ==> rest[|rest|-1] != '\0') && Tags(Lines(Open(root) + rest))
  }

  lemma {:induction false} TagsTaken(all: seq<string>, lines: seq<string>, end: seq<string>, cmd: string)
    requires Command(cmd) && Tags(lines) && (end == [] || end == [""])
    ensures TakeLines(all, lines + end, cmd) == (all + lines, None)
    decreases |lines|
  {
    if lines == [] {
      assert TakeLines(all, [], cmd) == (all, None);
      assert lines + end == end && all + lines == all;
    } else {
      assert (lines + end)[1..] == lines[1..] + end;
      TagIsNoAnswer(lines[0], cmd, Kotlin);
      Associates(all, [lines[0]], lines[1..]);
      assert [lines[0]] + lines[1..] == lines;
      TagsTaken(all + [lines[0]], lines[1..], end, cmd);
    }
  }

  lemma NotThere(s: string, k: nat, c: char)
    requires k < |s| && !HasAt(s, k, [c])
    ensures s[k] != c
  {
    assert s[k..k+1] == [s[k]];
  }

  /** A text is its first line and the rest, or one line. */
  lemma SplitOnce(s: string) returns (a: string, b: string)
    ensures if |Lines(s)| == 1 then s == a && b == "" && Lacks(a, '\r') && Lines(s) == [a]
            else s == a + "\r" + b && Lacks(a, '\r') && Lines(s) == [a] + Lines(b) && |b| < |s|
  {
    var i := IndexOf(s, "\r", 0);
    if i < 0 {
      a, b := s, "";
      forall k | 0 <= k < |s| ensures s[k] != '\r' { NotThere(s, k, '\r'); }
    } else {
      HasAtChar(s, i, "\r", 0);
      a, b := s[..i], s[i+1..];
      forall k | 0 <= k < i ensures s[k] != '\r' { NotThere(s, k, '\r'); }
    }
  }

  lemma {:induction false} LinesEnded(s: string)
    ensures Lines(s + "\r") == Lines(s) + [""]
    decreases |s|
  {
    var a, b := SplitOnce(s);
    if |Lines(s)| == 1 {
      FirstLine(a, "");
      OneLine("");
      assert a + "\r" + "" == s + "\r";
    } else {
      LinesEnded(b);
      FirstLine(a, b + "\r");
      assert a + "\r" + (b + "\r") == s + "\r";
      Associates([a], Lines(b), [""]);
    }
  }

  lemma RootUnbroken(root: string)
    requires GoodRoot(root)
    ensures Unbroken(Open(root))
  {
    var o := Open(root);
    forall k | 0 <= k < |o| ensures o[k] != '\r' && o[k] != '\n' {
      assert k == 0 || k == |o| - 1 || NameChar(o[k]);
    }
  }

  lemma DeclarationUnbroken(decl: string)
    requires Unbroken(decl)
    ensures Unbroken(Declaration(decl)) && Tags([Declaration(decl)])
  {
    var d := Declaration(decl);
    forall k | 0 <= k < |d| ensures d[k] != '\r' && d[k] != '\n' {
      assert 5 <= k < 5 + |decl| ==> d[k] == decl[k-5];
    }
  }

  function EndLines(end: string): seq<string> { if end == "" then [] else [""] }

  lemma FourParts<T>(a: seq<T>, b: seq<T>, c: seq<T>, d: seq<T>)
    ensures ((a + b) + c) + d == a + ((b + c) + d)
  {
  }

  lemma LinesBehind(a: string, e: string, end: string)
    requires Unbroken(a) && Lacks(e, '\n') && Ending(end)
    ensures Lines(NewlinesToCr(a + "\r" + (e + end))) == [a] + Lines(e) + EndLines(end)
  {
    NoNewlines(a + "\r" + (e + end));
    FirstLine(a, e + end);
    if end == "" { assert e + end == e; } else { LinesEnded(e); }
  }

  lemma DocumentLines(decl: string, root: string, rest: string, end: string)
    requires Whole(decl, root, rest) && Ending(end)
    ensures Lines(NewlinesToCr(Begun(decl, root) + rest + end))
            == [Declaration(decl)] + Lines(Open(root) + rest) + EndLines(end)
  {
    RootUnbroken(root);
    DeclarationUnbroken(decl);
    FourParts(Declaration(decl) + "\r", Open(root), rest, end);
    LinesBehind(Declaration(decl), Open(root) + rest, end);
  }

  lemma JoinBehind(a: string, lines: seq<string>)
    requires lines != []
    ensures Join([a] + lines, "\r") == a + "\r" + Join(lines, "\r")
  {
    assert ([a] + lines)[1..] == lines;
  }

  lemma BothIsXml(cmd: string, rest: string)
    requires Command(cmd)
    ensures IsXmlReply(MarkerLine(cmd) + rest)
  {
    var s := MarkerLine(cmd) + rest;
    assert Upper(s)[|cmd|..|cmd|+7] == ",<XML>,";
    assert HasAt(Upper(s), |cmd|, ",<XML>,");
  }

  lemma ReplyIs(cmd: string, decl: string, root: string, rest: string)
    ensures Marker(cmd) + (Begun(decl, root) + rest)
            == MarkerLine(cmd) + "\r" + (Declaration(decl) + "\r" + (Open(root) + rest))
  {
    assert Marker(cmd) == MarkerLine(cmd) + "\r";
    Associates(Declaration(decl) + "\r", Open(root), rest);
  }

  /** What is gathered, joined, is marker and document. */
  lemma GatheredReply(cmd: string, decl: string, root: string, rest: string)
    requires Command(cmd)
    ensures Join([MarkerLine(cmd)] + ([Declaration(decl)] + Lines(Open(root) + rest)), "\r")
            == Marker(cmd) + (Begun(decl, root) + rest)
  {
    var lines := Lines(Open(root) + rest);
    LinesJoined(Open(root) + rest);
    JoinBehind(Declaration(decl), lines);
    JoinBehind(MarkerLine(cmd), [Declaration(decl)] + lines);
    ReplyIs(cmd, decl, root, rest);
  }

  lemma OfferedLines(
    st: State, cmd: string, text: string, lines: seq<string>, end: seq<string>, reply: string)
    requires Command(cmd) && Lines(NewlinesToCr(text)) == lines + end && Tags(lines) && (end == [] || end == [""])
    requires lines != [] && reply == Join(st.ordinary + lines, "\r") && IsXmlReply(reply)
    ensures OfferText(st, text, cmd).1 == if IsComplete(reply) then Some(reply) else None
  {
    TagsTaken(st.ordinary, lines, end, cmd);
  }

  lemma DocumentTaken(cmd: string, decl: string, root: string, rest: string, end: string)
    requires Command(cmd) && Whole(decl, root, rest) && Ending(end)
    ensures var reply := Marker(cmd) + (Begun(decl, root) + rest);
            OfferText(Waiting(cmd), Begun(decl, root) + rest + end, cmd).1
            == if IsComplete(reply) then Some(reply) else None
  {
    var lines := [Declaration(decl)] + Lines(Open(root) + rest);
    DocumentLines(decl, root, rest, end);
    DeclarationUnbroken(decl);
    GatheredReply(cmd, decl, root, rest);
    ReplyIs(cmd, decl, root, rest);
    Associates(MarkerLine(cmd), "\r", Declaration(decl) + "\r" + (Open(root) + rest));
    BothIsXml(cmd, "\r" + (Declaration(decl) + "\r" + (Open(root) + rest)));
    OfferedLines(Waiting(cmd), cmd, Begun(decl, root) + rest + end, lines, EndLines(end),
                 Marker(cmd) + (Begun(decl, root) + rest));
  }

  lemma WholeIsPlain(decl: string, root: string, rest: string, end: string, lang: Lang)
    requires Whole(decl, root, rest) && Ending(end)
    ensures Classify(Begun(decl, root) + rest + end, lang) == Plain(Begun(decl, root) + rest + end)
  {
    var document := Begun(decl, root) + rest;
    NoFootBegun(decl, root, rest);
    NoFootWithout(end);
    NoFootJoined(document, end);
    assert rest == "" ==> document == Begun(decl, root);
    assert end == "" ==> document + end == document;
    PlainText(document + end, lang);
  }

  /** Then the document, of any number of lines: the offer answers with marker and document if and only if the root has
      been closed. */
  lemma DocumentAnsweredIffClosed(cmd: string, decl: string, root: string, rest: string, end: string)
    requires Command(cmd) && Whole(decl, root, rest) && Ending(end) && OpenedOnce(root, rest)
    ensures var document := Begun(decl, root) + rest;
            Accept(Waiting(cmd), Classify(document + end, Kotlin), cmd).1
            == if Contains(rest, Close(root)) then Some(Marker(cmd) + document) else None
  {
    WholeIsPlain(decl, root, rest, end, Kotlin);
    DocumentTaken(cmd, decl, root, rest, end);
    CompleteIffClosed(cmd, decl, root, rest);
  }

  /** What is complete does not need the marker in front. */
  lemma CompleteAlone(cmd: string, decl: string, root: string, rest: string)
    requires Lacks(cmd, '<') && Lacks(decl, '<') && GoodRoot(root) && NoFoot(rest)
    ensures var x := Begun(decl, root) + rest; IsXmlReply(x) && (IsComplete(x) <==> IsComplete(Marker(cmd) + x))
  {
    var x := Begun(decl, root) + rest;
    assert x == Declaration(decl) + ("\r" + Open(root) + rest);
    DeclarationFound(cmd, decl, "\r" + Open(root) + rest);
    assert HasAt(x, 0, "<?xml") by { assert x[..5] == "<?xml"; }
  }

  lemma BareGathered(decl: string, root: string, rest: string)
    ensures Join(NOTHING.ordinary + ([Declaration(decl)] + Lines(Open(root) + rest)), "\r") == Begun(decl, root) + rest
  {
    var lines := [Declaration(decl)] + Lines(Open(root) + rest);
    LinesJoined(Open(root) + rest);
    JoinBehind(Declaration(decl), Lines(Open(root) + rest));
    Associates(Declaration(decl) + "\r", Open(root), rest);
    assert NOTHING.ordinary + lines == lines;
  }

  /** The same for a document that comes without a marker: its declaration alone makes it an XML reply. */
  lemma BareDocumentAnsweredIffClosed(cmd: string, decl: string, root: string, rest: string, end: string)
    requires Command(cmd) && Whole(decl, root, rest) && Ending(end) && OpenedOnce(root, rest)
    ensures var document := Begun(decl, root) + rest;
            Accept(NOTHING, Classify(document + end, Kotlin), cmd).1
            == if Contains(rest, Close(root)) then Some(document) else None
  {
    WholeIsPlain(decl, root, rest, end, Kotlin);
    BareTaken(cmd, decl, root, rest, end);
    CompleteAlone(cmd, decl, root, rest);
    CompleteIffClosed(cmd, decl, root, rest);
  }

  lemma BareTaken(cmd: string, decl: string, root: string, rest: string, end: string)
    requires Command(cmd) && Whole(decl, root, rest) && Ending(end)
    ensures var document := Begun(decl, root) + rest;
            OfferText(NOTHING, document + end, cmd).1 == if IsComplete(document) then Some(document) else None
  {
    var document, lines := Begun(decl, root) + rest, [Declaration(decl)] + Lines(Open(root) + rest);
    DocumentLines(decl, root, rest, end);
    DeclarationUnbroken(decl);
    BareGathered(decl, root, rest);
    CompleteAlone(cmd, decl, root, rest);
    OfferedLines(NOTHING, cmd, document + end, lines, EndLines(end), document);
  }
}
