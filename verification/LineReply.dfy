/**
 Replies of one line, "CMD,..." as most commands have them, from the text of a datagram to the answer of either
 program, and what a timeout makes of lines that answer nothing.
 */
module LineReply {
  import opened FragmentText
  import opened Options
  import opened ReplyAssembler
  import opened Text
  import opened UdpCommand
  import opened XmlReply
  import opened XmlText

  // ---------------------------------------------------------------- the name of a command

  predicate Spaces(s: string, lang: Lang) { forall k :: 0 <= k < |s| ==> IsSpace(s[k], lang) }

  /** What is sent is the command, blanks allowed around its name, and after a comma its arguments; a reply is expected
      under the name in capitals. */
  lemma CommandNamed(x: string, name: string, y: string, args: string, lang: Lang)
    requires Spaces(x, lang) && Spaces(y, lang) && Lacks(name, ',')
    requires name != "" && !IsSpace(name[0], lang) && !IsSpace(name[|name|-1], lang)
    ensures CommandName(x + name + y, lang) == CommandName(x + name + y + "," + args, lang) == Upper(name)
  {
    var s := x + name + y;
    var w := s + "," + args;
    TrimIs(x, name, y, lang);
    forall k | 0 <= k < |s| ensures s[k] != ',' && w[k] == s[k] {
    }
    if IndexOf(s, ",", 0) >= 0 { HasAtChar(s, IndexOf(s, ",", 0), ",", 0); }
    NextChar(w, ",", 0, |s|);
    assert w[..|s|] == s;
  }

  // ---------------------------------------------------------------- one line in a datagram

  predicate LineEnding(end: string) { end == "" || end == "\r" || end == "\n" || end == "\r\n" }

  /** A datagram of one line, without a footer. */
  predicate Sole(line: string, end: string) {
    && line != "" && Unbroken(line) && NoFoot(line) && LineEnding(end) && (end == "" ==> line[|line|-1] != '\0')
  }

  /** No sign of an XML reply. */
  predicate NoXml(s: string) { !Contains(Upper(s), ",<XML>,") && !Contains(s, "<?xml") }

  predicate Empties(lines: seq<string>) { forall k :: 0 <= k < |lines| ==> lines[k] == "" }

  lemma SoleIsPlain(line: string, end: string, lang: Lang)
    requires Sole(line, end)
    ensures Classify(line + end, lang) == Plain(line + end)
  {
    var text := line + end;
    forall i | 0 <= i < |text| ensures !FootAt(text, i) {
      if i + 5 <= |line| {
        assert FootAt(text, i) == FootAt(line, i);
      } else if i + 5 <= |text| {
        var k := if i < |line| then |line| else i;
        assert i <= k < i + 5 && (text[k] == '\r' || text[k] == '\n');
      }
    }
    PlainText(text, lang);
  }

  lemma SoleLines(line: string, end: string) returns (more: seq<string>)
    requires Sole(line, end)
    ensures Lines(NewlinesToCr(line + end)) == [line] + more && Empties(more)
  {
    OneLine("");
    if end == "" {
      more := [];
      assert NewlinesToCr(line + end) == line;
      OneLine(line);
    } else if end == "\r\n" {
      more := ["", ""];
      assert NewlinesToCr(line + end) == line + "\r" + "\r";
      FirstLine("", "");
      assert "" + "\r" + "" == "\r";
      FirstLine(line, "\r");
    } else {
      more := [""];
      assert NewlinesToCr(line + end) == line + "\r" + "";
      FirstLine(line, "");
    }
  }

  lemma JoinSnoc(all: seq<string>, line: string)
    ensures Join(all + [line], "\r") == if all == [] then line else Join(all, "\r") + "\r" + line
    decreases |all|
  {
    if all == [] {
      assert all + [line] == [line];
    } else {
      assert (all + [line])[1..] == all[1..] + [line];
      JoinSnoc(all[1..], line);
    }
  }

  lemma UpperJoined(a: string, b: string)
    ensures Upper(a + b) == Upper(a) + Upper(b)
  {
  }

  lemma HasAtBehind(a: string, b: string, i: nat, pat: string)
    requires HasAt(b, i, pat)
    ensures HasAt(a + b, |a| + i, pat)
  {
    assert (a + b)[|a|+i..|a|+i+|pat|] == b[i..i+|pat|];
  }

  /** The marker would be a sign of XML. */
  lemma NoMarkerLine(all: seq<string>, line: string, cmd: string, lang: Lang)
    requires Command(cmd) && NoXml(Join(all + [line], "\r"))
    ensures !IsMarker(line, cmd, lang)
  {
    if IsMarker(line, cmd, lang) {
      var a, b := TrimIsInside(line, lang);
      MarkerInside(a, Trim(line, lang), b, cmd);
      JoinSnoc(all, line);
      var at := |a| + |cmd|;
      if all != [] {
        HasAtBehind(Upper(Join(all, "\r") + "\r"), Upper(line), at, ",<XML>,");
        UpperJoined(Join(all, "\r") + "\r", line);
      }
    }
  }

  lemma {:induction false} EmptiesTaken(all: seq<string>, lines: seq<string>, cmd: string, parses: string -> bool)
    requires Empties(lines)
    ensures TakeLines(all, lines, cmd) == (all, None) && GoLines(all, lines, cmd, parses) == (all, None)
    decreases |lines|
  {
    if lines != [] { EmptiesTaken(all, lines[1..], cmd, parses); }
  }

  // ---------------------------------------------------------------- the Android assembler

  lemma PrefixIsHasAt(u: string, p: string)
    ensures HasAt(u, 0, p) <==> p <= u
  {
  }

  lemma SoleTaken(all: seq<string>, line: string, more: seq<string>, cmd: string)
    requires Command(cmd) && line != "" && Empties(more) && NoXml(Join(all + [line], "\r"))
    ensures var u := Upper(Trim(line, Kotlin));
            TakeLines(all, [line] + more, cmd)
            == (all + [line], if IsError(u, cmd) then Some(u)
                              else if u == cmd || cmd + "," <= u then Some(Join(all + [line], "\r")) else None)
  {
    var lines := [line] + more;
    assert lines[0] == line && lines[1..] == more;
    NoMarkerLine(all, line, cmd, Kotlin);
    PrefixIsHasAt(Upper(Trim(line, Kotlin)), cmd + ",");
    EmptiesTaken(all + [line], more, cmd, s => true);
  }

  /** A line that comes alone, behind any others, without a sign of XML: an error is answered with that error, a line
      that is the command's name or begins with it and a comma with everything gathered, and any other line is kept. */
  lemma LineFate(st: State, line: string, end: string, cmd: string)
    requires Command(cmd) && Sole(line, end) && NoXml(Join(st.ordinary + [line], "\r"))
    ensures var u, all := Upper(Trim(line, Kotlin)), st.ordinary + [line];
            Accept(st, Classify(line + end, Kotlin), cmd)
            == (st.(ordinary := all),
                if u == "ERR" || u == cmd + ",NG" || u == cmd + ",ERR" then Some(u)
                else if u == cmd || cmd + "," <= u then Some(Join(all, "\r")) else None)
  {
    SoleIsPlain(line, end, Kotlin);
    var more := SoleLines(line, end);
    SoleTaken(st.ordinary, line, more, cmd);
  }

  lemma {:induction false} TrimRightBehind(a: string, b: string, lang: Lang)
    requires a != "" && !IsSpace(a[|a|-1], lang)
    ensures TrimRight(a + b, lang) == a + TrimRight(b, lang)
    decreases |b|
  {
    if b == "" {
      assert a + b == a;
    } else if IsSpace(b[|b|-1], lang) {
      assert (a + b)[..|a+b|-1] == a + b[..|b|-1];
      TrimRightBehind(a, b[..|b|-1], lang);
    }
  }

  lemma NotTrimmedLeft(cmd: string, s: string, lang: Lang)
    requires Command(cmd) && cmd <= s
    ensures TrimLeft(s, lang) == s
  {
    assert s[0] == cmd[0] && !IsSpace(cmd[0], Kotlin);
  }

  /** The text of a plain reply, in capitals and without blanks around it. */
  lemma ReplyTrimmed(cmd: string, args: string, lang: Lang)
    requires Command(cmd)
    ensures Upper(Trim(cmd + "," + args, lang)) == cmd + "," + Upper(TrimRight(args, lang))
  {
    var a := cmd + ",";
    NotTrimmedLeft(cmd, a + args, lang);
    TrimRightBehind(a, args, lang);
    UpperJoined(a, TrimRight(args, lang));
    UpperJoined(cmd, ",");
    assert Upper(",") == ",";
  }

  lemma ErrorOf(cmd: string, e: string)
    ensures var u := cmd + "," + e;
            (u == "ERR" || u == cmd + ",NG" || u == cmd + ",ERR" <==> e == "NG" || e == "ERR") && cmd + "," <= u
  {
    var u := cmd + "," + e;
    assert u[|cmd|] == ',' && u[|cmd|+1..] == e;
    assert (cmd + ",NG")[|cmd|+1..] == "NG" && (cmd + ",ERR")[|cmd|+1..] == "ERR";
    assert e == "NG" ==> u == cmd + ",NG";
    assert e == "ERR" ==> u == cmd + ",ERR";
  }

  /** The plain reply to a command, as the first datagram: it is answered at once and as it is, if it is no error. */
  lemma PlainReplyAnswered(cmd: string, args: string, end: string)
    requires Command(cmd) && Sole(cmd + "," + args, end) && NoXml(cmd + "," + args)
    ensures var e := Upper(TrimRight(args, Kotlin));
            Accept(NOTHING, Classify(cmd + "," + args + end, Kotlin), cmd).1
            == Some(cmd + "," + if e == "NG" || e == "ERR" then e else args)
  {
    var line, e := cmd + "," + args, Upper(TrimRight(args, Kotlin));
    assert NOTHING.ordinary + [line] == [line];
    ReplyTrimmed(cmd, args, Kotlin);
    ErrorOf(cmd, e);
    LineFate(NOTHING, line, end, cmd);
  }

  // ---------------------------------------------------------------- lines that answer nothing, and the timeout

  predicate Answering(u: string, cmd: string) { u == cmd || cmd + "," <= u }

  /** The line is neither an error nor an answer. */
  predicate Idle(line: string, cmd: string) {
    var u := Upper(Trim(line, Kotlin)); u != "ERR" && u != cmd + ",NG" && u != cmd + ",ERR" && !Answering(u, cmd)
  }

  /** A datagram each, ended by a carriage return. */
  function Datagrams(lines: seq<string>): seq<string> {
    seq(|lines|, i requires 0 <= i < |lines| => lines[i] + "\r")
  }

  predicate AllSole(lines: seq<string>) { forall k :: 0 <= k < |lines| ==> Sole(lines[k], "\r") }

  predicate AllIdle(lines: seq<string>, cmd: string) { forall k :: 0 <= k < |lines| ==> Idle(lines[k], cmd) }

  lemma ContainsLonger(a: string, b: string, pat: string)
    ensures Contains(a, pat) ==> Contains(a + b, pat)
  {
    if Contains(a, pat) {
      var i := IndexOf(a, pat, 0);
      assert (a + b)[i..i+|pat|] == a[i..i+|pat|];
      assert HasAt(a + b, i, pat);
    }
  }

  lemma NoXmlFront(all: seq<string>, line: string)
    requires NoXml(Join(all + [line], "\r"))
    ensures NoXml(Join(all, "\r"))
  {
    JoinSnoc(all, line);
    if all != [] {
      ContainsLonger(Join(all, "\r"), "\r" + line, "<?xml");
      ContainsLonger(Upper(Join(all, "\r")), Upper("\r" + line), ",<XML>,");
      UpperJoined(Join(all, "\r"), "\r" + line);
      Associates(Join(all, "\r"), "\r", line);
    }
  }

  lemma {:induction false} IdleKept(lines: seq<string>, cmd: string)
    requires Command(cmd) && AllSole(lines) && AllIdle(lines, cmd) && NoXml(Join(lines, "\r"))
    ensures Offered(cmd, Datagrams(lines)) == NOTHING.(ordinary := lines)
  {
    if lines != [] {
      var front, last := lines[..|lines|-1], lines[|lines|-1];
      assert lines == front + [last];
      NoXmlFront(front, last);
      IdleKept(front, cmd);
      assert Datagrams(lines)[..|front|] == Datagrams(front) && Datagrams(lines)[|front|] == last + "\r";
      LineFate(NOTHING.(ordinary := front), last, "\r", cmd);
    } else {
      assert Datagrams(lines) == [];
    }
  }

  /** Over any lines that answer nothing: each is kept, the first that answers brings all of them with it, and a timeout
      before that returns what has come. */
  lemma GatheredUntilAnswered(lines: seq<string>, line: string, cmd: string, bound: nat)
    requires Command(cmd) && AllSole(lines) && AllIdle(lines, cmd) && Sole(line, "\r")
    requires NoXml(Join(lines + [line], "\r"))
    ensures Answering(Upper(Trim(line, Kotlin)), cmd) && !IsError(Upper(Trim(line, Kotlin)), cmd) ==>
              Accept(Offered(cmd, Datagrams(lines)), Classify(line + "\r", Kotlin), cmd).1
              == Some(Join(lines + [line], "\r"))
    ensures Timeout(Offered(cmd, Datagrams(lines)), cmd, bound)
            == if lines == [] then None else Some(Join(lines, "\r"))
  {
    NoXmlFront(lines, line);
    IdleKept(lines, cmd);
    LineFate(NOTHING.(ordinary := lines), line, "\r", cmd);
    NoMarkerLine([], Join(lines, "\r"), cmd, Kotlin);
  }

  // ---------------------------------------------------------------- udpCommand

  /** A tag starts somewhere, or everything starts with a '<'. */
  ghost predicate Tagged(s: string) {
    || (exists i :: 0 <= i < |s| && RootAt(s, i) >= 0)
    || (Trim(s, Go) != "" && Trim(s, Go)[0] == '<')
  }

  /** Without a marker or a declaration a text looks like XML exactly when it is tagged. */
  lemma LooksLikeXmlIffTagged(s: string)
    requires NoXml(s)
    ensures LooksLikeXml(s) <==> Tagged(s)
  {
    var r := FindRoot(s, 0);
    if r >= 0 {
      assert ExtractXml(s) == s[r..] && s[r..][0] == '<';
      TagStaysFirst(s[r..], Go);
      TrimRightIs(s[r..], Go);
      assert TrimLeft(s[r..], Go) == s[r..];
    }
  }

  lemma GoSoleTaken(all: seq<string>, line: string, more: seq<string>, cmd: string, parses: string -> bool)
    requires Command(cmd) && line != "" && Empties(more) && NoXml(Join(all + [line], "\r"))
    ensures var joined := Join(all + [line], "\r"); var (g, r) := GoLines(all, [line] + more, cmd, parses);
            && g == all + [line]
            && r == if Answering(Upper(Trim(line, Go)), cmd) && (!Tagged(joined) || Parses(joined, parses))
                    then Some(joined) else None
  {
    var lines := [line] + more;
    assert lines[0] == line && lines[1..] == more;
    NoMarkerLine(all, line, cmd, Go);
    PrefixIsHasAt(Upper(Trim(line, Go)), cmd + ",");
    LooksLikeXmlIffTagged(Join(all + [line], "\r"));
    EmptiesTaken(all + [line], more, cmd, parses);
  }

  /** The same line in Go: with a tag in what is gathered it is answered if and only if that parses, without one if and
      only if the line is the command's name or begins with it and a comma; errors are answers like any other. */
  lemma GoLineFate(st: State, line: string, end: string, cmd: string, parses: string -> bool)
    requires Command(cmd) && Sole(line, end) && NoXml(Join(st.ordinary + [line], "\r"))
    ensures var u, all := Upper(Trim(line, Go)), st.ordinary + [line]; var joined := Join(all, "\r");
            GoAccept(st, Classify(line + end, Go), cmd, parses)
            == (st.(ordinary := all),
                if Tagged(joined) then (if parses(StripFooters(ExtractXml(joined))) then Some(joined) else None)
                else if u == cmd || cmd + "," <= u then Some(joined) else None)
  {
    SoleIsPlain(line, end, Go);
    var more := SoleLines(line, end);
    LooksLikeXmlIffTagged(Join(st.ordinary + [line], "\r"));
    GoSoleTaken(st.ordinary, line, more, cmd, parses);
  }

  /** A plain reply that is no error: the programs answer it alike if and only if there is no tag in it, or Go can parse
      it from the tag on. Text in a tag's form, which the display may show, keeps Go waiting for its timeout. */
  lemma PlainReplyAnsweredAlikeIff(cmd: string, args: string, end: string, parses: string -> bool)
    requires Command(cmd) && Sole(cmd + "," + args, end) && NoXml(cmd + "," + args)
    requires Upper(TrimRight(args, Kotlin)) != "NG" && Upper(TrimRight(args, Kotlin)) != "ERR"
    ensures var line := cmd + "," + args;
            GoAccept(NOTHING, Classify(line + end, Go), cmd, parses).1
            == Accept(NOTHING, Classify(line + end, Kotlin), cmd).1
            <==> (exists i :: 0 <= i < |line| && RootAt(line, i) >= 0) ==> parses(StripFooters(ExtractXml(line)))
  {
    var line := cmd + "," + args;
    assert NOTHING.ordinary + [line] == [line];
    PlainReplyAnswered(cmd, args, end);
    GoLineFate(NOTHING, line, end, cmd, parses);
    ReplyTrimmed(cmd, args, Go);
    NotTagFirst(cmd, args);
  }

  lemma NotTagFirst(cmd: string, args: string)
    requires Command(cmd)
    ensures Trim(cmd + "," + args, Go) != "" && Trim(cmd + "," + args, Go)[0] != '<'
  {
    ReplyTrimmed(cmd, args, Go);
    var t := Trim(cmd + "," + args, Go);
    assert |Upper(t)| == |t| && Upper(t)[0] == UpperChar(t[0]) == cmd[0];
  }

  lemma NoXmlIn(cmd: string, args: string)
    requires Command(cmd) && args == "<A>"
    ensures NoXml(cmd + "," + args) && Sole(cmd + "," + args, "\r")
  {
    var s, at := cmd + "," + args, |cmd| + 1;
    assert s[at] == '<' && s[at+1] == 'A' && forall k :: 0 <= k < |s| && s[k] == '<' ==> k == at;
    assert forall k :: 0 <= k < |s| ==> Upper(s)[k] == UpperChar(s[k]);
    if Contains(s, "<?xml") {
      HasAtChar(s, IndexOf(s, "<?xml", 0), "<?xml", 0);
    }
    if Contains(Upper(s), ",<XML>,") {
      HasAtChar(Upper(s), IndexOf(Upper(s), ",<XML>,", 0), ",<XML>,", 1);
    }
  }

  lemma TagFound(cmd: string, args: string)
    requires Command(cmd) && args == "<A>"
    ensures var s := cmd + "," + args; Tagged(s) && StripFooters(ExtractXml(s)) == args
  {
    var s, at := cmd + "," + args, |cmd| + 1;
    NoXmlIn(cmd, args);
    assert s[at] == '<' && s[at+1] == 'A' && s[at+2] == '>' && forall k :: 0 <= k < |s| && s[k] == '<' ==> k == at;
    NameEndIs(s, at + 1, at + 2);
    assert RootAt(s, at) >= 0;
    assert FindRoot(s, 0) == at && s[at..] == args;
    NothingStripped(args);
  }

  lemma TaggedWaits(line: string, cmd: string, parses: string -> bool)
    requires Command(cmd) && Sole(line, "\r") && NoXml(line) && Tagged(line) && !parses(StripFooters(ExtractXml(line)))
    ensures GoAccept(NOTHING, Classify(line + "\r", Go), cmd, parses).1 == None
  {
    assert NOTHING.ordinary + [line] == [line];
    GoLineFate(NOTHING, line, "\r", cmd, parses);
  }

  lemma TagIsNoError(args: string)
    requires args == "<A>"
    ensures Upper(TrimRight(args, Kotlin)) != "NG" && Upper(TrimRight(args, Kotlin)) != "ERR"
  {
    TrimRightIs(args, Kotlin);
    assert TrimRight(args, Kotlin) == args && Upper(args)[0] == '<';
  }

  /** Such a reply: Android answers it, and Go waits. */
  lemma TagKeepsGoWaiting(cmd: string, args: string, parses: string -> bool)
    requires Command(cmd) && args == "<A>" && !parses(args)
    ensures Accept(NOTHING, Classify(cmd + "," + args + "\r", Kotlin), cmd).1 == Some(cmd + "," + args)
    ensures GoAccept(NOTHING, Classify(cmd + "," + args + "\r", Go), cmd, parses).1 == None
  {
    NoXmlIn(cmd, args);
    TagFound(cmd, args);
    TagIsNoError(args);
    PlainReplyAnswered(cmd, args, "\r");
    TaggedWaits(cmd + "," + args, cmd, parses);
  }
}
