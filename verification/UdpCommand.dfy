/**
 udpCommand of protocol.go: from the datagrams that arrive before the deadline to the reply. Whether encoding/xml
 takes a text for a document is the parameter `parses`, any function of the text.
 */
module UdpCommand {
  import opened FragmentText
  import opened Numerals
  import opened Options
  import opened ReplyAssembler
  import opened Text
  import opened XmlReply
  import opened XmlText

  // ---------------------------------------------------------------- specification

  predicate LooksLikeXml(s: string) { var t := Trim(ExtractXml(s), Go); t != "" && t[0] == '<' }

  predicate Parses(s: string, parses: string -> bool) { parses(StripFooters(ExtractXml(s))) }

  /** The reply, if the last of the gathered lines completes one. */
  function LineAnswer(all: seq<string>, expected: string, parses: string -> bool): Option<string>
    requires all != []
  {
    var line, joined := all[|all|-1], Join(all, "\r");
    if !IsMarker(line, expected, Go) && Answers(line, expected, Go) && (!LooksLikeXml(joined) || Parses(joined, parses))
    then Some(joined) else None
  }

  /** The loop over lines: what is gathered, and the reply if a line completes one. */
  function GoLines(
    ordinary: seq<string>, lines: seq<string>, expected: string, parses: string -> bool): (seq<string>, Option<string>)
    decreases |lines|
  {
    if lines == [] then (ordinary, None)
    else if lines[0] == "" then GoLines(ordinary, lines[1..], expected, parses)
    else
      var all := ordinary + [lines[0]];
      var r := LineAnswer(all, expected, parses);
      if r.Some? then (all, r) else GoLines(all, lines[1..], expected, parses)
  }

  /** The lines of a datagram, and the test of everything gathered behind them. */
  function GoText(
    ordinary: seq<string>, text: string, expected: string, parses: string -> bool): (seq<string>, Option<string>)
  {
    var (all, r) := GoLines(ordinary, Lines(NewlinesToCr(text)), expected, parses);
    var joined := Join(all, "\r");
    (all, if r.Some? then r else if LooksLikeXml(joined) && Parses(joined, parses) then Some(joined) else None)
  }

  function GoAccept(st: State, d: Datagram, expected: string, parses: string -> bool): (State, Option<string>) {
    match d
    case Fragment(_, _, _, _) => (Keep(st, d), GoMerge(Keep(st, d)))
    case Unnumbered => (st, None)
    case Plain(text) =>
      var (all, r) := GoText(st.ordinary, text, expected, parses);
      (st.(ordinary := all), r)
  }

  /** The reply: the first answer to a datagram, or what the timeout makes of them all. */
  function GoReply(st: State, texts: seq<string>, expected: string, parses: string -> bool): Option<string>
    decreases |texts|
  {
    if texts == [] then GoTimeout(st)
    else
      var (next, r) := GoAccept(st, Classify(texts[0], Go), expected, parses);
      if r.Some? then r else GoReply(next, texts[1..], expected, parses)
  }

  // ---------------------------------------------------------------- the command

  /** Counting is done in int64. */
  function Next(i: int): int { if i == INT64_MAX then -INT64_MAX - 1 else i + 1 }

  method MergeFragments(fragments: map<nat, string>, eot: int, first: int, open: string, close: string)
    returns (r: Option<string>)
    requires eot <= INT64_MAX && first <= INT64_MAX
    ensures forall ordinary :: r == GoMerge(State(ordinary, fragments, eot, first, open, close))
  {
    if eot < 0 || first < 0 || open == "" || close == "" { return None; }
    var i := first;
    while i <= eot
      invariant i <= INT64_MAX
      invariant if i < 0 then eot == INT64_MAX
                else first <= i && forall k :: first <= k < i && k <= eot ==> k in fragments
      decreases if i < 0 then 0 else eot + 1 - i
    {
      if i !in fragments { return None; }
      i := Next(i);
    }
    var b := open;
    i := first;
    while i <= eot
      invariant first <= i && (i <= eot + 1 || i == first)
      invariant b + Body(fragments, i, eot) == open + Body(fragments, first, eot)
      decreases eot - i
    {
      b := b + fragments[i];
      i := Next(i);
    }
    assert Body(fragments, i, eot) == "" && b + "" == b;
    return Some(b + close);
  }

  lemma ReplyStep(st: State, texts: seq<string>, n: nat, expected: string, parses: string -> bool)
    requires n < |texts|
    ensures var (next, r) := GoAccept(st, Classify(texts[n], Go), expected, parses);
            GoReply(st, texts[n..], expected, parses)
            == if r.Some? then r else GoReply(next, texts[n+1..], expected, parses)
  {
    assert texts[n..][0] == texts[n] && texts[n..][1..] == texts[n+1..];
  }

  lemma NumberFits(text: string)
    ensures Classify(text, Go).Fragment? ==> Classify(text, Go).no <= INT64_MAX
  {
  }

  method UdpCommand(wire: string, texts: seq<string>, parses: string -> bool) returns (r: Option<string>)
    ensures r == GoReply(NOTHING, texts, CommandName(wire, Go), parses)
  {
    var expected := CommandName(wire, Go);
    var ordinary: seq<string>, fragments: map<nat, string> := [], map[];
    var eotNo, firstNo, rootOpen, rootClose := -1, -1, "", "";
    ghost var st := NOTHING;
    for n := 0 to |texts|
      invariant st == State(ordinary, fragments, eotNo, firstNo, rootOpen, rootClose)
      invariant eotNo <= INT64_MAX && firstNo <= INT64_MAX
      invariant GoReply(NOTHING, texts, expected, parses) == GoReply(st, texts[n..], expected, parses)
    {
      var d := Classify(texts[n], Go);
      ReplyStep(st, texts, n, expected, parses);
      match d
      case Unnumbered =>
      case Fragment(no, eot, parts, _) =>
        NumberFits(texts[n]);
        if firstNo < 0 || no < firstNo { firstNo := no; }
        if eot { eotNo := no; }
        if rootOpen == "" && parts.Some? && parts.value.open != "" {
          rootOpen, rootClose := parts.value.open, parts.value.close;
        }
        fragments := fragments[no := Piece(d)];
        st := Keep(st, d);
        r := MergeFragments(fragments, eotNo, firstNo, rootOpen, rootClose);
        if r.Some? { return; }
      case Plain(text) =>
        ordinary, r := TakeText(ordinary, text, expected, parses);
        st := st.(ordinary := ordinary);
        if r.Some? { return; }
    }
    if fragments != map[] {
      r := MergeFragments(fragments, eotNo, firstNo, rootOpen, rootClose);
      if r.Some? { return; }
    }
    return if ordinary == [] then None else Some(Join(ordinary, "\r"));
  }

  method TryLine(all: seq<string>, expected: string, parses: string -> bool) returns (r: Option<string>)
    requires all != []
    ensures r == LineAnswer(all, expected, parses)
  {
    var line := all[|all|-1];
    var u := Upper(Trim(line, Go));
    if u == expected + ",<XML>," { return None; }
    if HasAt(u, 0, expected + ",") || u == expected {
      var joined := Join(all, "\r");
      if !LooksLikeXml(joined) { return Some(joined); }
      if Parses(joined, parses) { return Some(joined); }
    }
    return None;
  }

  method TakeText(start: seq<string>, text: string, expected: string, parses: string -> bool)
    returns (ordinary: seq<string>, r: Option<string>)
    ensures (ordinary, r) == GoText(start, text, expected, parses)
  {
    ordinary := start;
    var lines := Lines(NewlinesToCr(text));
    for i := 0 to |lines|
      invariant GoLines(start, lines, expected, parses) == GoLines(ordinary, lines[i..], expected, parses)
    {
      assert lines[i..][1..] == lines[i+1..];
      if lines[i] == "" { continue; }
      ordinary := ordinary + [lines[i]];
      r := TryLine(ordinary, expected, parses);
      if r.Some? { return; }
    }
    var joined := Join(ordinary, "\r");
    return ordinary, if LooksLikeXml(joined) && Parses(joined, parses) then Some(joined) else None;
  }

  // ---------------------------------------------------------------- a lone marker

  predicate Blanks(line: string) { Trim(line, Go) == "" }

  ghost predicate AllBlank(lines: seq<string>) { forall j :: 0 <= j < |lines| ==> Blanks(lines[j]) }

  /** The first line that is not blank is the marker, and all behind it are blank. */
  ghost predicate OneMarker(lines: seq<string>, expected: string)
    decreases |lines|
  {
    && lines != []
    && if Blanks(lines[0]) then OneMarker(lines[1..], expected)
       else IsMarker(lines[0], expected, Go) && AllBlank(lines[1..])
  }

  lemma Decomposed(s: string) returns (x: string, y: string)
    ensures var t := Trim(s, Go); s == x + t + y && (t != "" ==> !IsSpace(t[0], Go) && !IsSpace(t[|t|-1], Go))
    ensures (forall k :: 0 <= k < |x| ==> IsSpace(x[k], Go)) && forall k :: 0 <= k < |y| ==> IsSpace(y[k], Go)
  {
    var u, t := TrimLeft(s, Go), Trim(s, Go);
    TrimLeftIs(s, Go);
    TrimRightIs(u, Go);
    x, y := s[..|s|-|u|], u[|t|..];
    if t != "" { assert t[0] == u[0]; }
  }

  lemma TwoTrimmed(a: string, b: string)
    ensures Blanks(a) ==> Trim(a + "\r" + b, Go) == Trim(b, Go)
    ensures Blanks(b) ==> Trim(a + "\r" + b, Go) == Trim(a, Go)
    ensures !Blanks(a) && !Blanks(b) ==> '\r' in Trim(a + "\r" + b, Go)
  {
    var s, t, u := a + "\r" + b, Trim(a, Go), Trim(b, Go);
    var x1, y1 := Decomposed(a);
    var x2, y2 := Decomposed(b);
    if Blanks(a) {
      assert s == (x1 + y1 + "\r" + x2) + u + y2;
      TrimIs(x1 + y1 + "\r" + x2, u, y2, Go);
    }
    if Blanks(b) {
      assert s == x1 + t + (y1 + "\r" + x2 + y2);
      TrimIs(x1, t, y1 + "\r" + x2 + y2, Go);
    }
    if !Blanks(a) && !Blanks(b) {
      var m := t + (y1 + "\r" + x2) + u;
      assert s == x1 + m + y2;
      assert m[0] == t[0] && m[|m|-1] == u[|u|-1] && m[|t|+|y1|] == '\r';
      TrimIs(x1, m, y2, Go);
    }
  }

  lemma {:induction false} BlankJoinIff(lines: seq<string>)
    ensures Blanks(Join(lines, "\r")) <==> AllBlank(lines)
    decreases |lines|
  {
    if |lines| > 1 {
      BlankJoinIff(lines[1..]);
      TwoTrimmed(lines[0], Join(lines[1..], "\r"));
      assert lines == [lines[0]] + lines[1..];
    }
  }

  lemma MarkerIsOneLine(s: string, expected: string)
    requires IsMarker(s, expected, Go) && '\r' !in expected
    ensures '\r' !in Trim(s, Go) && !Blanks(s)
  {
    var t, m := Trim(s, Go), expected + ",<XML>,";
    assert |t| == |Upper(t)| == |m|;
    forall k | 0 <= k < |t| ensures t[k] != '\r' { assert Upper(t)[k] == UpperChar(t[k]) == m[k]; }
  }

  /** Lines joined are the marker if and only if one of them is and the others are blank. */
  lemma {:induction false} MarkerJoinIff(lines: seq<string>, expected: string)
    requires '\r' !in expected
    ensures IsMarker(Join(lines, "\r"), expected, Go) <==> OneMarker(lines, expected)
    decreases |lines|
  {
    if lines != [] {
      MarkerJoinIff(lines[1..], expected);
      BlankJoinIff(lines[1..]);
      TwoTrimmed(lines[0], Join(lines[1..], "\r"));
      if IsMarker(lines[0], expected, Go) { MarkerIsOneLine(lines[0], expected); }
      if IsMarker(Join(lines, "\r"), expected, Go) { MarkerIsOneLine(Join(lines, "\r"), expected); }
    }
  }

  /** Nothing but the marker, or not even that yet. */
  ghost predicate NoMore(lines: seq<string>, expected: string) { AllBlank(lines) || OneMarker(lines, expected) }

  lemma {:induction false} MarkerSoFar(all: seq<string>, lines: seq<string>, expected: string)
    requires all <= lines && OneMarker(lines, expected)
    ensures NoMore(all, expected)
    decreases |lines|
  {
    if all != [] && Blanks(lines[0]) { MarkerSoFar(all[1..], lines[1..], expected); }
  }

  lemma NoTagNotXml(s: string)
    requires '<' !in ExtractXml(s)
    ensures !LooksLikeXml(s)
  {
    var a, b := TrimIsInside(ExtractXml(s), Go);
  }

  lemma NoTagNoXml(s: string)
    requires '<' !in s
    ensures ExtractXml(s) == s
  {
    var i, m := IndexOf(s, "<?xml", 0), IndexOf(Upper(s), ",<XML>,", 0);
    if i >= 0 { HasAtChar(s, i, "<?xml", 0); }
    if m >= 0 { HasAtChar(Upper(s), m, ",<XML>,", 1); }
  }

  lemma NotXml(s: string, expected: string)
    requires '<' !in expected && (Blanks(s) || IsMarker(s, expected, Go))
    ensures !LooksLikeXml(s)
  {
    var a, b := TrimIsInside(s, Go);
    if Blanks(s) {
      NoTagNoXml(s);
    } else {
      MarkerInside(a, Trim(s, Go), b, expected);
      MarkerExtract(s, |a| + |expected|, b);
    }
    NoTagNotXml(s);
  }

  /** What `expected` can be: the name of a command. */
  predicate Named(expected: string) { expected != "" && '<' !in expected && '\r' !in expected }

  lemma MarkerNotAnswered(all: seq<string>, expected: string, parses: string -> bool)
    requires Named(expected) && all != [] && NoMore(all, expected)
    ensures LineAnswer(all, expected, parses) == None && !LooksLikeXml(Join(all, "\r"))
  {
    BlankJoinIff(all);
    MarkerJoinIff(all, expected);
    NotXml(Join(all, "\r"), expected);
    LastOfMarker(all, expected);
  }

  lemma {:induction false} LastOfMarker(all: seq<string>, expected: string)
    requires all != [] && NoMore(all, expected)
    ensures Blanks(all[|all|-1]) || IsMarker(all[|all|-1], expected, Go)
    decreases |all|
  {
    if |all| > 1 && Blanks(all[0]) { LastOfMarker(all[1..], expected); }
  }

  // ---------------------------------------------------------------- whole replies

  function NonEmpty(lines: seq<string>): seq<string>
    decreases |lines|
  {
    if lines == [] then [] else (if lines[0] == "" then [] else [lines[0]]) + NonEmpty(lines[1..])
  }

  /** The lines of a datagram that is no fragment. */
  function LinesOf(d: Datagram): seq<string> { if d.Plain? then NonEmpty(Lines(NewlinesToCr(d.text))) else [] }

  /** The lines of all of them. */
  function Gathered(texts: seq<string>): seq<string>
    decreases |texts|
  {
    if texts == [] then [] else LinesOf(Classify(texts[0], Go)) + Gathered(texts[1..])
  }

  /** The fragments so far, without the lines. */
  function Filed(st: State, d: Datagram): State { if d.Fragment? then Keep(st, d) else st }

  /** At no datagram do the fragments so far make a document. */
  predicate NothingMerges(st: State, texts: seq<string>)
    decreases |texts|
  {
    GoMerge(st) == None && (texts != [] ==> NothingMerges(Filed(st, Classify(texts[0], Go)), texts[1..]))
  }

  lemma {:induction false} LinesGathered(
    ordinary: seq<string>, lines: seq<string>, expected: string, parses: string -> bool)
    ensures var (all, r) := GoLines(ordinary, lines, expected, parses); var g := ordinary + NonEmpty(lines);
            if r.None? then all == g
            else all != [] && all <= g && r == LineAnswer(all, expected, parses)
    decreases |lines|
  {
    if lines == [] {
    } else if lines[0] == "" {
      LinesGathered(ordinary, lines[1..], expected, parses);
      assert [] + NonEmpty(lines[1..]) == NonEmpty(lines[1..]);
    } else {
      LinesGathered(ordinary + [lines[0]], lines[1..], expected, parses);
      Associates(ordinary, [lines[0]], NonEmpty(lines[1..]));
    }
  }

  /** Lines are gathered until one completes a reply, and then there is more than a marker. */
  lemma LinesFate(ordinary: seq<string>, lines: seq<string>, expected: string, parses: string -> bool)
    requires Named(expected)
    ensures var (all, r) := GoLines(ordinary, lines, expected, parses); var g := ordinary + NonEmpty(lines);
            if r.None? then all == g else r.value == Join(all, "\r") && all <= g && !NoMore(all, expected)
  {
    LinesGathered(ordinary, lines, expected, parses);
    var (all, r) := GoLines(ordinary, lines, expected, parses);
    if r.Some? && NoMore(all, expected) { MarkerNotAnswered(all, expected, parses); }
  }

  lemma TextFate(ordinary: seq<string>, text: string, expected: string, parses: string -> bool)
    requires Named(expected)
    ensures var (all, r) := GoText(ordinary, text, expected, parses); var g := ordinary + LinesOf(Plain(text));
            if r.None? then all == g else r.value == Join(all, "\r") && all <= g && !NoMore(all, expected)
  {
    LinesFate(ordinary, Lines(NewlinesToCr(text)), expected, parses);
    var (all, r) := GoLines(ordinary, Lines(NewlinesToCr(text)), expected, parses);
    if r.None? && NoMore(all, expected) && all != [] { MarkerNotAnswered(all, expected, parses); }
  }

  predicate IsLone(r: Option<string>, expected: string) { r.Some? && IsMarker(r.value, expected, Go) }

  lemma TimeoutLoneIff(st: State, expected: string)
    requires Named(expected) && GoMerge(st) == None
    ensures IsLone(GoTimeout(st), expected) <==> OneMarker(st.ordinary, expected)
  {
    MarkerJoinIff(st.ordinary, expected);
  }

  /** A line completes a reply: it is no marker, and no further lines make what was gathered one. */
  lemma AnsweredNotLone(all: seq<string>, lines: seq<string>, expected: string)
    requires Named(expected) && all <= lines && !NoMore(all, expected)
    ensures !IsMarker(Join(all, "\r"), expected, Go) && !OneMarker(lines, expected)
  {
    MarkerJoinIff(all, expected);
    if OneMarker(lines, expected) { MarkerSoFar(all, lines, expected); }
  }

  lemma DocumentNotLone(st: State, expected: string)
    requires Named(expected) && RootOk(st) && GoMerge(st).Some?
    ensures !IsLone(GoMerge(st), expected)
  {
    if IsLone(GoMerge(st), expected) { MarkerIsIncomplete(GoMerge(st).value, expected, Go); }
  }

  function Bare(st: State): State { st.(ordinary := []) }

  lemma ReplyHead(st: State, texts: seq<string>, expected: string, parses: string -> bool)
    requires texts != []
    ensures var (next, r) := GoAccept(st, Classify(texts[0], Go), expected, parses);
            GoReply(st, texts, expected, parses) == if r.Some? then r else GoReply(next, texts[1..], expected, parses)
  {
  }

  lemma GatheredHead(texts: seq<string>)
    requires texts != []
    ensures Gathered(texts) == LinesOf(Classify(texts[0], Go)) + Gathered(texts[1..])
  {
  }

  lemma FiledBare(st: State, d: Datagram)
    ensures Filed(Bare(st), d) == Bare(Filed(st, d)) && GoMerge(Bare(st)) == GoMerge(st)
  {
  }

  lemma MergesNext(st: State, texts: seq<string>)
    requires texts != []
    ensures NothingMerges(st, texts)
            <==> GoMerge(st) == None && NothingMerges(Filed(st, Classify(texts[0], Go)), texts[1..])
  {
  }

  lemma MergesHead(st: State, texts: seq<string>)
    requires texts != []
    ensures NothingMerges(Bare(st), texts)
            <==> GoMerge(st) == None && NothingMerges(Bare(Filed(st, Classify(texts[0], Go))), texts[1..])
  {
    FiledBare(st, Classify(texts[0], Go));
    MergesNext(Bare(st), texts);
  }

  lemma MergedAlready(st: State, texts: seq<string>)
    requires GoMerge(st).Some?
    ensures !NothingMerges(Bare(st), texts)
  {
  }

  /** What a datagram does to a state in which everything is still open. */
  lemma AcceptFate(st: State, d: Datagram, more: seq<string>, expected: string, parses: string -> bool)
    requires Named(expected) && RootOk(st) && GoMerge(st) == None
    requires d.Fragment? && d.parts.Some? ==> Usable(d.parts.value)
    ensures var (next, r) := GoAccept(st, d, expected, parses);
            if r.None? then
              && RootOk(next) && GoMerge(next) == None && next.ordinary == st.ordinary + LinesOf(d)
              && Bare(next) == Bare(Filed(st, d))
            else
              && !IsLone(r, expected)
              && (GoMerge(Filed(st, d)).Some? || !OneMarker(st.ordinary + LinesOf(d) + more, expected))
  {
    var (next, r) := GoAccept(st, d, expected, parses);
    if d.Plain? {
      TextFate(st.ordinary, d.text, expected, parses);
      if r.Some? { AnsweredNotLone(next.ordinary, st.ordinary + LinesOf(d) + more, expected); }
    }
    if d.Fragment? && r.Some? { DocumentNotLone(next, expected); }
  }

  lemma {:induction false} LoneIffFrom(st: State, texts: seq<string>, expected: string, parses: string -> bool)
    requires Named(expected) && RootOk(st) && GoMerge(st) == None
    ensures IsLone(GoReply(st, texts, expected, parses), expected)
            <==> NothingMerges(Bare(st), texts) && OneMarker(st.ordinary + Gathered(texts), expected)
    decreases |texts|
  {
    if texts == [] {
      TimeoutLoneIff(st, expected);
      assert st.ordinary + Gathered(texts) == st.ordinary;
    } else {
      var d := Classify(texts[0], Go);
      var (next, r) := GoAccept(st, d, expected, parses);
      ReplyHead(st, texts, expected, parses);
      GatheredHead(texts);
      MergesHead(st, texts);
      Associates(st.ordinary, LinesOf(d), Gathered(texts[1..]));
      AcceptFate(st, d, Gathered(texts[1..]), expected, parses);
      if r.None? {
        LoneIffFrom(next, texts[1..], expected, parses);
      } else if GoMerge(Filed(st, d)).Some? {
        MergedAlready(Filed(st, d), texts[1..]);
      }
    }
  }

  /** Over any datagrams, the reply is a lone marker if and only if the fragments never make a document, one line is the
      marker, and all other lines are blank. */
  lemma LoneMarkerReturnedIff(texts: seq<string>, expected: string, parses: string -> bool)
    requires Named(expected)
    ensures IsLone(GoReply(NOTHING, texts, expected, parses), expected)
            <==> NothingMerges(NOTHING, texts) && OneMarker(Gathered(texts), expected)
  {
    LoneIffFrom(NOTHING, texts, expected, parses);
    assert NOTHING.ordinary + Gathered(texts) == Gathered(texts);
  }

  lemma MarkerGathered(cmd: string)
    requires Command(cmd)
    ensures Classify(Marker(cmd), Go) == Plain(Marker(cmd)) && LinesOf(Plain(Marker(cmd))) == [MarkerLine(cmd)]
  {
    var m := MarkerLine(cmd);
    NoFootMarker(cmd);
    PlainText(Marker(cmd), Go);
    NoNewlines(Marker(cmd));
    MarkerIsMarker(cmd, Go);
    FirstLine(m, "");
    assert Marker(cmd) == m + "\r" + "";
    OneLine("");
    assert [m, ""][1..] == [""] && [""][1..] == [];
    assert NonEmpty([""]) == [];
  }

  /** What is gathered from a marker is nothing or the marker, and neither is a reply. */
  lemma AnsweredOnlyMore(all: seq<string>, m: string, r: Option<string>, cmd: string)
    requires Command(cmd) && m == MarkerLine(cmd) && all <= [m] && (r.Some? ==> !NoMore(all, cmd))
    ensures r == None
  {
    MarkerIsMarker(cmd, Go);
    MarkerIsOneLine(m, cmd);
    assert all == [] || all == [m];
  }

  /** The marker on its own is kept and not answered. */
  lemma MarkerText(cmd: string, parses: string -> bool)
    requires Command(cmd)
    ensures GoText([], Marker(cmd), cmd, parses) == ([MarkerLine(cmd)], None)
  {
    MarkerGathered(cmd);
    TextFate([], Marker(cmd), cmd, parses);
    var (all, r) := GoText([], Marker(cmd), cmd, parses);
    assert [] + [MarkerLine(cmd)] == [MarkerLine(cmd)];
    AnsweredOnlyMore(all, MarkerLine(cmd), r, cmd);
  }

  /** Such a run: nothing comes behind the marker, and Go returns it. */
  lemma GoReturnsLoneMarker(cmd: string, parses: string -> bool)
    requires Command(cmd)
    ensures GoReply(NOTHING, [Marker(cmd)], cmd, parses) == Some(MarkerLine(cmd))
  {
    MarkerGathered(cmd);
    MarkerText(cmd, parses);
    ReplyHead(NOTHING, [Marker(cmd)], cmd, parses);
  }

  /** The Android assembler, in the state MarkerKept leaves it in, does not. */
  lemma LoneMarkerDropped(cmd: string)
    requires Command(cmd)
    ensures Timeout(Waiting(cmd), cmd, 0) == None
  {
    MarkerIsMarker(cmd, Kotlin);
  }

  // ---------------------------------------------------------------- a document sent whole

  lemma {:induction false} TagsGathered(
    all: seq<string>, lines: seq<string>, end: seq<string>, cmd: string, parses: string -> bool)
    requires Command(cmd) && Tags(lines) && (end == [] || end == [""])
    ensures GoLines(all, lines + end, cmd, parses) == (all + lines, None)
    decreases |lines|
  {
    if lines == [] {
      assert GoLines(all, [], cmd, parses) == (all, None);
      assert lines + end == end && all + lines == all;
    } else {
      assert (lines + end)[1..] == lines[1..] + end;
      TagIsNoAnswer(lines[0], cmd, Go);
      Associates(all, [lines[0]], lines[1..]);
      assert [lines[0]] + lines[1..] == lines;
      TagsGathered(all + [lines[0]], lines[1..], end, cmd, parses);
    }
  }

  lemma BegunLooksLikeXml(cmd: string, decl: string, root: string, rest: string)
    requires Lacks(cmd, '<')
    ensures var x := Begun(decl, root) + rest; ExtractXml(Marker(cmd) + x) == x && LooksLikeXml(Marker(cmd) + x)
  {
    var x := Begun(decl, root) + rest;
    assert x == Declaration(decl) + ("\r" + Open(root) + rest);
    DeclarationFound(cmd, decl, "\r" + Open(root) + rest);
    TagStaysFirst(x, Go);
    assert |Upper(Trim(x, Go))| == |Trim(x, Go)|;
    TrimRightIs(x, Go);
    assert TrimLeft(x, Go) == x;
  }

  lemma GatheredAnswer(cmd: string, text: string, lines: seq<string>, end: seq<string>, parses: string -> bool)
    requires Command(cmd) && Tags(lines) && (end == [] || end == [""])
    ensures var reply := Join([MarkerLine(cmd)] + lines, "\r");
            Lines(NewlinesToCr(text)) == lines + end && LooksLikeXml(reply) ==>
              GoText([MarkerLine(cmd)], text, cmd, parses).1 == if Parses(reply, parses) then Some(reply) else None
  {
    TagsGathered([MarkerLine(cmd)], lines, end, cmd, parses);
  }

  lemma GoDocumentTaken(
    cmd: string, decl: string, root: string, rest: string, end: string, parses: string -> bool)
    requires Command(cmd) && Whole(decl, root, rest) && Ending(end)
    ensures var reply := Marker(cmd) + (Begun(decl, root) + rest);
            GoText([MarkerLine(cmd)], Begun(decl, root) + rest + end, cmd, parses).1
            == if Parses(reply, parses) then Some(reply) else None
  {
    var text, lines := Begun(decl, root) + rest + end, [Declaration(decl)] + Lines(Open(root) + rest);
    DocumentLines(decl, root, rest, end);
    DeclarationUnbroken(decl);
    GatheredReply(cmd, decl, root, rest);
    BegunLooksLikeXml(cmd, decl, root, rest);
    GatheredAnswer(cmd, text, lines, EndLines(end), parses);
  }

  /** Behind its marker a document of any number of lines is answered, marker included, if and only if it parses. */
  lemma GoDocumentAnsweredIffParses(
    cmd: string, decl: string, root: string, rest: string, end: string, parses: string -> bool)
    requires Command(cmd) && Whole(decl, root, rest) && Ending(end)
    ensures var document := Begun(decl, root) + rest;
            GoAccept(Waiting(cmd), Classify(document + end, Go), cmd, parses).1
            == if parses(document) then Some(Marker(cmd) + document) else None
  {
    WholeIsPlain(decl, root, rest, end, Go);
    GoDocumentTaken(cmd, decl, root, rest, end, parses);
    BegunTaken(cmd, decl, root, rest);
  }

  // ---------------------------------------------------------------- a document sent in fragments

  /** The state after any datagrams at all. */
  ghost function GoOffered(expected: string, texts: seq<string>, parses: string -> bool): State {
    if texts == [] then NOTHING
    else GoAccept(GoOffered(expected, texts[..|texts|-1], parses), Classify(texts[|texts|-1], Go), expected, parses).0
  }

  lemma {:induction false} GoOfferedIsAfter(d: Sent, order: seq<nat>, expected: string, parses: string -> bool)
    requires GoodSent(d) && forall k :: k in order ==> InRange(d, k)
    ensures Sound(CutOf(d)) && Delivery(CutOf(d), order)
    ensures GoOffered(expected, Wires(d, order), parses) == After(CutOf(d), order)
  {
    if order != [] {
      var front, k := order[..|order|-1], order[|order|-1];
      GoOfferedIsAfter(d, front, expected, parses);
      FragmentIsNth(d, k, Go);
      assert Wires(d, order)[..|front|] == Wires(d, front);
    }
  }

  /** Everything from the least number seen to the last fragment has come. */
  predicate StretchCame(d: Sent, order: seq<nat>)
    requires order != []
  {
    forall k :: Min(order) <= k <= |d.inner| ==> k in order
  }

  function Stretch(d: Sent, from: nat): string
    requires InRange(d, from)
  {
    Open(d.root) + Concat(Contents(d)[from-1..]) + Close(d.root)
  }

  lemma PiecesAre(d: Sent)
    requires GoodSent(d)
    ensures Sound(CutOf(d)) && Pieces(CutOf(d)) == Contents(d)
  {
  }

  lemma StretchMerged(d: Sent, order: seq<nat>)
    requires GoodSent(d) && order != [] && forall k :: k in order ==> InRange(d, k)
    ensures Sound(CutOf(d)) && Delivery(CutOf(d), order) && InRange(d, Min(order))
    ensures GoMerge(After(CutOf(d), order)) == if StretchCame(d, order) then Some(Stretch(d, Min(order))) else None
  {
    PiecesAre(d);
    MarksAre(CutOf(d), order);
    MergedStretch(CutOf(d), order);
  }

  lemma GoAnswerIs(
    d: Sent, st: State, datagram: Datagram, order: seq<nat>, last: nat, expected: string, parses: string -> bool)
    requires GoodSent(d) && InRange(d, last) && forall k :: k in order ==> InRange(d, k)
    requires Sound(CutOf(d)) && Delivery(CutOf(d), order) && Numbers(CutOf(d), last)
    requires st == After(CutOf(d), order) && datagram == Nth(CutOf(d), last)
    ensures InRange(d, Min(order + [last]))
    ensures GoAccept(st, datagram, expected, parses).1
            == if StretchCame(d, order + [last]) then Some(Stretch(d, Min(order + [last]))) else None
  {
    assert (order + [last])[..|order|] == order;
    StretchMerged(d, order + [last]);
  }

  /** Whatever the order and however often each fragment comes, Go answers the last datagram so far as soon as
      everything from the least number seen to the last fragment has come, and with that stretch. */
  lemma GoDocumentFromDatagrams(d: Sent, order: seq<nat>, last: nat, expected: string, parses: string -> bool)
    requires GoodSent(d) && InRange(d, last) && forall k :: k in order ==> InRange(d, k)
    ensures var st, text := GoOffered(expected, Wires(d, order), parses), Wire(NthFragment(d, last));
            var r := GoAccept(st, Classify(text, Go), expected, parses).1;
            && InRange(d, Min(order + [last]))
            && r == if StretchCame(d, order + [last]) then Some(Stretch(d, Min(order + [last]))) else None
  {
    GoOfferedIsAfter(d, order, expected, parses);
    FragmentIsNth(d, last, Go);
    var st, text := GoOffered(expected, Wires(d, order), parses), Wire(NthFragment(d, last));
    GoAnswerIs(d, st, Classify(text, Go), order, last, expected, parses);
  }

  /** So the two programs answer that datagram alike if and only if Go does not answer with a stretch that starts above
      1; with fragment 1 first they complete at the same datagram and with the same document. */
  lemma DocumentAnsweredAlikeIff(d: Sent, order: seq<nat>, last: nat, expected: string, parses: string -> bool)
    requires GoodSent(d) && InRange(d, last) && forall k :: k in order ==> InRange(d, k)
    ensures var text := Wire(NthFragment(d, last));
            GoAccept(GoOffered(expected, Wires(d, order), parses), Classify(text, Go), expected, parses).1
            == Accept(Offered(expected, Wires(d, order)), Classify(text, Kotlin), expected).1
            <==> (StretchCame(d, order + [last]) ==> 1 in order + [last])
  {
    var all := order + [last];
    GoDocumentFromDatagrams(d, order, last, expected, parses);
    DocumentFromDatagrams(d, order, last, expected);
    MinIs(all);
    assert Contents(d)[0..] == Contents(d);
    if 1 in all { assert Min(all) == 1; }
  }
}
