/**
 The scanner's display frames: parseSTS and decodeSTSDisplayText (protocol.go), StsParser (Sts.kt), and sts_copy
 and parse_sts of the panel firmware (scanner.c). A char stands for a byte of the frame.
 */
module StsDisplay {
  import opened Options
  import opened Text

  const MAX_LINES := 12
  const COLS := 30
  const WRAP := 0x1_0000_0000
  const MAX_FIELDS := 2 + 2 * MAX_LINES + 16

  // ---------------------------------------------------------------- display text

  /** A tab is an escaped comma; a glyph of the scanner's font keeps its column as a space. */
  function Shown(c: char): char { if c == '\t' then ',' else if Printable(c) then c else ' ' }

  function ShownAll(s: string): string { seq(|s|, i requires 0 <= i < |s| => Shown(s[i])) }

  function Decoded(s: string): string { CutSpaces(ShownAll(s)) }

  /** decodeSTSDisplayText, decodeDisplayText. */
  method DecodeDisplayText(s: string) returns (r: string)
    ensures r == Decoded(s)
  {
    var b := "";
    for i := 0 to |s|
      invariant b == ShownAll(s)[..i]
    {
      var c := s[i];
      if c == '\t' {
        b := b + [','];
      } else if '\U{20}' <= c <= '\U{7e}' {
        b := b + [c];
      } else {
        b := b + [' '];
      }
    }
    assert b == ShownAll(s);
    r := CutSpaces(b);
  }

  /** A tab comes out as a comma, a character that is not printable as a space, and spaces at the end are dropped. */
  lemma DecodedIs(s: string)
    ensures var r := Decoded(s);
            && |r| <= |s| && (r != "" ==> r[|r|-1] != ' ')
            && (forall k :: 0 <= k < |r| ==>
                  r[k] == if s[k] == '\t' then ',' else if ' ' <= s[k] <= '~' then s[k] else ' ')
            && (forall k :: |r| <= k < |s| ==> s[k] == ' ' || (s[k] != '\t' && !(' ' <= s[k] <= '~')))
  {
    CutSpacesIs(ShownAll(s));
    forall k | |Decoded(s)| <= k < |s| ensures s[k] == ' ' || (s[k] != '\t' && !(' ' <= s[k] <= '~')) {
      assert ShownAll(s)[k] == ' ';
    }
  }

  // ---------------------------------------------------------------- fields

  /** strings.Split(s, ","). */
  function Split(s: string): (f: seq<string>)
    ensures |f| >= 1
    decreases |s|
  {
    if Until(s, ',') == |s| then [s] else [s[..Until(s, ',')]] + Split(s[Until(s, ',')+1..])
  }

  /** The fields from position p on; a position past the end has none left. */
  function FieldsFrom(s: string, p: nat): seq<string>
    requires p <= |s| + 1
  {
    if p > |s| then [] else Split(s[p..])
  }

  /** The field at p ends at the next comma or at the end. */
  lemma NextField(s: string, p: nat)
    requires p <= |s|
    ensures var c := p + Until(s[p..], ','); FieldsFrom(s, p) == [s[p..c]] + FieldsFrom(s, c + 1)
  {
    var t, c := s[p..], p + Until(s[p..], ',');
    assert t[..c-p] == s[p..c];
    if c < |s| {
      assert t[c-p+1..] == s[c+1..];
    } else {
      assert t == s[p..c];
    }
  }

  // ---------------------------------------------------------------- the Go parser

  datatype Line = Line(large: bool, text: string, mode: string)

  datatype Display = Display(form: string, lines: seq<Line>) | ParseError

  function LineOf(form: string, f: seq<string>, i: nat): Line
    requires i < |form| && 2 + 2 * |form| <= |f|
  {
    Line(form[i] == '1', Decoded(f[2+2*i]), Decoded(f[3+2*i]))
  }

  /** The first n lines. */
  function LinesOf(form: string, f: seq<string>, n: nat): (lines: seq<Line>)
    requires n <= |form| && 2 + 2 * |form| <= |f|
    ensures |lines| == n
  {
    if n == 0 then [] else LinesOf(form, f, n - 1) + [LineOf(form, f, n - 1)]
  }

  /** Compared without regard to case. */
  predicate IsSts(tag: string) { Upper(tag) == "STS" }

  predicate Complete(f: seq<string>) { |f| >= 2 && IsSts(f[0]) && f[1] != "" && 2 + 2 * |f[1]| <= |f| }

  function GoParse(raw: string): Display {
    var f := Split(raw);
    if Complete(f) then Display(f[1], LinesOf(f[1], f, |f[1]|)) else ParseError
  }

  method ReadLines(form: string, f: seq<string>) returns (lines: seq<Line>)
    requires 2 + 2 * |form| <= |f|
    ensures lines == LinesOf(form, f, |form|)
  {
    lines := [];
    for i := 0 to |form|
      invariant lines == LinesOf(form, f, i)
    {
      var text := DecodeDisplayText(f[2+i*2]);
      var mode := DecodeDisplayText(f[3+i*2]);
      var large := false;
      if form[i] == '1' { large := true; }
      lines := lines + [Line(large, text, mode)];
    }
  }

  method ParseSTS(raw: string) returns (d: Display)
    ensures d == GoParse(raw)
  {
    var f := Split(raw);
    if |f| < 2 || !IsSts(f[0]) { return ParseError; }
    var n := |f[1]|;
    if n == 0 || |f| < 2 + 2 * n { return ParseError; }
    var lines := ReadLines(f[1], f);
    d := Display(f[1], lines);
  }

  // ---------------------------------------------------------------- the firmware

  function Blanks(n: nat): string { seq(n, _ => ' ') }

  /** Cut or padded with spaces to the width of the screen. */
  function Padded(s: string): string { if |s| >= COLS then s[..COLS] else s + Blanks(COLS - |s|) }

  method StsCopy(dst: array<char>, src: string)
    requires dst.Length == COLS + 1
    modifies dst
    ensures dst[..COLS] == Padded(ShownAll(src)) && dst[COLS] == '\0'
  {
    var o := 0;
    while o < |src| && o < COLS
      invariant o <= |src| && o <= COLS && dst[..o] == ShownAll(src)[..o]
    {
      var c := src[o];
      if c == '\t' {
        c := ',';
      } else if c < '\U{20}' || c > '\U{7e}' {
        c := ' ';
      }
      dst[o] := c;
      o := o + 1;
    }
    ghost var copied := dst[..o];
    while o < COLS
      invariant |copied| <= o <= COLS && dst[..o] == copied + Blanks(o - |copied|)
    {
      dst[o] := ' ';
      o := o + 1;
    }
    dst[COLS] := '\0';
    assert dst[..COLS] == copied + Blanks(COLS - |copied|);
  }

  /** A row of the screen: what fills its COLS columns. */
  datatype Row = Row(large: bool, text: string, mode: string)

  /** The fields from position p on, added to f while there is room. */
  function Collected(buf: string, p: nat, f: seq<string>): seq<string>
    requires p <= |buf| + 1
    decreases |buf| + 1 - p
  {
    if p > |buf| || |f| >= MAX_FIELDS then f
    else
      var c := p + Until(buf[p..], ',');
      Collected(buf, c + 1, f + [buf[p..c]])
  }

  function Fields(buf: string): seq<string>
    requires |buf| >= 4
  {
    Collected(buf, 4, [])
  }

  function RowOf(f: seq<string>, i: nat): Row
    requires 1 + 2 * i + 1 < |f| && i < |f[0]|
  {
    Row(f[0][i] == '1', Padded(ShownAll(f[1+2*i])), Padded(ShownAll(f[2+2*i])))
  }

  predicate Acceptable(f: seq<string>) { |f| >= 1 && 0 < |f[0]| <= MAX_LINES && 1 + 2 * |f[0]| <= |f| }

  function RowsOf(f: seq<string>, n: nat): (rows: seq<Row>)
    requires Acceptable(f) && n <= |f[0]|
    ensures |rows| == n
  {
    if n == 0 then [] else RowsOf(f, n - 1) + [RowOf(f, n - 1)]
  }

  function PanelParse(buf: string): Option<seq<Row>> {
    if !HasAt(buf, 0, "STS,") || !Acceptable(Fields(buf)) then None else Some(RowsOf(Fields(buf), |Fields(buf)[0]|))
  }

  /** The part of the scanner state that the display task reads: rows, and a count of the changes. */
  class Screen {
    var rows: seq<Row>
    var changes: nat

    constructor ()
      ensures rows == [] && changes == 0
    {
      rows, changes := [], 0;
    }

    method SplitFields(buf: string) returns (f: seq<string>)
      requires |buf| >= 4
      ensures f == Fields(buf)
    {
      f := [];
      var p := 4;
      while p <= |buf| && |f| < MAX_FIELDS
        invariant 4 <= p <= |buf| + 1 && Collected(buf, p, f) == Fields(buf)
      {
        var c := p + Until(buf[p..], ',');
        f := f + [buf[p..c]];
        p := c + 1;
      }
    }

    method Render(f: seq<string>) returns (tmp: seq<Row>)
      requires Acceptable(f)
      ensures tmp == RowsOf(f, |f[0]|)
    {
      tmp := [];
      for i := 0 to |f[0]|
        invariant tmp == RowsOf(f, i)
      {
        var text := new char[COLS + 1];
        StsCopy(text, f[1+2*i]);
        var shown := text[..COLS];
        var mode := new char[COLS + 1];
        StsCopy(mode, f[2+2*i]);
        tmp := tmp + [Row(f[0][i] == '1', shown, mode[..COLS])];
      }
    }

    /** A frame that is refused leaves the screen as it was; one that shows the same counts as no change. */
    method ParseSts(buf: string) returns (ok: bool)
      modifies this
      ensures ok == PanelParse(buf).Some?
      ensures rows == if ok then PanelParse(buf).value else old(rows)
      ensures changes == if rows == old(rows) then old(changes) else (old(changes) + 1) % WRAP
    {
      if !HasAt(buf, 0, "STS,") { return false; }
      var f := SplitFields(buf);
      if |f| < 1 { return false; }
      var lines := |f[0]|;
      if lines <= 0 || lines > MAX_LINES || |f| < 1 + 2 * lines { return false; }
      var tmp := Render(f);
      if |rows| != lines || rows != tmp {
        rows := tmp;
        changes := (changes + 1) % WRAP;
      }
      ok := true;
    }
  }

  // ---------------------------------------------------------------- the Android parser

  predicate IsBreak(c: char) { c == '\r' || c == '\n' }

  function LineEnd(raw: string): (i: nat)
    ensures i <= |raw|
  {
    if raw == "" || IsBreak(raw[0]) then 0 else 1 + LineEnd(raw[1..])
  }

  predicate StartsSts(line: string) { |line| >= 4 && IsSts(line[..3]) && line[3] == ',' }

  /** The first of the lines that starts as a reply does. */
  function StsLine(raw: string): Option<string>
    decreases |raw|
  {
    var n := LineEnd(raw);
    if StartsSts(raw[..n]) then Some(raw[..n])
    else if n == |raw| then None
    else StsLine(raw[n+1..])
  }

  predicate FontDigits(form: string) { forall k :: 0 <= k < |form| ==> form[k] == '0' || form[k] == '1' }

  /** parseLines. */
  function KotlinParse(raw: string): Display {
    if StsLine(raw).None? then ParseError
    else
      var f := Split(StsLine(raw).value);
      if |f| < 2 || f[1] == "" || |f[1]| > 40 || !FontDigits(f[1]) || |f| < 2 + 2 * |f[1]| then ParseError
      else Display(f[1], LinesOf(f[1], f, |f[1]|))
  }

  // ---------------------------------------------------------------- one text, three readers

  /** The columns the firmware shows are the text the others decode, cut or padded. */
  lemma RowIsPaddedText(s: string)
    ensures Padded(ShownAll(s)) == Padded(Decoded(s))
  {
    var all, text := ShownAll(s), Decoded(s);
    CutSpacesIs(all);
    forall k | 0 <= k < COLS ensures Padded(all)[k] == Padded(text)[k] {
    }
  }

  lemma {:induction false} FirstField(s: string)
    ensures |s| >= 4 && HasAt(s, 0, "STS,") ==> Split(s) == ["STS"] + Split(s[4..])
  {
    if |s| >= 4 && HasAt(s, 0, "STS,") {
      assert s == "STS," + s[4..];
      assert s[0] == 'S' && s[1] == 'T' && s[2] == 'S' && s[3] == ',';
      assert Until(s, ',') == 3 by { UntilIs(s, 3, ','); }
      assert s[..3] == "STS";
    }
  }

  function First(all: seq<string>): seq<string> { if |all| <= MAX_FIELDS then all else all[..MAX_FIELDS] }

  lemma FullAlready(f: seq<string>, more: seq<string>)
    requires |f| == MAX_FIELDS
    ensures First(f + more) == f
  {
    assert (f + more)[..MAX_FIELDS] == f;
  }

  /** One field more is taken. */
  lemma Peeled(buf: string, p: nat, f: seq<string>) returns (c: nat, g: seq<string>)
    requires p <= |buf| && |f| < MAX_FIELDS
    ensures p <= c <= |buf| && |g| == |f| + 1
    ensures Collected(buf, p, f) == Collected(buf, c + 1, g)
    ensures f + FieldsFrom(buf, p) == g + FieldsFrom(buf, c + 1)
  {
    c := p + Until(buf[p..], ',');
    g := f + [buf[p..c]];
    FieldsPeeled(buf, p, f, c);
  }

  lemma FieldsPeeled(buf: string, p: nat, f: seq<string>, c: nat)
    requires p <= |buf| && c == p + Until(buf[p..], ',')
    ensures f + FieldsFrom(buf, p) == f + [buf[p..c]] + FieldsFrom(buf, c + 1)
  {
    NextField(buf, p);
    Regroup(f, buf[p..c], FieldsFrom(buf, c + 1));
  }

  /** The firmware's fields are the first MAX_FIELDS of `all`. */
  lemma {:induction false} CollectedIsPrefix(buf: string, p: nat, f: seq<string>, all: seq<string>)
    requires p <= |buf| + 1 && |f| <= MAX_FIELDS && all == f + FieldsFrom(buf, p)
    ensures Collected(buf, p, f) == First(all)
    decreases |buf| + 1 - p
  {
    if |f| == MAX_FIELDS {
      FullAlready(f, FieldsFrom(buf, p));
    } else if p > |buf| {
      assert f + FieldsFrom(buf, p) == f;
    } else {
      var c, g := Peeled(buf, p, f);
      CollectedIsPrefix(buf, c + 1, g, all);
    }
  }

  lemma {:induction false} LinesAt(form: string, f: seq<string>, n: nat, i: nat)
    requires i < n <= |form| && 2 + 2 * |form| <= |f|
    ensures LinesOf(form, f, n)[i] == LineOf(form, f, i)
  {
    if i < n - 1 { LinesAt(form, f, n - 1, i); }
  }

  lemma {:induction false} RowsAt(f: seq<string>, n: nat, i: nat)
    requires Acceptable(f) && i < n <= |f[0]|
    ensures RowsOf(f, n)[i] == RowOf(f, i)
  {
    if i < n - 1 { RowsAt(f, n - 1, i); }
  }

  /** The firmware's fields are those after the first, and enough of them for any form it takes. */
  lemma FieldsAreSplit(buf: string)
    requires HasAt(buf, 0, "STS,")
    ensures var f, g := Split(buf), Fields(buf);
            && f[0] == "STS" && |g| == (if |f| - 1 <= MAX_FIELDS then |f| - 1 else MAX_FIELDS)
            && |g| > 0 && forall k :: 0 <= k < |g| ==> g[k] == f[k+1]
  {
    FirstField(buf);
    assert [] + FieldsFrom(buf, 4) == Split(buf[4..]);
    CollectedIsPrefix(buf, 4, [], Split(buf[4..]));
  }

  /** The firmware takes a frame if and only if Go does, it is in capitals, and it has at most 12 lines. */
  lemma PanelTakesWhatGoTakes(buf: string)
    ensures PanelParse(buf).Some?
            <==> HasAt(buf, 0, "STS,") && GoParse(buf).Display? && |GoParse(buf).form| <= 12
  {
    if HasAt(buf, 0, "STS,") {
      FieldsAreSplit(buf);
      StsIsSts();
    }
  }

  lemma RowShowsLine(f: seq<string>, g: seq<string>, i: nat)
    requires Acceptable(g) && |g| < |f| && (forall k :: 0 <= k < |g| ==> g[k] == f[k+1]) && i < |g[0]|
    ensures var row, line := RowsOf(g, |g[0]|)[i], LinesOf(f[1], f, |f[1]|)[i];
            row == Row(line.large, Padded(line.text), Padded(line.mode))
  {
    RowsAt(g, |g[0]|, i);
    LinesAt(f[1], f, |f[1]|, i);
    RowIsPaddedText(f[2+2*i]);
    RowIsPaddedText(f[3+2*i]);
  }

  /** It then shows the same lines, cut or padded to 30 columns. */
  lemma PanelShowsWhatGoDecodes(buf: string)
    requires PanelParse(buf).Some?
    ensures GoParse(buf).Display?
    ensures var rows, lines := PanelParse(buf).value, GoParse(buf).lines;
            && |rows| == |lines|
            && forall i :: 0 <= i < |rows| ==>
                 rows[i] == Row(lines[i].large, Padded(lines[i].text), Padded(lines[i].mode))
  {
    PanelTakesWhatGoTakes(buf);
    FieldsAreSplit(buf);
    forall i | 0 <= i < |Fields(buf)[0]|
      ensures var row, line := PanelParse(buf).value[i], GoParse(buf).lines[i];
              row == Row(line.large, Padded(line.text), Padded(line.mode))
    {
      RowShowsLine(Split(buf), Fields(buf), i);
    }
  }

  lemma StsIsSts()
    ensures IsSts("STS")
  {
    assert Upper("STS") == "STS";
  }

  /** Go takes the tag in any mixture of capital and small letters. */
  lemma TagInAnyCase(tag: string)
    ensures IsSts(tag) <==> |tag| == 3 && tag[0] in "Ss" && tag[1] in "Tt" && tag[2] in "Ss"
  {
    if IsSts(tag) {
      assert |tag| == |Upper(tag)|;
      assert Upper(tag)[0] == 'S' && Upper(tag)[1] == 'T' && Upper(tag)[2] == 'S';
    }
  }

  /** A line starts as a reply for Kotlin if and only if its first field is the tag for Go. */
  lemma SameTag(line: string)
    ensures StartsSts(line) <==> |Split(line)| >= 2 && IsSts(Split(line)[0])
  {
    var i := Until(line, ',');
    if StartsSts(line) {
      assert Upper(line[..3])[0] == 'S' && Upper(line[..3])[1] == 'T' && Upper(line[..3])[2] == 'S';
      assert line[..3][0] == line[0] && line[..3][1] == line[1] && line[..3][2] == line[2];
      UntilIs(line, 3, ',');
    } else if i < |line| && IsSts(line[..i]) {
      assert |Upper(line[..i])| == i;
    }
  }

  /** On a reply of one line Kotlin and Go give the same, except that Kotlin also refuses forms of more than 40
      lines or with other font digits than 0 and 1. */
  lemma KotlinAgreesWithGo(raw: string)
    requires forall k :: 0 <= k < |raw| ==> !IsBreak(raw[k])
    ensures KotlinParse(raw) == GoParse(raw)
            <==> (GoParse(raw).Display? ==>
                    && |GoParse(raw).form| <= 40
                    && forall k :: 0 <= k < |GoParse(raw).form| ==> GoParse(raw).form[k] in "01")
  {
    WholeLine(raw);
    SameTag(raw);
    assert raw[..|raw|] == raw;
  }

  /** Lines, each with its end, that do not start as a reply does. */
  predicate OtherLines(s: string)
    decreases |s|
  {
    s == "" || (LineEnd(s) < |s| && !StartsSts(s[..LineEnd(s)]) && OtherLines(s[LineEnd(s)+1..]))
  }

  lemma {:induction false} LineEndIs(a: string, b: string)
    requires (forall k :: 0 <= k < |a| ==> !IsBreak(a[k])) && (b == "" || IsBreak(b[0]))
    ensures LineEnd(a + b) == |a|
  {
    if a != "" {
      assert (a + b)[1..] == a[1..] + b;
      LineEndIs(a[1..], b);
    } else {
      assert a + b == b;
    }
  }

  lemma {:induction false} LineEndStays(a: string, b: string)
    requires LineEnd(a) < |a|
    ensures LineEnd(a + b) == LineEnd(a) && IsBreak(a[LineEnd(a)])
  {
    if !IsBreak(a[0]) {
      assert (a + b)[1..] == a[1..] + b;
      LineEndStays(a[1..], b);
    }
  }

  lemma {:induction false} FirstStsLine(before: string, line: string, after: string)
    requires OtherLines(before) && StartsSts(line) && (forall k :: 0 <= k < |line| ==> !IsBreak(line[k]))
    requires after == "" || IsBreak(after[0])
    ensures StsLine(before + (line + after)) == Some(line)
    decreases |before|
  {
    var rest := line + after;
    var raw := before + rest;
    if before == "" {
      assert raw == rest;
      LineEndIs(line, after);
      assert raw[..|line|] == line;
    } else {
      var n := LineEnd(before);
      LineEndStays(before, rest);
      assert raw[..n] == before[..n] && raw[n+1..] == before[n+1..] + rest;
      FirstStsLine(before[n+1..], line, after);
    }
  }

  /** Of a reply of several lines Kotlin reads the first that starts as one, whatever lines are around it. */
  lemma FirstStsLineRead(before: string, line: string, after: string)
    requires OtherLines(before) && StartsSts(line) && (forall k :: 0 <= k < |line| ==> !IsBreak(line[k]))
    requires after == "" || IsBreak(after[0])
    ensures KotlinParse(before + (line + after)) == KotlinParse(line)
  {
    FirstStsLine(before, line, after);
    WholeLine(line);
    assert line[..|line|] == line;
  }

  lemma {:induction false} WholeLine(raw: string)
    requires forall k :: 0 <= k < |raw| ==> !IsBreak(raw[k])
    ensures LineEnd(raw) == |raw|
  {
    if raw != "" { WholeLine(raw[1..]); }
  }

  // ---------------------------------------------------------------- printing a frame

  /** The protocol sends a comma inside a field as a tab. */
  function Escaped(t: string): (e: string)
    ensures |e| == |t| && forall k :: 0 <= k < |e| ==> e[k] == (if t[k] == ',' then '\t' else t[k]) && e[k] != ','
  {
    seq(|t|, i requires 0 <= i < |t| => if t[i] == ',' then '\t' else t[i])
  }

  function FieldsOf(lines: seq<(string, string)>): (f: seq<string>)
    ensures |f| == 2 * |lines|
  {
    if lines == [] then []
    else FieldsOf(lines[..|lines|-1]) + [Escaped(lines[|lines|-1].0), Escaped(lines[|lines|-1].1)]
  }

  function Frame(form: string, lines: seq<(string, string)>): string {
    Join(["STS", form] + FieldsOf(lines), ",")
  }

  predicate NoComma(s: string) { forall k :: 0 <= k < |s| ==> s[k] != ',' }

  lemma {:induction false} FieldsOfAt(lines: seq<(string, string)>, i: nat)
    requires i < |lines|
    ensures FieldsOf(lines)[2*i] == Escaped(lines[i].0) && FieldsOf(lines)[2*i+1] == Escaped(lines[i].1)
  {
    if i < |lines| - 1 { FieldsOfAt(lines[..|lines|-1], i); }
  }

  lemma {:induction false} FieldsOfClean(lines: seq<(string, string)>)
    ensures forall k :: 0 <= k < |FieldsOf(lines)| ==> NoComma(FieldsOf(lines)[k])
  {
    if lines != [] { FieldsOfClean(lines[..|lines|-1]); }
  }

  lemma {:induction false} SplitJoined(f: seq<string>)
    requires f != [] && forall k :: 0 <= k < |f| ==> NoComma(f[k])
    ensures Split(Join(f, ",")) == f
    decreases |f|
  {
    assert NoComma(f[0]);
    if |f| == 1 {
      NoneFound(f[0]);
    } else {
      var s, rest := Join(f, ","), Join(f[1..], ",");
      assert s == f[0] + "," + rest;
      UntilIs(s, |f[0]|, ',');
      assert s[..|f[0]|] == f[0] && s[|f[0]|+1..] == rest;
      SplitJoined(f[1..]);
    }
  }

  lemma {:induction false} NoneFound(s: string)
    requires NoComma(s)
    ensures Until(s, ',') == |s|
  {
    if s != "" { NoneFound(s[1..]); }
  }

  /** A printed frame parses to its form and, line by line, its decoded texts. */
  lemma FrameParsed(form: string, lines: seq<(string, string)>)
    requires form != "" && NoComma(form) && |lines| == |form|
    ensures var d := GoParse(Frame(form, lines));
            && d.Display? && d.form == form && |d.lines| == |form|
            && forall i :: 0 <= i < |form| ==>
                 d.lines[i] == Line(form[i] == '1', Decoded(Escaped(lines[i].0)), Decoded(Escaped(lines[i].1)))
  {
    var f := ["STS", form] + FieldsOf(lines);
    FieldsOfClean(lines);
    assert NoComma("STS");
    forall k | 0 <= k < |f| ensures NoComma(f[k]) {
      if k >= 2 { assert f[k] == FieldsOf(lines)[k-2]; }
    }
    SplitJoined(f);
    StsIsSts();
    forall i | 0 <= i < |form|
      ensures LinesOf(form, f, |form|)[i]
              == Line(form[i] == '1', Decoded(Escaped(lines[i].0)), Decoded(Escaped(lines[i].1)))
    {
      LinesAt(form, f, |form|, i);
      FieldsOfAt(lines, i);
    }
  }

  /** A text comes back as it was if and only if it is printable and does not end in a space. */
  lemma TextBackIff(t: string)
    ensures Decoded(Escaped(t)) == t
            <==> (forall k :: 0 <= k < |t| ==> Printable(t[k])) && (t != "" ==> t[|t|-1] != ' ')
  {
    var all := ShownAll(Escaped(t));
    CutSpacesIs(all);
    if forall k :: 0 <= k < |t| ==> Printable(t[k]) {
      assert all == t;
    }
    if Decoded(Escaped(t)) == t {
      forall k | 0 <= k < |t| ensures Printable(t[k]) {
        assert t[k] == all[k] == Shown(Escaped(t)[k]);
      }
    }
  }

  /** What a row shows of a text. */
  predicate ShownIn(row: string, t: string) {
    |row| == 30 && forall k :: 0 <= k < 30 ==> row[k] == if k < |t| then t[k] else ' '
  }

  predicate AllPrintable(t: string) { forall k :: 0 <= k < |t| ==> Printable(t[k]) }

  lemma PaddedBack(t: string)
    requires AllPrintable(t)
    ensures Padded(Decoded(Escaped(t))) == Padded(t)
  {
    assert ShownAll(Escaped(t)) == t;
    RowIsPaddedText(Escaped(t));
  }

  /** So a printed frame of 1 to 12 lines fills the firmware's screen with its printable texts and modes, a row for a
      line. */
  lemma ScreenShowsFrame(form: string, lines: seq<(string, string)>, i: nat)
    requires 0 < |form| <= 12 && NoComma(form) && |lines| == |form| && i < |form|
    ensures var rows := PanelParse(Frame(form, lines));
            && rows.Some? && |rows.value| == |form| && rows.value[i].large == (form[i] == '1')
            && (AllPrintable(lines[i].0) ==> ShownIn(rows.value[i].text, lines[i].0))
            && (AllPrintable(lines[i].1) ==> ShownIn(rows.value[i].mode, lines[i].1))
  {
    var frame := Frame(form, lines);
    assert frame == "STS" + "," + Join([form] + FieldsOf(lines), ",") by {
      assert (["STS", form] + FieldsOf(lines))[1..] == [form] + FieldsOf(lines);
    }
    assert HasAt(frame, 0, "STS,");
    FrameParsed(form, lines);
    PanelTakesWhatGoTakes(frame);
    PanelShowsWhatGoDecodes(frame);
    if AllPrintable(lines[i].0) { PaddedBack(lines[i].0); }
    if AllPrintable(lines[i].1) { PaddedBack(lines[i].1); }
  }
}
