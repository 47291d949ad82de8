/**
 Framing of RTSP responses (RFC 2326 sections 4.4 and 7) on a byte stream: readResponse of the Go client
 (audio.go), and readLine, readResponse and Rtsp.parseHead of the Android client (RtspClient.kt, Media.kt).
 */
module RtspFraming {
  import opened Numerals
  import opened Options
  import opened Text

  const MAX_BODY := 4 * 1024 * 1024
  const MAX_LINE := 8192
  const MAX_HEADERS := 100

  type Table = map<string, string>

  datatype Response = Response(status: int, reason: string, headers: Table, body: string)

  // ---------------------------------------------------------------- lines

  /** Drops trailing carriage returns. */
  function CutReturns(s: string): (r: string)
    ensures r <= s && (r != "" ==> r[|r|-1] != '\r')
  {
    if s != "" && s[|s|-1] == '\r' then CutReturns(s[..|s|-1]) else s
  }

  /** A line without its ending, which is the carriage returns before a line feed, and what follows it. */
  function Line(s: string): Option<(string, string)> {
    var i := Until(s, '\n');
    if i == |s| then None else Some((CutReturns(s[..i]), s[i+1..]))
  }

  // ---------------------------------------------------------------- the head

  function Code(s: string): Option<(string, string)> {
    var i := Until(s, ' ');
    if i == |s| || s[..i] != "RTSP/1.0" then None
    else
      var rest := s[i+1..];
      var j := Until(rest, ' ');
      Some((rest[..j], if j == |rest| then "" else rest[j+1..]))
  }

  function Before(line: string): string { line[..Until(line, ':')] }

  function Behind(line: string): string
    requires Until(line, ':') < |line|
  {
    line[Until(line, ':')+1..]
  }

  function Name(line: string, lang: Lang): string { Lower(Trim(Before(line), lang)) }

  function Field(line: string, lang: Lang): string
    requires Until(line, ':') < |line|
  {
    Trim(Behind(line), lang)
  }

  /** Header lines parsed as they are read, up to an empty line. */
  function Fields(h: Table, s: string, lang: Lang): Option<(Table, string)>
    decreases |s|
  {
    match Line(s)
    case None => None
    case Some((line, rest)) =>
      if line == "" then Some((h, rest))
      else if Until(line, ':') == |line| then None
      else Fields(h[Name(line, lang) := Field(line, lang)], rest, lang)
  }

  // ---------------------------------------------------------------- numbers

  /** strconv.Atoi: on failure the value is 0 or, out of range, the nearest end of the range. */
  function Atoi(s: string): (int, bool) {
    match Number(s)
    case None => (0, false)
    case Some(v) =>
      if v > INT64_MAX then (INT64_MAX, false)
      else if v < -INT64_MAX - 1 then (-INT64_MAX - 1, false)
      else (v, true)
  }

  predicate Fits32(v: int) { -INT32_MAX - 1 <= v <= INT32_MAX }

  /** toIntOrNull. */
  function ToInt(s: string): Option<int> {
    match Number(s)
    case None => None
    case Some(v) => if Fits32(v) then Some(v) else None
  }

  function GoLength(h: Table): int { if "content-length" in h then Atoi(h["content-length"]).0 else 0 }

  function KotlinLength(h: Table): int {
    var n := if "content-length" in h then ToInt(Trim(h["content-length"], Kotlin)) else None;
    if n.Some? then n.value else 0
  }

  function Length(h: Table, lang: Lang): int { if lang.Go? then GoLength(h) else KotlinLength(h) }

  function StatusOf(code: string, lang: Lang): Option<int> {
    if lang.Kotlin? then ToInt(code) else if Atoi(code).1 then Some(Atoi(code).0) else None
  }

  /** `n` bytes of body, if they are allowed and there. */
  function Body(n: int, s: string): Option<(string, string)> {
    if 0 <= n <= MAX_BODY && n <= |s| then Some((s[..n], s[n..])) else None
  }

  // ---------------------------------------------------------------- a whole response

  function WithBody(status: int, reason: string, h: Table, body: Option<(string, string)>): Option<(Response, string)> {
    if body.None? then None else Some((Response(status, reason, h, body.value.0), body.value.1))
  }

  /** The response from the two parts of its status line, and from its header lines and what follows them. */
  function Answered(
    code: Option<(string, string)>, fields: Option<(Table, string)>, lang: Lang): Option<(Response, string)>
  {
    if code.None? || fields.None? || StatusOf(code.value.0, lang).None? then None
    else
      var (h, rest) := fields.value;
      WithBody(StatusOf(code.value.0, lang).value, code.value.1, h, Body(Length(h, lang), rest))
  }

  /** A response read line by line, with the trims and number ranges of `lang`. */
  function ReadAs(s: string, lang: Lang): Option<(Response, string)> {
    match Line(s)
    case None => None
    case Some((first, rest)) => Answered(Code(first), Fields(map[], rest, lang), lang)
  }

  function GoRead(s: string): Option<(Response, string)> { ReadAs(s, Go) }

  /** The Go client's buffered reader: what the connection delivers before it ends, and how much was read. */
  class Reader {
    const input: string
    var pos: nat

    ghost predicate Valid() reads this { pos <= |input| }

    ghost function Rest(): string
      requires Valid()
      reads this
    {
      input[pos..]
    }

    constructor (input: string)
      ensures Valid() && Rest() == input
    {
      this.input, pos := input, 0;
    }

    /** Reads through the next line feed; without one, to the end, in vain. */
    method ReadString() returns (line: Option<string>)
      requires Valid()
      modifies this
      ensures Valid()
      ensures var s := old(Rest()); var i := Until(s, '\n');
              if i == |s| then line == None && Rest() == ""
              else line == Some(s[..i+1]) && Rest() == s[i+1..]
    {
      var from := pos;
      ghost var s, rest := Rest(), Rest();
      while pos < |input| && input[pos] != '\n'
        invariant from <= pos <= |input| && rest == input[pos..]
        invariant Until(s, '\n') == pos - from + Until(rest, '\n')
      {
        pos := pos + 1;
        rest := rest[1..];
      }
      if pos == |input| { return None; }
      pos := pos + 1;
      line := Some(input[from..pos]);
      assert s[..pos-from] == input[from..pos];
    }

    method ReadLine() returns (line: Option<string>)
      requires Valid()
      modifies this
      ensures Valid()
      ensures match Line(old(Rest()))
              case None => line == None
              case Some((l, rest)) => line == Some(l) && Rest() == rest
    {
      ghost var s := Rest();
      var got := ReadString();
      match got {
        case None => return None;
        case Some(l) =>
          var i := Until(s, '\n');
          assert l == s[..i] + "\n";
          NoneBefore(s, '\n');
          CutEnding(s[..i]);
          line := Some(CutRight(l, "\r\n"));
      }
    }

    method ReadFields() returns (h: Option<Table>)
      requires Valid()
      modifies this
      ensures Valid()
      ensures match Fields(map[], old(Rest()), Go)
              case None => h == None
              case Some((t, rest)) => h == Some(t) && Rest() == rest
    {
      var t: Table := map[];
      while true
        invariant Valid() && Fields(t, Rest(), Go) == Fields(map[], old(Rest()), Go)
        decreases |Rest()|
      {
        var l := ReadLine();
        if l.None? { return None; }
        if l.value == "" { return Some(t); }
        if Until(l.value, ':') == |l.value| { return None; }
        t := t[Name(l.value, Go) := Field(l.value, Go)];
      }
    }

    method ReadBody(n: int) returns (body: Option<string>)
      requires Valid()
      modifies this
      ensures Valid()
      ensures match Body(n, old(Rest()))
              case None => body == None
              case Some((b, rest)) => body == Some(b) && Rest() == rest
    {
      if n < 0 || n > MAX_BODY { return None; }
      if n > |input| - pos {
        pos := |input|;
        return None;
      }
      assert input[pos..][..n] == input[pos..pos+n] && input[pos..][n..] == input[pos+n..];
      body := Some(input[pos..pos+n]);
      pos := pos + n;
    }

    method ReadResponse() returns (r: Option<Response>)
      requires Valid()
      modifies this
      ensures Valid()
      ensures match GoRead(old(Rest()))
              case None => r == None
              case Some((response, rest)) => r == Some(response) && Rest() == rest
    {
      var first := ReadLine();
      if first.None? { return None; }
      var code := Code(first.value);
      if code.None? { return None; }
      var (status, ok) := Atoi(code.value.0);
      if !ok { return None; }
      var h := ReadFields();
      if h.None? { return None; }
      var body := ReadBody(GoLength(h.value));
      if body.None? { return None; }
      r := Some(Response(status, code.value.1, h.value, body.value));
    }
  }

  /** Go cuts both bytes of the line ending off the line it read with its line feed; what is left is the same. */
  lemma CutEnding(s: string)
    requires '\n' !in s
    ensures CutRight(s + "\n", "\r\n") == CutReturns(s)
  {
    assert (s + "\n")[..|s|] == s;
    CutBoth(s);
  }

  lemma {:induction false} CutBoth(s: string)
    requires '\n' !in s
    ensures CutRight(s, "\r\n") == CutReturns(s)
  {
    if s != "" && s[|s|-1] == '\r' { CutBoth(s[..|s|-1]); }
  }

  // ---------------------------------------------------------------- the Android client

  /** A line, if it is not too long. */
  function ShortLine(s: string): Option<(string, string)> {
    if Until(s, '\n') > MAX_LINE then None else Line(s)
  }

  /** The lines up to an empty one, after the lines `ls` read so far. */
  function HeaderLines(ls: seq<string>, s: string): Option<(seq<string>, string)>
    decreases |s|
  {
    match ShortLine(s)
    case None => None
    case Some((line, rest)) =>
      if line == "" then Some((ls, rest))
      else if |ls| >= MAX_HEADERS then None
      else HeaderLines(ls + [line], rest)
  }

  function Parsed(lines: seq<string>): Option<Table>
    decreases |lines|
  {
    if lines == [] then Some(map[])
    else
      var h, line := Parsed(lines[..|lines|-1]), lines[|lines|-1];
      if h.None? || Until(line, ':') == |line| then None else Some(h.value[Name(line, Kotlin) := Field(line, Kotlin)])
  }

  /** Rtsp.parseHead. */
  function Head(first: string, lines: seq<string>): Option<(int, string, Table)> {
    if Code(first).None? || ToInt(Code(first).value.0).None? || Parsed(lines).None? then None
    else Some((ToInt(Code(first).value.0).value, Code(first).value.1, Parsed(lines).value))
  }

  function KotlinRead(s: string): Option<(Response, string)> {
    match ShortLine(s)
    case None => None
    case Some((first, s1)) =>
      match HeaderLines([], s1)
      case None => None
      case Some((lines, s2)) =>
        match Head(first, lines)
        case None => None
        case Some((status, reason, h)) => WithBody(status, reason, h, Body(KotlinLength(h), s2))
  }

  /** Neither the status line nor a header line is too long, and there are not too many. */
  predicate Modest(s: string) { ShortLine(s) == Line(s) && (Line(s).Some? ==> ModestHeaders(0, Line(s).value.1)) }

  /** `n` header lines were read so far. */
  predicate ModestHeaders(n: nat, s: string)
    decreases |s|
  {
    match Line(s)
    case None => true
    case Some((line, rest)) =>
      ShortLine(s) == Line(s) && (line == "" || (n < MAX_HEADERS && ModestHeaders(n + 1, rest)))
  }

  /** Collecting the lines and then parsing them gives what parsing them as they come gives. */
  lemma {:induction false} LinesThenParse(ls: seq<string>, s: string)
    requires HeaderLines(ls, s).Some?
    ensures ModestHeaders(|ls|, s)
    ensures var (lines, rest) := HeaderLines(ls, s).value;
            if Parsed(ls).None? then Parsed(lines).None?
            else Fields(Parsed(ls).value, s, Kotlin)
                 == if Parsed(lines).None? then None else Some((Parsed(lines).value, rest))
    decreases |s|
  {
    var (line, rest) := Line(s).value;
    if line != "" {
      assert (ls + [line])[..|ls|] == ls;
      LinesThenParse(ls + [line], rest);
    }
  }

  lemma {:induction false} ModestLinesRead(ls: seq<string>, h: Table, s: string)
    requires ModestHeaders(|ls|, s) && Fields(h, s, Kotlin).Some?
    ensures HeaderLines(ls, s).Some?
    decreases |s|
  {
    var (line, rest) := Line(s).value;
    if line != "" { ModestLinesRead(ls + [line], h[Name(line, Kotlin) := Field(line, Kotlin)], rest); }
  }

  /** Reading first and parsing afterwards, the Android client reads what it would read line by line, if the head is
      within its limits, and nothing otherwise. */
  lemma KotlinReadIs(s: string)
    ensures KotlinRead(s) == if Modest(s) then ReadAs(s, Kotlin) else None
  {
    if Line(s).Some? {
      var s1 := Line(s).value.1;
      if HeaderLines([], s1).Some? { LinesThenParse([], s1); }
      if ModestHeaders(0, s1) && Fields(map[], s1, Kotlin).Some? { ModestLinesRead([], map[], s1); }
    }
  }

  ghost predicate Trimmed(h: Table, lang: Lang) { forall k :: k in h ==> Trim(h[k], lang) == h[k] }

  lemma {:induction false} FieldsTrimmed(h: Table, s: string, lang: Lang)
    requires Trimmed(h, lang) && Fields(h, s, lang).Some?
    ensures Trimmed(Fields(h, s, lang).value.0, lang)
    decreases |s|
  {
    var (line, rest) := Line(s).value;
    if line != "" {
      TrimAgain(Behind(line), lang);
      FieldsTrimmed(h[Name(line, lang) := Field(line, lang)], rest, lang);
    }
  }

  /** The body length is announced by a number that does not fit 32 bits. */
  predicate Overlong(h: Table) {
    && "content-length" in h && Number(h["content-length"]).Some? && !Fits32(Number(h["content-length"]).value)
  }

  lemma LengthsAgree(h: Table)
    requires Trimmed(h, Kotlin)
    ensures !Overlong(h) ==> GoLength(h) == KotlinLength(h)
    ensures Overlong(h) ==> KotlinLength(h) == 0 && !(0 <= GoLength(h) <= MAX_BODY)
  {
  }

  function HeaderTable(s: string, lang: Lang): Option<(Table, string)> {
    if Line(s).None? then None else Fields(map[], Line(s).value.1, lang)
  }

  /** Both clients make the same table of the header lines. */
  predicate SameTables(s: string) { HeaderTable(s, Go) == HeaderTable(s, Kotlin) }

  predicate Coloned(lines: seq<string>) { forall k :: 0 <= k < |lines| ==> Until(lines[k], ':') < |lines[k]| }

  /** The header lines up to the empty one, and what follows it; None if one has no colon or there is no empty line. */
  function HeadLines(s: string): (r: Option<(seq<string>, string)>)
    ensures r.Some? ==> Coloned(r.value.0)
    decreases |s|
  {
    match Line(s)
    case None => None
    case Some((line, rest)) =>
      if line == "" then Some(([], rest))
      else if Until(line, ':') == |line| || HeadLines(rest).None? then None
      else Some(([line] + HeadLines(rest).value.0, HeadLines(rest).value.1))
  }

  function TableOf(h: Table, lines: seq<string>, lang: Lang): Table
    requires Coloned(lines)
    decreases |lines|
  {
    if lines == [] then h else TableOf(h[Name(lines[0], lang) := Field(lines[0], lang)], lines[1..], lang)
  }

  lemma {:induction false} FieldsAre(h: Table, s: string, lang: Lang)
    ensures Fields(h, s, lang) == if HeadLines(s).None? then None
                                  else Some((TableOf(h, HeadLines(s).value.0, lang), HeadLines(s).value.1))
    decreases |s|
  {
    if Line(s).Some? {
      var (line, rest) := Line(s).value;
      if line != "" && Until(line, ':') < |line| {
        FieldsAre(h[Name(line, lang) := Field(line, lang)], rest, lang);
        if HeadLines(rest).Some? { assert ([line] + HeadLines(rest).value.0)[1..] == HeadLines(rest).value.0; }
      }
    }
  }

  /** The last line that names `x`, or -1. */
  function LastNamed(lines: seq<string>, x: string, lang: Lang): (i: int)
    ensures -1 <= i < |lines| && (i >= 0 ==> Name(lines[i], lang) == x)
    ensures forall j :: i < j < |lines| ==> Name(lines[j], lang) != x
    decreases |lines|
  {
    if lines == [] then -1
    else
      var i := LastNamed(lines[1..], x, lang);
      assert forall j :: 0 < j < |lines| ==> lines[1..][j-1] == lines[j];
      if i >= 0 then i + 1 else if Name(lines[0], lang) == x then 0 else -1
  }

  lemma {:induction false} LookedUp(h: Table, lines: seq<string>, x: string, lang: Lang)
    requires Coloned(lines)
    ensures var i := LastNamed(lines, x, lang); var table := TableOf(h, lines, lang);
            && (x in table <==> i >= 0 || x in h)
            && (x in table ==> table[x] == if i >= 0 then Field(lines[i], lang) else h[x])
    decreases |lines|
  {
    if lines != [] { LookedUp(h[Name(lines[0], lang) := Field(lines[0], lang)], lines[1..], x, lang); }
  }

  /** What makes the tables of the two clients equal, on the bytes of the lines: no name, and no value that counts, has
      at its ends, white space apart, a character that only Kotlin trims. A value counts if no later line has its
      name. */
  predicate AlikeLines(lines: seq<string>)
    requires Coloned(lines)
  {
    forall i :: 0 <= i < |lines| ==>
      && TrimmedAlike(Before(lines[i]))
      && ((forall j :: i < j < |lines| ==> Name(lines[j], Go) != Name(lines[i], Go)) ==> TrimmedAlike(Behind(lines[i])))
  }

  lemma LowerKeepsSpace(c: char)
    ensures IsSpace(LowerChar(c), Kotlin) <==> IsSpace(c, Kotlin)
  {
  }

  /** A name that Kotlin would trim further is none of Kotlin's. */
  lemma NoKotlinName(a: string, b: string)
    requires !TrimmedAlike(a)
    ensures Lower(Trim(a, Go)) != Lower(Trim(b, Kotlin))
  {
    var g, k := Trim(a, Go), Trim(b, Kotlin);
    TrimLeftIs(b, Kotlin);
    TrimRightIs(TrimLeft(b, Kotlin), Kotlin);
    if Lower(g) == Lower(k) {
      assert |g| == |Lower(g)| == |k|;
      assert Lower(g)[0] == LowerChar(g[0]) && Lower(k)[0] == LowerChar(k[0]);
      assert Lower(g)[|g|-1] == LowerChar(g[|g|-1]) && Lower(k)[|g|-1] == LowerChar(k[|g|-1]);
      LowerKeepsSpace(g[0]);
      LowerKeepsSpace(k[0]);
      LowerKeepsSpace(g[|g|-1]);
      LowerKeepsSpace(k[|g|-1]);
    }
  }

  lemma AlikeNames(lines: seq<string>, x: string)
    requires forall i :: 0 <= i < |lines| ==> TrimmedAlike(Before(lines[i]))
    ensures LastNamed(lines, x, Go) == LastNamed(lines, x, Kotlin)
  {
    forall i | 0 <= i < |lines| ensures Name(lines[i], Go) == Name(lines[i], Kotlin) {
      TrimsAgreeIff(Before(lines[i]));
    }
  }

  lemma AlikeTables(lines: seq<string>)
    requires Coloned(lines) && AlikeLines(lines)
    ensures TableOf(map[], lines, Go) == TableOf(map[], lines, Kotlin)
  {
    var g, k := TableOf(map[], lines, Go), TableOf(map[], lines, Kotlin);
    forall x: string ensures (x in g <==> x in k) && (x in g ==> g[x] == k[x]) {
      LookedUp(map[], lines, x, Go);
      LookedUp(map[], lines, x, Kotlin);
      AlikeNames(lines, x);
      var i := LastNamed(lines, x, Go);
      if i >= 0 { TrimsAgreeIff(Behind(lines[i])); }
    }
    assert g == k;
  }

  lemma TablesAlike(lines: seq<string>)
    requires Coloned(lines) && TableOf(map[], lines, Go) == TableOf(map[], lines, Kotlin)
    ensures AlikeLines(lines)
  {
    forall i | 0 <= i < |lines| ensures TrimmedAlike(Before(lines[i])) {
      var x := Name(lines[i], Go);
      LookedUp(map[], lines, x, Go);
      LookedUp(map[], lines, x, Kotlin);
      var k := LastNamed(lines, x, Kotlin);
      assert LastNamed(lines, x, Go) >= i;
      if !TrimmedAlike(Before(lines[i])) { NoKotlinName(Before(lines[i]), Before(lines[k])); }
    }
    forall i | 0 <= i < |lines| && forall j :: i < j < |lines| ==> Name(lines[j], Go) != Name(lines[i], Go)
      ensures TrimmedAlike(Behind(lines[i]))
    {
      var x := Name(lines[i], Go);
      LookedUp(map[], lines, x, Go);
      LookedUp(map[], lines, x, Kotlin);
      AlikeNames(lines, x);
      assert LastNamed(lines, x, Go) == i;
      TrimsAgreeIff(Behind(lines[i]));
    }
  }

  /** The header lines, if both clients can read them, give both the same table. */
  predicate AlikeHead(s: string) {
    Line(s).None? || HeadLines(Line(s).value.1).None? || AlikeLines(HeadLines(Line(s).value.1).value.0)
  }

  /** Both clients make the same table of the head, or none, if and only if the header lines are alike. */
  lemma SameTablesIffAlike(s: string)
    ensures SameTables(s) <==> AlikeHead(s)
  {
    if Line(s).Some? {
      var rest := Line(s).value.1;
      FieldsAre(map[], rest, Go);
      FieldsAre(map[], rest, Kotlin);
      if HeadLines(rest).Some? {
        var lines := HeadLines(rest).value.0;
        if AlikeLines(lines) { AlikeTables(lines); }
        if SameTables(s) { TablesAlike(lines); }
      }
    }
  }

  lemma ReadHas(s: string, lang: Lang)
    requires ReadAs(s, lang).Some?
    ensures HeaderTable(s, lang).Some? && ReadAs(s, lang).value.0.headers == HeaderTable(s, lang).value.0
  {
  }

  lemma ReadAlikeOnlyIf(s: string)
    requires ReadAs(s, Go) == ReadAs(s, Kotlin) && ReadAs(s, Go).Some?
    ensures SameTables(s)
  {
    ReadHas(s, Go);
    ReadHas(s, Kotlin);
    FieldsAre(map[], Line(s).value.1, Go);
    FieldsAre(map[], Line(s).value.1, Kotlin);
  }

  lemma AnsweredAlike(code: Option<(string, string)>, fields: Option<(Table, string)>)
    requires fields.Some? ==> Trimmed(fields.value.0, Kotlin)
    ensures var g, k := Answered(code, fields, Go), Answered(code, fields, Kotlin);
            && (k.Some? ==> g == if Overlong(k.value.0.headers) then None else k)
            && (g.Some? ==> k == if Fits32(g.value.0.status) then g else None)
  {
    if fields.Some? { LengthsAgree(fields.value.0); }
  }

  lemma TableTrimmed(s: string)
    ensures HeaderTable(s, Kotlin).Some? ==> Trimmed(HeaderTable(s, Kotlin).value.0, Kotlin)
  {
    if HeaderTable(s, Kotlin).Some? { FieldsTrimmed(map[], Line(s).value.1, Kotlin); }
  }

  /** The Android client reads a response only if the head is within its limits. Then it reads what Go reads if and only
      if the header lines are alike and the body length fits 32 bits. */
  lemma KotlinReadsWhatGoReads(s: string)
    requires KotlinRead(s).Some?
    ensures Modest(s)
    ensures GoRead(s) == KotlinRead(s) <==> AlikeHead(s) && !Overlong(KotlinRead(s).value.0.headers)
  {
    SameTablesIffAlike(s);
    KotlinReadIs(s);
    if GoRead(s) == KotlinRead(s) { ReadAlikeOnlyIf(s); }
    TableTrimmed(s);
    AnsweredAlike(Code(Line(s).value.0), HeaderTable(s, Kotlin));
  }

  /** The other way round: the Android client reads what Go reads if and only if the head is within its limits, the
      status fits 32 bits, and the header lines are alike. */
  lemma GoReadsAreKotlinReads(s: string)
    requires GoRead(s).Some?
    ensures KotlinRead(s) == GoRead(s) <==> Modest(s) && Fits32(GoRead(s).value.0.status) && AlikeHead(s)
  {
    SameTablesIffAlike(s);
    KotlinReadIs(s);
    if GoRead(s) == KotlinRead(s) { ReadAlikeOnlyIf(s); }
    TableTrimmed(s);
    AnsweredAlike(Code(Line(s).value.0), HeaderTable(s, Kotlin));
  }

  // ---------------------------------------------------------------- printing

  /** A response as a server writes it: headers in order, as given. */
  datatype Message = Message(status: nat, reason: string, headers: seq<(string, string)>, body: string)

  predicate OneLine(s: string) { forall k :: 0 <= k < |s| ==> s[k] != '\n' && s[k] != '\r' }

  predicate GoodHeader(h: (string, string)) {
    OneLine(h.0) && OneLine(h.1) && forall k :: 0 <= k < |h.0| ==> h.0[k] != ':'
  }

  function NameOf(h: (string, string), lang: Lang): string { Lower(Trim(h.0, lang)) }

  /** The names lower-cased and trimmed, the values trimmed; of equal names the last counts. */
  function Collected(t: Table, headers: seq<(string, string)>, lang: Lang): Table
    decreases |headers|
  {
    if headers == [] then t
    else Collected(t[NameOf(headers[0], lang) := Trim(headers[0].1, lang)], headers[1..], lang)
  }

  function Headers(m: Message, lang: Lang): Table { Collected(map[], m.headers, lang) }

  /** Its headers announce its body. */
  predicate Announced(m: Message, lang: Lang) {
    var h := Headers(m, lang);
    if "content-length" in h then h["content-length"] == Decimal(|m.body|) else m.body == ""
  }

  predicate Printable(m: Message) {
    m.status <= INT32_MAX && OneLine(m.reason) && forall h :: h in m.headers ==> GoodHeader(h)
  }

  predicate Sound(m: Message, lang: Lang) { Printable(m) && |m.body| <= 4194304 && Announced(m, lang) }

  function HeaderLine(h: (string, string)): string { h.0 + ": " + h.1 }

  /** A line with its ending, and what follows. */
  function Ended(line: string, rest: string): string { line + "\r\n" + rest }

  function PrintHeaders(headers: seq<(string, string)>, rest: string): string
    decreases |headers|
  {
    if headers == [] then Ended("", rest) else Ended(HeaderLine(headers[0]), PrintHeaders(headers[1..], rest))
  }

  function StatusLine(m: Message): string { "RTSP/1.0 " + Decimal(m.status) + " " + m.reason }

  function Print(m: Message): string { Ended(StatusLine(m), PrintHeaders(m.headers, m.body)) }

  function Reads(m: Message, lang: Lang): Response { Response(m.status, m.reason, Headers(m, lang), m.body) }

  // ---------------------------------------------------------------- reading what was printed

  lemma LinePrinted(line: string, rest: string)
    requires OneLine(line)
    ensures Line(Ended(line, rest)) == Some((line, rest)) && Until(Ended(line, rest), '\n') == |line| + 1
  {
    var s := Ended(line, rest);
    UntilIs(s, |line| + 1, '\n');
    assert s[..|line|+1] == line + "\r" && s[|line|+2..] == rest;
    assert (line + "\r")[..|line|] == line;
    assert CutReturns(line + "\r") == CutReturns(line) == line;
  }

  /** Splitting at the first c. */
  lemma CutAt(a: string, c: char, b: string)
    requires forall k :: 0 <= k < |a| ==> a[k] != c
    ensures var s := a + [c] + b; Until(s, c) == |a| && s[..|a|] == a && s[|a|+1..] == b
  {
    UntilIs(a + [c] + b, |a|, c);
  }

  lemma HeaderLineParsed(h: (string, string), lang: Lang)
    requires GoodHeader(h)
    ensures var line := HeaderLine(h);
            && OneLine(line) && line != "" && Until(line, ':') == |h.0|
            && Name(line, lang) == NameOf(h, lang) && Field(line, lang) == Trim(h.1, lang)
  {
    var line := HeaderLine(h);
    UntilIs(line, |h.0|, ':');
    assert line[..|h.0|] == h.0 && line[|h.0|+1..] == " " + h.1;
    assert (" " + h.1)[1..] == h.1;
  }

  lemma {:induction false} FieldsPrinted(t: Table, headers: seq<(string, string)>, rest: string, lang: Lang)
    requires forall h :: h in headers ==> GoodHeader(h)
    ensures Fields(t, PrintHeaders(headers, rest), lang) == Some((Collected(t, headers, lang), rest))
    decreases |headers|
  {
    if headers == [] {
      LinePrinted("", rest);
    } else {
      var line, after := HeaderLine(headers[0]), PrintHeaders(headers[1..], rest);
      HeaderLineParsed(headers[0], lang);
      LinePrinted(line, after);
      FieldsPrinted(t[Name(line, lang) := Field(line, lang)], headers[1..], rest, lang);
    }
  }

  /** What follows a printed response is what follows its body. */
  lemma {:induction false} HeadersThen(headers: seq<(string, string)>, body: string, rest: string)
    ensures PrintHeaders(headers, body) + rest == PrintHeaders(headers, body + rest)
    decreases |headers|
  {
    if headers == [] {
      EndedThen("", body, rest);
    } else {
      EndedThen(HeaderLine(headers[0]), PrintHeaders(headers[1..], body), rest);
      HeadersThen(headers[1..], body, rest);
    }
  }

  lemma EndedThen(line: string, body: string, rest: string)
    ensures Ended(line, body) + rest == Ended(line, body + rest)
  {
    Associates(line + "\r\n", body, rest);
  }

  lemma PrintThen(m: Message, rest: string)
    ensures Print(m) + rest == Ended(StatusLine(m), PrintHeaders(m.headers, m.body + rest))
  {
    EndedThen(StatusLine(m), PrintHeaders(m.headers, m.body), rest);
    HeadersThen(m.headers, m.body, rest);
  }

  lemma CodeParsed(code: string, reason: string)
    requires forall k :: 0 <= k < |code| ==> code[k] != ' '
    ensures Code("RTSP/1.0 " + code + " " + reason) == Some((code, reason))
  {
    var rest := code + " " + reason;
    CutAt("RTSP/1.0", ' ', rest);
    assert "RTSP/1.0 " + code + " " + reason == "RTSP/1.0" + " " + rest;
    CutAt(code, ' ', reason);
  }

  lemma CutIs(s: string, c: char)
    ensures var i := Until(s, c);
            (forall k :: 0 <= k < i ==> s[k] != c) && (i < |s| ==> s == s[..i] + [c] + s[i+1..])
  {
    NoneBefore(s, c);
  }

  /** The first word. */
  lemma FirstWord(a: string, s: string)
    requires forall k :: 0 <= k < |a| ==> a[k] != ' '
    ensures a + " " <= s <==> Until(s, ' ') < |s| && s[..Until(s, ' ')] == a
  {
    if a + " " <= s { WordCut(a, s); }
    if Until(s, ' ') < |s| && s[..Until(s, ' ')] == a { WordFirst(a, s); }
  }

  lemma WordCut(a: string, s: string)
    requires a + " " <= s && forall k :: 0 <= k < |a| ==> a[k] != ' '
    ensures Until(s, ' ') == |a| < |s| && s[..|a|] == a
  {
    assert forall k :: 0 <= k <= |a| ==> s[k] == (a + " ")[k];
    UntilIs(s, |a|, ' ');
  }

  lemma WordFirst(a: string, s: string)
    requires |a| < |s| && s[..|a|] == a && s[|a|] == ' '
    ensures a + " " <= s
  {
  }

  lemma CodeThenReason(protocol: string, rest: string)
    ensures var j := Until(rest, ' ');
            (forall k :: 0 <= k < j ==> rest[k] != ' ')
            && protocol + rest == if j == |rest| then protocol + rest[..j] else protocol + rest[..j] + " " + rest[j+1..]
  {
    var j := Until(rest, ' ');
    CutIs(rest, ' ');
    if j == |rest| { assert rest[..j] == rest; } else { Glued(protocol, rest, j); }
  }

  lemma Glued(a: string, b: string, j: nat)
    requires j < |b| && b[j] == ' '
    ensures a + b == a + b[..j] + " " + b[j+1..]
  {
  }

  /** A status line is one of the protocol, a blank, the code up to the next blank, and then the reason if there is one;
      any other line is refused. */
  lemma CodeIs(s: string)
    ensures Code(s).Some? <==> "RTSP/1.0 " <= s
    ensures Code(s).Some? ==>
              var (code, reason) := Code(s).value;
              && (forall k :: 0 <= k < |code| ==> code[k] != ' ')
              && (s == "RTSP/1.0 " + code + " " + reason || (s == "RTSP/1.0 " + code && reason == ""))
  {
    FirstWord("RTSP/1.0", s);
    if Code(s).Some? {
      assert s == "RTSP/1.0 " + s[9..];
      CodeThenReason("RTSP/1.0 ", s[9..]);
    }
  }

  /** So neither client takes a response of another protocol or version. */
  lemma OtherProtocolRefused(s: string)
    requires Line(s).Some? && !("RTSP/1.0 " <= Line(s).value.0)
    ensures GoRead(s) == None && KotlinRead(s) == None
  {
    CodeIs(Line(s).value.0);
    KotlinReadIs(s);
  }

  /** Where the ranges of the two clients end. */
  lemma RangesEnd(n: nat)
    ensures ToInt(Decimal(n)) == if n <= 2147483647 then Some(n) else None
    ensures ToInt("-" + Decimal(n)) == if n <= 2147483648 then Some(0 - n) else None
    ensures Atoi(Decimal(n)) == if n <= 9223372036854775807 then (n, true) else (9223372036854775807, false)
    ensures Atoi("-" + Decimal(n)) == if n <= 9223372036854775808 then (0 - n, true) else (-9223372036854775808, false)
  {
    NumberOfDecimal(n);
    NumberOfSigned(n, '-');
  }

  lemma OneLineJoin(a: string, b: string)
    requires OneLine(a) && OneLine(b)
    ensures OneLine(a + b)
  {
  }

  lemma StatusLineIsOneLine(m: Message)
    requires OneLine(m.reason)
    ensures OneLine(StatusLine(m))
  {
    var d := Decimal(m.status);
    ValueOfDecimal(m.status);
    assert OneLine(d) by {
      forall k | 0 <= k < |d| ensures d[k] != '\n' && d[k] != '\r' {
        assert IsDigit(d[k]);
      }
    }
    OneLineJoin("RTSP/1.0 ", d);
    OneLineJoin("RTSP/1.0 " + d, " ");
    OneLineJoin("RTSP/1.0 " + d + " ", m.reason);
  }

  lemma StatusParsed(m: Message, lang: Lang)
    requires m.status <= INT32_MAX && OneLine(m.reason)
    ensures Code(StatusLine(m)) == Some((Decimal(m.status), m.reason)) && OneLine(StatusLine(m))
    ensures StatusOf(Decimal(m.status), lang) == Some(m.status)
  {
    var d := Decimal(m.status);
    ValueOfDecimal(m.status);
    NumberOfDecimal(m.status);
    forall k | 0 <= k < |d| ensures d[k] != ' ' {
      assert IsDigit(d[k]);
    }
    CodeParsed(d, m.reason);
    StatusLineIsOneLine(m);
  }

  lemma LengthPrinted(m: Message, lang: Lang)
    requires Printable(m) && Announced(m, lang) && |m.body| <= INT32_MAX
    ensures Length(Headers(m, lang), lang) == |m.body|
  {
    LengthRead(|m.body|);
  }

  lemma LengthRead(n: nat)
    requires n <= INT32_MAX
    ensures Atoi(Decimal(n)).0 == n && ToInt(Trim(Decimal(n), Kotlin)) == Some(n)
  {
    NumberOfDecimal(n);
    DecimalTight(n);
  }

  lemma DecimalTight(n: nat)
    ensures Trim(Decimal(n), Kotlin) == Decimal(n)
  {
    var d := Decimal(n);
    ValueOfDecimal(n);
    assert IsDigit(d[0]) && IsDigit(d[|d|-1]);
    assert "" + d + "" == d;
    TrimIs("", d, "", Kotlin);
  }

  /** What a head gives, whether or not it announces the body that follows. */
  function HeadThen(m: Message, rest: string, lang: Lang): Option<(Response, string)> {
    WithBody(m.status, m.reason, Headers(m, lang), Body(Length(Headers(m, lang), lang), m.body + rest))
  }

  lemma HeadReadBack(m: Message, rest: string, lang: Lang)
    requires Printable(m)
    ensures ReadAs(Print(m) + rest, lang) == HeadThen(m, rest, lang)
  {
    PrintThen(m, rest);
    StatusParsed(m, lang);
    LinePrinted(StatusLine(m), PrintHeaders(m.headers, m.body + rest));
    FieldsPrinted(map[], m.headers, m.body + rest, lang);
  }

  lemma SoundBody(m: Message, rest: string, lang: Lang)
    requires Sound(m, lang)
    ensures HeadThen(m, rest, lang) == Some((Reads(m, lang), rest))
  {
    LengthPrinted(m, lang);
    assert Body(|m.body|, m.body + rest) == Some((m.body, rest));
  }

  /** A printed response is read back whole, and nothing after it is touched. */
  lemma ResponseReadBack(m: Message, rest: string, lang: Lang)
    requires Sound(m, lang)
    ensures ReadAs(Print(m) + rest, lang) == Some((Reads(m, lang), rest))
  {
    HeadReadBack(m, rest, lang);
    SoundBody(m, rest, lang);
  }

  /** More than 4 MiB of body, announced as it should be, is refused by both. */
  lemma LongBodyRefused(m: Message, rest: string, lang: Lang)
    requires Printable(m) && Announced(m, lang) && 4194304 < |m.body| <= INT32_MAX
    ensures ReadAs(Print(m) + rest, lang) == None
  {
    HeadReadBack(m, rest, lang);
    LengthPrinted(m, lang);
  }

  /** Within the Android client's limits: its lines, carriage return included, and their number. */
  predicate Compact(m: Message) {
    |StatusLine(m)| < 8192 && |m.headers| <= 100 && ShortHeaders(m.headers)
  }

  predicate ShortHeaders(headers: seq<(string, string)>)
    decreases |headers|
  {
    headers != [] ==> |HeaderLine(headers[0])| < 8192 && ShortHeaders(headers[1..])
  }

  lemma ModestLine(n: nat, line: string, after: string)
    requires OneLine(line)
    ensures ModestHeaders(n, Ended(line, after))
            <==> |line| < MAX_LINE && (line == "" || (n < MAX_HEADERS && ModestHeaders(n + 1, after)))
  {
    LinePrinted(line, after);
  }

  lemma {:induction false} ModestPrinted(n: nat, headers: seq<(string, string)>, rest: string)
    requires n <= MAX_HEADERS && forall h :: h in headers ==> GoodHeader(h)
    ensures ModestHeaders(n, PrintHeaders(headers, rest)) <==> n + |headers| <= MAX_HEADERS && ShortHeaders(headers)
    decreases |headers|
  {
    if headers == [] {
      ModestLine(n, "", rest);
    } else {
      HeaderLineParsed(headers[0], Kotlin);
      ModestLine(n, HeaderLine(headers[0]), PrintHeaders(headers[1..], rest));
      if n < MAX_HEADERS { ModestPrinted(n + 1, headers[1..], rest); }
    }
  }

  lemma AndroidHead(m: Message, rest: string)
    requires Printable(m)
    ensures KotlinRead(Print(m) + rest) == if Compact(m) then HeadThen(m, rest, Kotlin) else None
  {
    PrintThen(m, rest);
    StatusParsed(m, Kotlin);
    LinePrinted(StatusLine(m), PrintHeaders(m.headers, m.body + rest));
    ModestPrinted(0, m.headers, m.body + rest);
    HeadReadBack(m, rest, Kotlin);
    KotlinReadIs(Print(m) + rest);
  }

  /** The Android client reads a printed response back if and only if it is within the limits. */
  lemma AndroidReadsBackIffCompact(m: Message, rest: string)
    requires Sound(m, Kotlin)
    ensures KotlinRead(Print(m) + rest) == if Compact(m) then Some((Reads(m, Kotlin), rest)) else None
  {
    AndroidHead(m, rest);
    SoundBody(m, rest, Kotlin);
  }

  // ---------------------------------------------------------------- many responses

  function ReadOne(s: string, lang: Lang): Option<(Response, string)> { if lang.Go? then GoRead(s) else KotlinRead(s) }

  function PrintAll(ms: seq<Message>): string
    decreases |ms|
  {
    if ms == [] then "" else Print(ms[0]) + PrintAll(ms[1..])
  }

  /** `n` responses, one after the other. */
  function ReadMany(n: nat, s: string, lang: Lang): Option<(seq<Response>, string)> {
    if n == 0 then Some(([], s))
    else
      match ReadOne(s, lang)
      case None => None
      case Some((r, rest)) =>
        match ReadMany(n - 1, rest, lang)
        case None => None
        case Some((rs, after)) => Some(([r] + rs, after))
  }

  function ReadsAll(ms: seq<Message>, lang: Lang): seq<Response>
    decreases |ms|
  {
    if ms == [] then [] else [Reads(ms[0], lang)] + ReadsAll(ms[1..], lang)
  }

  lemma OneReadBack(m: Message, rest: string, lang: Lang)
    requires Sound(m, lang)
    ensures ReadOne(Print(m) + rest, lang) == if Taken(m, lang) then Some((Reads(m, lang), rest)) else None
  {
    if lang.Go? { ResponseReadBack(m, rest, Go); } else { AndroidReadsBackIffCompact(m, rest); }
  }

  predicate AllSound(ms: seq<Message>, lang: Lang)
    decreases |ms|
  {
    ms != [] ==> Sound(ms[0], lang) && AllSound(ms[1..], lang)
  }

  predicate Within(ms: seq<Message>, lang: Lang)
    decreases |ms|
  {
    ms != [] ==> Taken(ms[0], lang) && Within(ms[1..], lang)
  }

  function Prepended(r: Response, more: Option<(seq<Response>, string)>): Option<(seq<Response>, string)> {
    if more.None? then None else Some(([r] + more.value.0, more.value.1))
  }

  lemma OneThenMany(n: nat, s: string, lang: Lang, one: Option<(Response, string)>)
    requires n > 0 && ReadOne(s, lang) == one
    ensures ReadMany(n, s, lang)
            == if one.None? then None else Prepended(one.value.0, ReadMany(n - 1, one.value.1, lang))
  {
  }

  predicate Taken(m: Message, lang: Lang) { lang.Go? || Compact(m) }

  lemma FirstThenMany(n: nat, s: string, m: Message, after: string, lang: Lang)
    requires n > 0 && Sound(m, lang) && s == Print(m) + after
    ensures ReadMany(n, s, lang)
            == if Taken(m, lang) then Prepended(Reads(m, lang), ReadMany(n - 1, after, lang)) else None
  {
    OneReadBack(m, after, lang);
    OneThenMany(n, s, lang, if Taken(m, lang) then Some((Reads(m, lang), after)) else None);
  }

  lemma FirstPrinted(ms: seq<Message>, rest: string)
    requires ms != []
    ensures PrintAll(ms) + rest == Print(ms[0]) + (PrintAll(ms[1..]) + rest)
  {
    Associates(Print(ms[0]), PrintAll(ms[1..]), rest);
  }

  /** What is made of them: all of them, or nothing if one is not taken. */
  function Answer(ms: seq<Message>, rest: string, lang: Lang): Option<(seq<Response>, string)> {
    if Within(ms, lang) then Some((ReadsAll(ms, lang), rest)) else None
  }

  lemma AnswerOf(ms: seq<Message>, rest: string, lang: Lang)
    requires ms != []
    ensures Answer(ms, rest, lang)
            == if Taken(ms[0], lang) then Prepended(Reads(ms[0], lang), Answer(ms[1..], rest, lang)) else None
  {
  }

  lemma OneMore(n: nat, ms: seq<Message>, rest: string, lang: Lang)
    requires n == |ms| > 0 && Sound(ms[0], lang)
    ensures ReadMany(n - 1, PrintAll(ms[1..]) + rest, lang) == Answer(ms[1..], rest, lang)
            ==> ReadMany(n, PrintAll(ms) + rest, lang) == Answer(ms, rest, lang)
  {
    FirstPrinted(ms, rest);
    FirstThenMany(n, PrintAll(ms) + rest, ms[0], PrintAll(ms[1..]) + rest, lang);
    AnswerOf(ms, rest, lang);
  }

  lemma NoneLeft(rest: string, lang: Lang)
    ensures ReadMany(0, PrintAll([]) + rest, lang) == Answer([], rest, lang)
  {
    assert PrintAll([]) + rest == rest;
  }

  /** Responses printed back to back, `n` of them, are read back in turn, each taking exactly its bytes: by Go always,
      by the Android client if and only if each is within its limits. */
  lemma {:induction false} BackToBack(n: nat, ms: seq<Message>, rest: string, lang: Lang)
    requires n == |ms| && AllSound(ms, lang)
    ensures ReadMany(n, PrintAll(ms) + rest, lang) == Answer(ms, rest, lang)
    decreases n
  {
    if n == 0 {
      NoneLeft(rest, lang);
    } else {
      BackToBack(n - 1, ms[1..], rest, lang);
      OneMore(n, ms, rest, lang);
    }
  }

  /** A header is found under its lower-cased, trimmed name unless a later one has the same. */
  lemma {:induction false} LastHeaderCounts(t: Table, headers: seq<(string, string)>, i: nat, lang: Lang)
    requires i < |headers|
    requires forall j :: i < j < |headers| ==> NameOf(headers[j], lang) != NameOf(headers[i], lang)
    ensures var name := NameOf(headers[i], lang);
            name in Collected(t, headers, lang) && Collected(t, headers, lang)[name] == Trim(headers[i].1, lang)
    decreases |headers|
  {
    var t1 := t[NameOf(headers[0], lang) := Trim(headers[0].1, lang)];
    if i > 0 {
      LastHeaderCounts(t1, headers[1..], i - 1, lang);
    } else {
      KeptUnlessNamed(t1, headers[1..], NameOf(headers[0], lang), lang);
    }
  }

  lemma {:induction false} KeptUnlessNamed(t: Table, headers: seq<(string, string)>, name: string, lang: Lang)
    requires name in t && forall j :: 0 <= j < |headers| ==> NameOf(headers[j], lang) != name
    ensures name in Collected(t, headers, lang) && Collected(t, headers, lang)[name] == t[name]
    decreases |headers|
  {
    if headers != [] {
      KeptUnlessNamed(t[NameOf(headers[0], lang) := Trim(headers[0].1, lang)], headers[1..], name, lang);
    }
  }

  // ---------------------------------------------------------------- where the two clients differ

  /** A response whose one header is the body length. */
  function Announcing(length: string, body: string): Message { Message(200, "OK", [("content-length", length)], body) }

  lemma NameKept(s: string, lang: Lang)
    requires s != "" && forall k :: 0 <= k < |s| ==> !IsSpace(s[k], lang) && LowerChar(s[k]) == s[k]
    ensures Lower(Trim(s, lang)) == s
  {
    assert Trim(s, lang) == s;
  }

  lemma AnnouncingHeaders(length: string, body: string, lang: Lang)
    ensures Headers(Announcing(length, body), lang) == map["content-length" := Trim(length, lang)]
  {
    NameKept("content-length", lang);
    var h := ("content-length", length);
    assert [h][1..] == [];
    assert Collected(map[], [h], lang) == map["content-length" := Trim(length, lang)];
  }

  lemma AnnouncingPrints(length: string, body: string)
    requires OneLine(length) && |length| < 1000
    ensures Printable(Announcing(length, body)) && Compact(Announcing(length, body))
  {
    var m := Announcing(length, body);
    assert GoodHeader(m.headers[0]);
    assert Decimal(200) == Decimal(20) + "0" && Decimal(20) == Decimal(2) + "0";
    assert m.headers[1..] == [];
  }

  lemma AnnouncedAlone(length: string, body: string, rest: string, lang: Lang)
    requires OneLine(length) && |length| < 1000
    ensures var m := Announcing(length, body); var h := map["content-length" := Trim(length, lang)];
            ReadOne(Print(m) + rest, lang) == WithBody(200, "OK", h, Body(Length(h, lang), body + rest))
  {
    var m := Announcing(length, body);
    AnnouncingHeaders(length, body, lang);
    AnnouncingPrints(length, body);
    if lang.Go? { HeadReadBack(m, rest, Go); } else { AndroidHead(m, rest); }
  }

  lemma TakesAll(h: Table, body: string, rest: string)
    requires |body| <= MAX_BODY
    ensures WithBody(200, "OK", h, Body(|body|, body + rest)) == Some((Response(200, "OK", h, body), rest))
  {
    assert (body + rest)[..|body|] == body && (body + rest)[|body|..] == rest;
  }

  lemma TakesNothing(h: Table, s: string)
    ensures WithBody(200, "OK", h, Body(0, s)) == Some((Response(200, "OK", h, ""), s))
  {
    assert s[..0] == "" && s[0..] == s;
  }

  lemma TenDigits()
    ensures |Decimal(INT32_MAX + 1)| == 10
  {
    assert |Decimal(21)| == 2 && |Decimal(2147)| == 4;
    assert |Decimal(214748)| == 6 && |Decimal(21474836)| == 8;
  }

  lemma BeyondInt(length: string)
    requires Number(length) == Some(INT32_MAX + 1) && Trim(length, Go) == length && Trim(length, Kotlin) == length
    ensures var h := map["content-length" := length]; GoLength(h) > MAX_BODY && KotlinLength(h) == 0
  {
  }

  /** A body length of 2147483648 is an error for Go; for the Android client there is no body. */
  lemma LengthBeyondInt(body: string, rest: string)
    ensures var length := Decimal(INT32_MAX + 1); var s := Print(Announcing(length, body)) + rest;
            && GoRead(s) == None
            && KotlinRead(s) == Some((Response(200, "OK", map["content-length" := length], ""), body + rest))
  {
    var length := Decimal(INT32_MAX + 1);
    TenDigits();
    ValueOfDecimal(INT32_MAX + 1);
    NumberOfDecimal(INT32_MAX + 1);
    forall k | 0 <= k < |length| ensures length[k] != '\n' && length[k] != '\r' { assert IsDigit(length[k]); }
    assert IsDigit(length[0]) && IsDigit(length[9]);
    assert Trim(length, Go) == length && Trim(length, Kotlin) == length;
    BeyondInt(length);
    AnnouncedAlone(length, body, rest, Go);
    AnnouncedAlone(length, body, rest, Kotlin);
    TakesNothing(map["content-length" := length], body + rest);
  }

  lemma Separated(n: nat)
    requires n < 10
    ensures var d := Decimal(n); var length := d + "\U{1f}";
            && OneLine(length) && Trim(length, Go) == length && Trim(length, Kotlin) == d
            && GoLength(map["content-length" := length]) == 0 && KotlinLength(map["content-length" := d]) == n
  {
    var d := Decimal(n);
    var length := d + "\U{1f}";
    ValueOfDecimal(n);
    NumberOfDecimal(n);
    assert IsDigit(d[0]) && |d| == 1 && length[..1] == d;
    assert Value(length[..|length|]) == None && length[..|length|] == length;
    assert TrimRight(length, Kotlin) == TrimRight(d, Kotlin) == d;
    assert Trim(d, Kotlin) == d;
  }

  /** A body length with a separator behind it is no number for Go, which leaves the body in the stream. */
  lemma SeparatedLength(body: string, rest: string)
    requires |body| < 10
    ensures var n := Decimal(|body|); var s := Print(Announcing(n + "\U{1f}", body)) + rest;
            && GoRead(s) == Some((Response(200, "OK", map["content-length" := n + "\U{1f}"], ""), body + rest))
            && KotlinRead(s) == Some((Response(200, "OK", map["content-length" := n], body), rest))
  {
    var length := Decimal(|body|) + "\U{1f}";
    Separated(|body|);
    AnnouncedAlone(length, body, rest, Go);
    AnnouncedAlone(length, body, rest, Kotlin);
    TakesNothing(map["content-length" := length], body + rest);
    TakesAll(map["content-length" := Decimal(|body|)], body, rest);
  }

  // ---------------------------------------------------------------- the Android reader

  lemma {:induction false} NoneStays(lines: seq<string>, n: nat)
    requires n <= |lines| && Parsed(lines[..n]) == None
    ensures Parsed(lines) == None
    decreases |lines|
  {
    if n == |lines| {
      assert lines[..n] == lines;
    } else {
      var front := lines[..|lines|-1];
      assert front[..n] == lines[..n];
      NoneStays(front, n);
    }
  }

  class AndroidReader {
    const input: string
    var pos: nat

    ghost predicate Valid() reads this { pos <= |input| }

    ghost function Rest(): string
      requires Valid()
      reads this
    {
      input[pos..]
    }

    constructor (input: string)
      ensures Valid() && Rest() == input
    {
      this.input, pos := input, 0;
    }

    /** Byte by byte; the bytes of the line are counted, its line feed is not. */
    method ReadLine() returns (line: Option<string>)
      requires Valid()
      modifies this
      ensures Valid()
      ensures match ShortLine(old(Rest()))
              case None => line == None
              case Some((l, rest)) => line == Some(l) && Rest() == rest
    {
      ghost var s, rest := Rest(), Rest();
      ghost var from := pos;
      var sb := "";
      while pos < |input|
        invariant from <= pos <= |input| && rest == input[pos..] && sb == input[from..pos] && |sb| <= MAX_LINE
        invariant Until(s, '\n') == |sb| + Until(rest, '\n')
      {
        var b := input[pos];
        pos := pos + 1;
        if b == '\n' {
          assert s[..|sb|] == sb;
          return Some(CutReturns(sb));
        }
        sb := sb + [b];
        rest := rest[1..];
        if |sb| > MAX_LINE { return None; }
      }
      line := None;
    }

    method ReadHeaderLines() returns (lines: Option<seq<string>>)
      requires Valid()
      modifies this
      ensures Valid()
      ensures match HeaderLines([], old(Rest()))
              case None => lines == None
              case Some((ls, rest)) => lines == Some(ls) && Rest() == rest
    {
      var ls: seq<string> := [];
      while true
        invariant Valid() && HeaderLines(ls, Rest()) == HeaderLines([], old(Rest()))
        decreases |Rest()|
      {
        var l := ReadLine();
        if l.None? { return None; }
        if l.value == "" { return Some(ls); }
        ls := ls + [l.value];
        if |ls| > MAX_HEADERS { return None; }
      }
    }

    method ParseHeaders(lines: seq<string>) returns (h: Option<Table>)
      ensures h == Parsed(lines)
    {
      var t: Table := map[];
      for i := 0 to |lines|
        invariant Parsed(lines[..i]) == Some(t)
      {
        var front := lines[..i+1];
        assert front[..i] == lines[..i];
        if Until(lines[i], ':') == |lines[i]| {
          NoneStays(lines, i + 1);
          return None;
        }
        t := t[Name(lines[i], Kotlin) := Field(lines[i], Kotlin)];
      }
      assert lines[..|lines|] == lines;
      h := Some(t);
    }

    /** The stream hands the body over in pieces of any size. */
    method ReadBody(n: int) returns (body: Option<string>)
      requires Valid()
      modifies this
      ensures Valid()
      ensures match Body(n, old(Rest()))
              case None => body == None
              case Some((b, rest)) => body == Some(b) && Rest() == rest
    {
      if n < 0 || n > MAX_BODY { return None; }
      ghost var from := pos;
      ghost var s := Rest();
      var buffer := new char[n](_ => '\0');
      var off := 0;
      while off < n
        invariant 0 <= off <= n && pos == from + off <= |input|
        invariant buffer[..off] == s[..off]
      {
        if pos == |input| { return None; }
        var r: int :| 1 <= r <= n - off && pos + r <= |input|;
        forall k | 0 <= k < r { buffer[off+k] := input[pos+k]; }
        off, pos := off + r, pos + r;
      }
      assert s[n..] == input[from+n..] && buffer[..] == buffer[..off];
      body := Some(buffer[..]);
    }

    method ReadResponse() returns (r: Option<Response>)
      requires Valid()
      modifies this
      ensures Valid()
      ensures match KotlinRead(old(Rest()))
              case None => r == None
              case Some((response, rest)) => r == Some(response) && Rest() == rest
    {
      var first := ReadLine();
      if first.None? { return None; }
      var lines := ReadHeaderLines();
      if lines.None? { return None; }
      var code := Code(first.value);
      if code.None? { return None; }
      var status := ToInt(code.value.0);
      if status.None? { return None; }
      var h := ParseHeaders(lines.value);
      if h.None? { return None; }
      var body := ReadBody(KotlinLength(h.value));
      if body.None? { return None; }
      r := Some(Response(status.value, code.value.1, h.value, body.value));
    }
  }
}
