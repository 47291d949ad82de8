/**
 xml_decode of the panel firmware (scanner.c): the five predefined entities of XML 1.0 (section 4.6) in an
 attribute value, into a buffer of fixed size. A char stands for a byte.
 */
module XmlAttribute {
  import opened Options
  import opened Text

  // ---------------------------------------------------------------- specification

  const ENTITIES := 5

  /** The table of entities: their names and what they stand for. */
  function Name(k: nat): (name: string)
    requires k < ENTITIES
    ensures |name| >= 4
  {
    if k == 0 then "&amp;" else if k == 1 then "&lt;" else if k == 2 then "&gt;"
    else if k == 3 then "&quot;" else "&apos;"
  }

  function Stands(k: nat): (c: char)
    requires k < ENTITIES
    ensures Printable(c)
  {
    if k == 0 then '&' else if k == 1 then '<' else if k == 2 then '>' else if k == 3 then '"' else '\''
  }

  function Plain(c: char): char { if Printable(c) then c else ' ' }

  /** The character to write for the start of s, and how much of s it stands for: the first entity from entry k
      of the table on whose name is there, else the character itself. */
  function Next(s: string, k: nat): (r: (char, nat))
    requires s != "" && k <= ENTITIES
    ensures 1 <= r.1 <= |s|
    decreases ENTITIES - k
  {
    if k == ENTITIES then (Plain(s[0]), 1)
    else if Name(k) <= s then (Stands(k), |Name(k)|)
    else Next(s, k + 1)
  }

  /** At most `room` characters of the text. */
  function Decoded(s: string, room: nat): string {
    if s == "" || room == 0 then "" else [Next(s, 0).0] + Decoded(s[Next(s, 0).1..], room - 1)
  }

  /** Drops spaces at the front. */
  function CutFront(s: string): string { if s != "" && s[0] == ' ' then CutFront(s[1..]) else s }

  function Value(s: string, len: nat): string
    requires len >= 1
  {
    CutFront(CutSpaces(Decoded(s, len - 1)))
  }

  /** The five entities, any printable character, and a space for everything else. */
  lemma DecodedFirst(s: string, room: nat)
    requires room > 0
    ensures Decoded("&amp;" + s, room) == "&" + Decoded(s, room - 1)
    ensures Decoded("&lt;" + s, room) == "<" + Decoded(s, room - 1)
    ensures Decoded("&gt;" + s, room) == ">" + Decoded(s, room - 1)
    ensures Decoded("&quot;" + s, room) == "\"" + Decoded(s, room - 1)
    ensures Decoded("&apos;" + s, room) == "'" + Decoded(s, room - 1)
  {
    EntityFirst(s, room, 0, "&amp;", '&');
    EntityFirst(s, room, 1, "&lt;", '<');
    EntityFirst(s, room, 2, "&gt;", '>');
    EntityFirst(s, room, 3, "&quot;", '"');
    EntityFirst(s, room, 4, "&apos;", '\'');
  }

  lemma EntityFirst(s: string, room: nat, k: nat, name: string, c: char)
    requires room > 0 && k < ENTITIES && name == Name(k) && c == Stands(k)
    ensures Decoded(name + s, room) == [c] + Decoded(s, room - 1)
  {
    NameNext(name + s, 0, k);
    assert (name + s)[|name|..] == s;
  }

  lemma OtherFirst(c: char, s: string, room: nat)
    requires c != '&' && room > 0
    ensures Decoded([c] + s, room) == [if ' ' <= c <= '~' then c else ' '] + Decoded(s, room - 1)
  {
    NoEntity([c] + s, 0);
    assert ([c] + s)[1..] == s;
  }

  // ---------------------------------------------------------------- the method

  predicate AllPrintable(s: string) { forall k :: 0 <= k < |s| ==> Printable(s[k]) }

  lemma {:induction false} NextIsPrintable(s: string, k: nat)
    requires s != "" && k <= ENTITIES
    ensures Printable(Next(s, k).0)
    decreases ENTITIES - k
  {
    if k < ENTITIES { NextIsPrintable(s, k + 1); }
  }

  /** Nothing the decoder writes is a terminator. */
  lemma {:induction false} DecodedIsPrintable(s: string, room: nat)
    ensures AllPrintable(Decoded(s, room)) && |Decoded(s, room)| <= room
  {
    if s != "" && room > 0 {
      NextIsPrintable(s, 0);
      DecodedIsPrintable(s[Next(s, 0).1..], room - 1);
    }
  }

  lemma {:induction false} NoEntity(s: string, k: nat)
    requires s != "" && s[0] != '&' && k <= ENTITIES
    ensures Next(s, k) == (Plain(s[0]), 1)
    decreases ENTITIES - k
  {
    if k < ENTITIES {
      assert Name(k)[0] == '&';
      NoEntity(s, k + 1);
    }
  }

  /** The search through the table at an ampersand; any other character stands for itself. */
  method Look(s: string) returns (c: char, n: nat)
    requires s != ""
    ensures (c, n) == Next(s, 0)
  {
    if s[0] == '&' {
      var k := 0;
      while k < ENTITIES
        invariant k <= ENTITIES && Next(s, k) == Next(s, 0)
      {
        if Name(k) <= s { return Stands(k), |Name(k)|; }
        k := k + 1;
      }
    } else {
      NoEntity(s, 0);
    }
    c, n := Plain(s[0]), 1;
  }

  lemma DecodedStep(done: string, s: string, room: nat, c: char, n: nat)
    requires s != "" && room > 0 && (c, n) == Next(s, 0)
    ensures done + Decoded(s, room) == (done + [c]) + Decoded(s[n..], room - 1)
  {
  }

  method Fill(src: string, dst: array<char>, len: nat) returns (o: nat)
    requires 1 <= len <= dst.Length
    modifies dst
    ensures o < len && dst[..o] == Decoded(src, len - 1) && dst[o] == '\0' && dst[len..] == old(dst[len..])
  {
    o := 0;
    var i := 0;
    ghost var all, done, rest := Decoded(src, len - 1), "", src;
    while i < |src| && o + 1 < len
      invariant i <= |src| && o < len && done == dst[..o] && rest == src[i..]
      invariant all == done + Decoded(rest, len - 1 - o) && dst[len..] == old(dst[len..])
      decreases |src| - i
    {
      var c, n := Look(src[i..]);
      DecodedStep(done, rest, len - 1 - o, c, n);
      dst[o] := c;
      done, rest := done + [c], rest[n..];
      o, i := o + 1, i + n;
    }
    dst[o] := '\0';
  }

  method TrimEnd(dst: array<char>, len: nat) returns (o: nat)
    requires len < dst.Length && dst[len] == '\0'
    modifies dst
    ensures o <= len && dst[..o] == CutSpaces(old(dst[..len])) && dst[o] == '\0' && dst[len..] == old(dst[len..])
  {
    o := len;
    while o > 0 && dst[o-1] == ' '
      invariant o <= len && dst[o] == '\0' && dst[len..] == old(dst[len..])
      invariant dst[..o] == old(dst[..len])[..o] && CutSpaces(dst[..o]) == CutSpaces(old(dst[..len]))
    {
      assert dst[..o][..o-1] == dst[..o-1];
      o := o - 1;
      dst[o] := '\0';
    }
  }

  /** The text of o characters and its terminator are moved to the front over its leading spaces. */
  method TrimFront(dst: array<char>, o: nat)
    requires o < dst.Length && dst[o] == '\0'
    modifies dst
    ensures var v := CutFront(old(dst[..o])); |v| <= o && dst[..|v|] == v && dst[|v|] == '\0'
    ensures dst[o+1..] == old(dst[o+1..])
  {
    var lead := 0;
    while dst[lead] == ' '
      invariant lead <= o && CutFront(dst[lead..o]) == CutFront(dst[..o])
      decreases o - lead
    {
      assert dst[lead..o][1..] == dst[lead+1..o];
      lead := lead + 1;
    }
    forall k | 0 <= k <= o - lead { dst[k] := dst[lead+k]; }
    assert dst[..o-lead] == old(dst[lead..o]);
  }

  /** Decodes src into the first len bytes of dst, which end up holding the value and its terminator; nothing
      beyond them is written. */
  method XmlDecode(src: string, dst: array<char>, len: nat)
    requires 1 <= len <= dst.Length
    modifies dst
    ensures var v := Value(src, len); |v| < len && dst[..|v|] == v && dst[|v|] == '\0'
    ensures dst[len..] == old(dst[len..])
  {
    var o := Fill(src, dst, len);
    ghost var was := dst[len..];
    var n := TrimEnd(dst, o);
    assert dst[len..] == was by { assert dst[o..][len-o..] == dst[len..]; }
    TrimFront(dst, n);
    assert dst[len..] == was by { assert dst[n+1..][len-n-1..] == dst[len..]; }
  }

  // ---------------------------------------------------------------- escaping

  /** How much of e says c: an entity for c from entry k on, or c itself unless it is an ampersand; 0: none. */
  function Written(e: string, c: char, k: nat): (n: nat)
    requires e != "" && k <= ENTITIES
    ensures n <= |e|
    decreases ENTITIES - k
  {
    if k == ENTITIES then (if e[0] == c && c != '&' then 1 else 0)
    else if Stands(k) == c && Name(k) <= e then |Name(k)|
    else Written(e, c, k + 1)
  }

  /** e is a way to write t: ampersands must be escaped, the other four may be. */
  predicate Escapes(e: string, t: string)
    decreases |t|
  {
    if t == "" then e == ""
    else e != "" && Written(e, t[0], 0) > 0 && Escapes(e[Written(e, t[0], 0)..], t[1..])
  }

  /** The way in which all five are escaped. */
  function Reference(c: char, k: nat): (r: string)
    requires k <= ENTITIES
    ensures r != ""
    decreases ENTITIES - k
  {
    if k == ENTITIES then [c] else if Stands(k) == c then Name(k) else Reference(c, k + 1)
  }

  function Escaped(t: string): string { if t == "" then "" else Reference(t[0], 0) + Escaped(t[1..]) }

  function PlainAll(t: string): string { seq(|t|, i requires 0 <= i < |t| => Plain(t[i])) }

  /** As much of the text as there is room for. */
  function Kept(t: string, room: nat): string { if |t| <= room then PlainAll(t) else PlainAll(t)[..room] }

  /** No entity's name is the beginning of another's. */
  lemma NamesDiffer(j: nat, k: nat, e: string)
    requires j < k < ENTITIES && Name(k) <= e
    ensures !(Name(j) <= e)
  {
    assert e[1] == Name(k)[1] && e[2] == Name(k)[2];
  }

  lemma {:induction false} NameNext(e: string, j: nat, k: nat)
    requires j <= k < ENTITIES && Name(k) <= e && e != ""
    ensures Next(e, j) == (Stands(k), |Name(k)|)
    decreases k - j
  {
    if j < k {
      NamesDiffer(j, k, e);
      NameNext(e, j + 1, k);
    }
  }

  /** One character, however written, is decoded to itself or, if not printable, to a space. */
  lemma {:induction false} WrittenNext(e: string, c: char, k: nat)
    requires e != "" && k <= ENTITIES && Written(e, c, k) > 0
    ensures Next(e, 0) == (Plain(c), Written(e, c, k))
    decreases ENTITIES - k
  {
    if k == ENTITIES {
      NoEntity(e, 0);
    } else if Stands(k) == c && Name(k) <= e {
      NameNext(e, 0, k);
    } else {
      WrittenNext(e, c, k + 1);
    }
  }

  /** Decoding undoes escaping, as far as the buffer reaches. */
  lemma {:induction false} DecodeEscaped(e: string, t: string, room: nat)
    requires Escapes(e, t)
    ensures Decoded(e, room) == Kept(t, room)
    decreases |t|
  {
    if t != "" && room > 0 {
      WrittenNext(e, t[0], 0);
      DecodeEscaped(e[Written(e, t[0], 0)..], t[1..], room - 1);
      KeptNext(t, room);
    }
  }

  lemma KeptNext(t: string, room: nat)
    requires t != "" && room > 0
    ensures Kept(t, room) == [Plain(t[0])] + Kept(t[1..], room - 1)
  {
    assert PlainAll(t) == [Plain(t[0])] + PlainAll(t[1..]);
  }

  lemma {:induction false} ReferenceWritten(c: char, rest: string, k: nat)
    requires k <= ENTITIES && (k > 0 ==> c != '&')
    ensures Written(Reference(c, k) + rest, c, k) == |Reference(c, k)|
    decreases ENTITIES - k
  {
    var e := Reference(c, k) + rest;
    if k < ENTITIES {
      if Stands(k) == c {
        assert Name(k) <= e;
      } else {
        ReferenceWritten(c, rest, k + 1);
      }
    }
  }

  lemma {:induction false} EscapedEscapes(t: string)
    ensures Escapes(Escaped(t), t)
  {
    if t != "" {
      var r, rest := Reference(t[0], 0), Escaped(t[1..]);
      ReferenceWritten(t[0], rest, 0);
      assert (r + rest)[|r|..] == rest;
      EscapedEscapes(t[1..]);
    }
  }

  lemma {:induction false} CutFrontIs(s: string)
    ensures |CutFront(s)| <= |s| && (|CutFront(s)| == |s| <==> s == "" || s[0] != ' ')
    ensures s == "" || s[0] != ' ' ==> CutFront(s) == s
  {
    if s != "" && s[0] == ' ' { CutFrontIs(s[1..]); }
  }

  lemma OuterSpacesOnly(t: string, room: nat)
    ensures CutFront(CutSpaces(Kept(t, room))) == t
            <==> |t| <= room && AllPrintable(t) && (t != "" ==> t[0] != ' ' && t[|t|-1] != ' ')
  {
    var kept := Kept(t, room);
    CutSpacesIs(kept);
    CutFrontIs(CutSpaces(kept));
    if AllPrintable(t) && |t| <= room { assert kept == t; }
    if CutFront(CutSpaces(kept)) == t {
      assert kept == t;
      forall k | 0 <= k < |t| ensures Printable(t[k]) {
        assert t[k] == PlainAll(t)[k];
      }
    }
  }

  lemma ValueOf(e: string, t: string, len: nat)
    requires len >= 1 && Decoded(e, len - 1) == Kept(t, len - 1)
    ensures Value(e, len) == t
            <==> |t| < len && AllPrintable(t) && (t != "" ==> t[0] != ' ' && t[|t|-1] != ' ')
  {
    OuterSpacesOnly(t, len - 1);
  }

  /** An escaped value comes back as it was if and only if it fits, is printable, and has no outer spaces. */
  lemma AttributeBackIff(e: string, t: string, len: nat)
    requires len >= 1 && Escapes(e, t)
    ensures Value(e, len) == t
            <==> |t| < len && AllPrintable(t) && (t != "" ==> t[0] != ' ' && t[|t|-1] != ' ')
  {
    assert Decoded(e, len - 1) == Kept(t, len - 1) by { DecodeEscaped(e, t, len - 1); }
    ValueOf(e, t, len);
  }
}
