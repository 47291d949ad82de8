/**
 RTP datagrams (RFC 3550 section 5.1) as the three clients read them: rtpPayload in protocol.go, Rtp.parse in
 Media.kt, and the slicing of run_session in the firmware's audio.c.
 */
module Rtp {
  import opened Options

  type Byte = b: int | 0 <= b < 256

  type Datagram = seq<Byte>

  // ---------------------------------------------------------------- header bytes

  // The masks and shifts of the sources are written as arithmetic on bytes; HeaderBits, PaddingBit, ExtensionBit and
  // JoinedBytes show on machine words that this is the same.

  function Version(b: Byte): int { b / 64 }
  predicate Padded(b: Byte) { b / 32 % 2 == 1 }
  predicate Extended(b: Byte) { b / 16 % 2 == 1 }
  function SourceCount(b: Byte): nat { b % 16 }
  predicate Marked(b: Byte) { b / 128 == 1 }
  function PayloadType(b: Byte): nat { b % 128 }

  lemma HeaderBits(b: bv8)
    ensures Version(b as int) == (b >> 6) as int
    ensures SourceCount(b as int) == (b & 0x0f) as int
    ensures PayloadType(b as int) == (b & 0x7f) as int
  {
  }

  lemma PaddingBit(b: bv8)
    ensures Padded(b as int) <==> b & 0x20 != 0
  {
  }

  lemma ExtensionBit(b: bv8)
    ensures Extended(b as int) <==> b & 0x10 != 0
  {
  }

  lemma JoinedBytes(x: bv8, y: bv8)
    ensures (((x as bv16) << 8) | (y as bv16)) as int == x as int * 256 + y as int
  {
  }

  function U16(d: Datagram, i: nat): nat
    requires i + 2 <= |d|
  {
    (d[i] as int) * 0x100 + d[i+1] as int
  }

  function U32(d: Datagram, i: nat): nat
    requires i + 4 <= |d|
  {
    U16(d, i) * 0x1_0000 + U16(d, i + 2)
  }

  // ---------------------------------------------------------------- the three parsers

  datatype GoResult =
    | Accepted(payload: Datagram, seqno: nat, timestamp: nat, ssrc: nat, pt: nat)
    | Rejected

  /** rtpPayload. */
  function GoParse(d: Datagram): GoResult {
    if |d| < 12 || Version(d[0]) != 2 then Rejected
    else
      var off := 12 + 4 * SourceCount(d[0]);
      if |d| < off || (Extended(d[0]) && |d| < off + 4) then Rejected
      else GoBody(d, if Extended(d[0]) then off + 4 + 4 * U16(d, off + 2) else off)
  }

  function GoBody(d: Datagram, off: nat): GoResult
    requires |d| >= 12
  {
    if |d| < off then Rejected
    else if Padded(d[0]) && (d[|d|-1] == 0 || d[|d|-1] > |d| - off) then Rejected
    else
      var end := if Padded(d[0]) then |d| - d[|d|-1] else |d|;
      Accepted(d[off..end], U16(d, 2), U32(d, 4), U32(d, 8), PayloadType(d[1]))
  }

  datatype KotlinPacket = KotlinPacket(
    payloadOffset: int, payloadLength: int, sequence: int, timestamp: int, ssrc: int, payloadType: int)

  function Word(d: Datagram, i: nat): int
    requires i + 4 <= |d|
  {
    (d[i] as int) * 0x100_0000 + (d[i+1] as int) * 0x1_0000 + (d[i+2] as int) * 0x100 + d[i+3] as int
  }

  lemma WordIsU32(go: Datagram, d: Datagram, i: nat)
    requires i + 4 <= |go| && go <= d
    ensures U32(go, i) == Word(d, i)
  {
  }

  /** Rtp.parse: only the first `length` bytes of the buffer are the datagram. */
  function KotlinParse(d: Datagram, length: nat): Option<KotlinPacket>
    requires length <= |d|
  {
    if length < 12 then None
    else if Version(d[0]) != 2 then None
    else
      var off0 := 12 + 4 * SourceCount(d[0]);
      if length < off0 then None
      else if Extended(d[0]) && length < off0 + 4 then None
      else
        var off := if Extended(d[0]) then off0 + 4 + 4 * ((d[off0+2] as int) * 256 + d[off0+3] as int) else off0;
        if Extended(d[0]) && length < off then None
        else
          var pad := d[length-1];
          if Padded(d[0]) && (pad == 0 || pad > length - off) then None
          else
            var end := if Padded(d[0]) then length - pad else length;
            Some(KotlinPacket(off, end - off, (d[2] as int) * 256 + d[3] as int,
                              Word(d, 4),
                              Word(d, 8), PayloadType(d[1])))
  }

  /** Slice and sequence number that run_session takes from the first `n` bytes of `pkt`; None: ignored. */
  function PanelSlice(pkt: Datagram, n: nat): Option<(int, int, nat)>
    requires n <= |pkt|
  {
    if n < 12 || Version(pkt[0]) != 2 then None
    else
      var off0 := 12 + SourceCount(pkt[0]) * 4;
      var off := if Extended(pkt[0]) && n >= off0 + 4 then off0 + 4 + 4 * U16(pkt, off0 + 2) else off0;
      var end := if Padded(pkt[0]) then n - pkt[n-1] else n;
      if PayloadType(pkt[1]) == 0 && end > off then Some((off, end, U16(pkt, 2))) else None
  }

  lemma AcceptedAlike(d: Datagram, length: nat)
    requires length <= |d|
    ensures KotlinParse(d, length).Some? <==> GoParse(d[..length]).Accepted?
  {
  }

  lemma FieldsAlike(d: Datagram, length: nat)
    requires length <= |d| && KotlinParse(d, length).Some? && GoParse(d[..length]).Accepted?
    ensures var k, go := KotlinParse(d, length).value, GoParse(d[..length]);
            k.sequence == go.seqno && k.timestamp == go.timestamp && k.ssrc == go.ssrc && k.payloadType == go.pt
  {
    WordIsU32(d[..length], d, 4);
    WordIsU32(d[..length], d, 8);
  }

  lemma PayloadAlike(d: Datagram, length: nat)
    requires length <= |d| && KotlinParse(d, length).Some? && GoParse(d[..length]).Accepted?
    ensures var k := KotlinParse(d, length).value;
            && 0 <= k.payloadOffset <= k.payloadOffset + k.payloadLength <= length
            && d[k.payloadOffset..k.payloadOffset+k.payloadLength] == GoParse(d[..length]).payload
  {
    var k, go := KotlinParse(d, length).value, d[..length];
    assert go[k.payloadOffset..k.payloadOffset+k.payloadLength] == d[k.payloadOffset..k.payloadOffset+k.payloadLength];
  }

  /** On every input the Kotlin parser accepts what the Go parser accepts, with the same fields and the same
      payload, whatever follows the datagram in the buffer. */
  lemma ParsersAgree(d: Datagram, length: nat)
    requires length <= |d|
    ensures match (KotlinParse(d, length), GoParse(d[..length]))
            case (None, Rejected) => true
            case (Some(k), Accepted(payload, seqno, timestamp, ssrc, pt)) =>
              && 0 <= k.payloadOffset <= k.payloadOffset + k.payloadLength <= length
              && d[k.payloadOffset..k.payloadOffset+k.payloadLength] == payload
              && k.sequence == seqno && k.timestamp == timestamp && k.ssrc == ssrc && k.payloadType == pt
            case _ => false
  {
    AcceptedAlike(d, length);
    if KotlinParse(d, length).Some? {
      FieldsAlike(d, length);
      PayloadAlike(d, length);
    }
  }

  // ---------------------------------------------------------------- serialisation

  /** An RTP packet. `csrc` holds four bytes per contributing source; an extension is its profile word and
      its body of whole words; `pad` is the filler before the padding count. */
  datatype Frame = Frame(
    marker: bool, pt: nat, seqno: nat, timestamp: nat, ssrc: nat, csrc: Datagram,
    ext: Option<(nat, Datagram)>, payload: Datagram, pad: Option<Datagram>)

  predicate Sound(f: Frame) {
    && f.pt < 128 && f.seqno < 0x1_0000 && f.timestamp < 0x1_0000_0000 && f.ssrc < 0x1_0000_0000
    && |f.csrc| % 4 == 0 && |f.csrc| <= 60
    && (f.ext.Some? ==> f.ext.value.0 < 0x1_0000 && |f.ext.value.1| % 4 == 0 && |f.ext.value.1| / 4 < 0x1_0000)
    && (f.pad.Some? ==> |f.pad.value| < 255)
  }

  function Put16(v: nat): Datagram
    requires v < 0x1_0000
  {
    [v / 0x100, v % 0x100]
  }

  function Put32(v: nat): Datagram
    requires v < 0x1_0000_0000
  {
    Put16(v / 0x1_0000) + Put16(v % 0x1_0000)
  }

  function Byte0(padded: bool, extended: bool, cc: nat): Byte
    requires cc < 16
  {
    128 + (if padded then 32 else 0) + (if extended then 16 else 0) + cc
  }

  function Byte1(marker: bool, pt: nat): Byte
    requires pt < 128
  {
    (if marker then 128 else 0) + pt
  }

  /** The fixed 12 bytes. */
  function Header(f: Frame): (h: Datagram)
    requires Sound(f)
    ensures |h| == 12
  {
    [Byte0(f.pad.Some?, f.ext.Some?, |f.csrc| / 4), Byte1(f.marker, f.pt)]
    + Put16(f.seqno) + Put32(f.timestamp) + Put32(f.ssrc)
  }

  function ExtensionBytes(ext: Option<(nat, Datagram)>): Datagram
    requires ext.Some? ==> ext.value.0 < 0x1_0000 && |ext.value.1| / 4 < 0x1_0000
  {
    if ext.None? then [] else Put16(ext.value.0) + Put16(|ext.value.1| / 4) + ext.value.1
  }

  function PadBytes(pad: Option<Datagram>): Datagram
    requires pad.Some? ==> |pad.value| < 255
  {
    if pad.None? then [] else pad.value + [|pad.value| + 1]
  }

  function Serialise(f: Frame): Datagram
    requires Sound(f)
  {
    Header(f) + f.csrc + ExtensionBytes(f.ext) + f.payload + PadBytes(f.pad)
  }

  // ---------------------------------------------------------------- parsing a serialised packet

  lemma Within<T>(s: seq<T>, a: nat, b: nat, i: nat, j: nat)
    requires a <= b <= |s| && i <= j <= b - a
    ensures s[a..b][i..j] == s[a+i..a+j]
  {
    var l, r := s[a..b][i..j], s[a+i..a+j];
    assert |l| == |r|;
    forall k | 0 <= k < |l| ensures l[k] == r[k] {
      assert l[k] == s[a..b][i+k];
    }
  }

  lemma Byte0Reads(padded: bool, extended: bool, cc: nat)
    requires cc < 16
    ensures var b := Byte0(padded, extended, cc);
            Version(b) == 2 && SourceCount(b) == cc && (Extended(b) <==> extended) && (Padded(b) <==> padded)
  {
  }

  lemma Read16(d: Datagram, i: nat, v: nat)
    requires i + 2 <= |d| && v < 0x1_0000 && d[i..i+2] == Put16(v)
    ensures U16(d, i) == v
  {
    assert d[i] == d[i..i+2][0] && d[i+1] == d[i..i+2][1];
  }

  lemma Read32(d: Datagram, i: nat, v: nat)
    requires i + 4 <= |d| && v < 0x1_0000_0000 && d[i..i+4] == Put32(v)
    ensures U32(d, i) == v
  {
    assert d[i..i+2] == d[i..i+4][..2] && d[i+2..i+4] == d[i..i+4][2..];
    Read16(d, i, v / 0x1_0000);
    Read16(d, i + 2, v % 0x1_0000);
  }

  /** What the fixed header says when read back. */
  lemma HeaderReads(f: Frame, d: Datagram)
    requires Sound(f) && 12 <= |d| && d[..12] == Header(f)
    ensures d[0] == Byte0(f.pad.Some?, f.ext.Some?, |f.csrc| / 4) && d[1] == Byte1(f.marker, f.pt)
    ensures U16(d, 2) == f.seqno && U32(d, 4) == f.timestamp && U32(d, 8) == f.ssrc
  {
    var h := Header(f);
    assert d[0] == h[0] && d[1] == h[1];
    assert d[2..4] == h[2..4] == Put16(f.seqno);
    assert d[4..8] == h[4..8] == Put32(f.timestamp);
    assert d[8..12] == h[8..12] == Put32(f.ssrc);
    Read16(d, 2, f.seqno);
    Read32(d, 4, f.timestamp);
    Read32(d, 8, f.ssrc);
  }

  /** Where the payload of a serialised packet starts, and how much follows it. */
  function PayloadStart(f: Frame): nat { 12 + |f.csrc| + (if f.ext.None? then 0 else 4 + |f.ext.value.1|) }

  function PadLength(f: Frame): nat { if f.pad.None? then 0 else |f.pad.value| + 1 }

  lemma Layout(f: Frame)
    requires Sound(f)
    ensures var d := Serialise(f); var s := PayloadStart(f);
            && |d| == s + |f.payload| + PadLength(f)
            && d[..12] == Header(f) && d[12..12+|f.csrc|] == f.csrc
            && d[12+|f.csrc|..s] == ExtensionBytes(f.ext)
            && d[s..|d|-PadLength(f)] == f.payload
            && d[|d|-PadLength(f)..] == PadBytes(f.pad)
  {
    var a, b, c := Header(f), f.csrc, ExtensionBytes(f.ext);
    assert Serialise(f) == a + (b + (c + (f.payload + PadBytes(f.pad))));
  }

  /** The extension's length word, read where the header says it is. */
  lemma ExtensionReads(f: Frame, d: Datagram)
    requires Sound(f) && f.ext.Some? && PayloadStart(f) <= |d|
    requires d[12+|f.csrc|..PayloadStart(f)] == ExtensionBytes(f.ext)
    ensures U16(d, 12 + |f.csrc| + 2) == |f.ext.value.1| / 4
  {
    var o, e := 12 + |f.csrc|, ExtensionBytes(f.ext);
    assert |e| == 4 + |f.ext.value.1| && e[2..4] == Put16(|f.ext.value.1| / 4);
    Within(d, o, PayloadStart(f), 2, 4);
    Read16(d, o + 2, |f.ext.value.1| / 4);
  }

  /** Parse after serialise: every packet with 0 to 15 sources, any extension and any legal padding comes back
      with the same fields and payload. */
  lemma ParseSerialised(f: Frame)
    requires Sound(f)
    ensures GoParse(Serialise(f)) == Accepted(f.payload, f.seqno, f.timestamp, f.ssrc, f.pt)
  {
    var d := Serialise(f);
    Layout(f);
    HeaderReads(f, d);
    Byte0Reads(f.pad.Some?, f.ext.Some?, |f.csrc| / 4);
    if f.ext.Some? { ExtensionReads(f, d); }
    if f.pad.Some? { assert d[|d|-1] == d[|d|-PadLength(f)..][PadLength(f)-1] == |f.pad.value| + 1; }
    assert GoParse(d) == GoBody(d, PayloadStart(f));
  }

  // ---------------------------------------------------------------- taking a datagram apart

  /** Reads every field back out of an accepted datagram. */
  function Dissect(d: Datagram): Frame
    requires GoParse(d).Accepted?
  {
    var g := GoParse(d);
    var off0 := 12 + 4 * SourceCount(d[0]);
    var off := if Extended(d[0]) then off0 + 4 + 4 * U16(d, off0 + 2) else off0;
    var end := if Padded(d[0]) then |d| - d[|d|-1] else |d|;
    Frame(Marked(d[1]), g.pt, g.seqno, g.timestamp, g.ssrc, d[12..off0],
          if Extended(d[0]) then Some((U16(d, off0), d[off0+4..off])) else None, g.payload,
          if Padded(d[0]) then Some(d[end..|d|-1]) else None)
  }

  lemma Byte0Unique(b: Byte)
    requires Version(b) == 2
    ensures b == Byte0(Padded(b), Extended(b), SourceCount(b))
  {
  }

  lemma Unread16(d: Datagram, i: nat)
    requires i + 2 <= |d|
    ensures U16(d, i) < 0x1_0000 && Put16(U16(d, i)) == d[i..i+2]
  {
  }

  lemma Unread32(d: Datagram, i: nat)
    requires i + 4 <= |d|
    ensures U32(d, i) < 0x1_0000_0000 && Put32(U32(d, i)) == d[i..i+4]
  {
    Unread16(d, i);
    Unread16(d, i + 2);
    assert d[i..i+4] == d[i..i+2] + d[i+2..i+4];
  }

  lemma DissectSound(d: Datagram)
    requires GoParse(d).Accepted?
    ensures Sound(Dissect(d))
  {
    Unread16(d, 2);
    Unread32(d, 4);
    Unread32(d, 8);
    var off0 := 12 + 4 * SourceCount(d[0]);
    if Extended(d[0]) { Unread16(d, off0); Unread16(d, off0 + 2); }
  }

  lemma HeaderUnread(d: Datagram)
    requires GoParse(d).Accepted?
    ensures Sound(Dissect(d)) && Header(Dissect(d)) == d[..12]
  {
    DissectSound(d);
    Byte0Unique(d[0]);
    Unread16(d, 2);
    Unread32(d, 4);
    Unread32(d, 8);
    assert d[..12] == [d[0], d[1]] + d[2..4] + d[4..8] + d[8..12];
  }

  /** The extension of an accepted datagram, written again. */
  lemma ExtensionUnread(d: Datagram)
    requires GoParse(d).Accepted?
    ensures var f := Dissect(d);
            && Sound(f) && 12 + |f.csrc| <= PayloadStart(f) <= |d|
            && ExtensionBytes(f.ext) == d[12+|f.csrc|..PayloadStart(f)]
  {
    HeaderUnread(d);
    var f := Dissect(d);
    var off0, s := 12 + |f.csrc|, PayloadStart(f);
    if Extended(d[0]) {
      Unread16(d, off0);
      Unread16(d, off0 + 2);
      assert d[off0..s] == d[off0..off0+2] + d[off0+2..off0+4] + d[off0+4..s];
    }
  }

  /** The padding and the payload of an accepted datagram, written again. */
  lemma TailUnread(d: Datagram)
    requires GoParse(d).Accepted?
    ensures var f := Dissect(d);
            && Sound(f) && PayloadStart(f) + PadLength(f) <= |d|
            && f.payload + PadBytes(f.pad) == d[PayloadStart(f)..]
  {
    HeaderUnread(d);
    var f := Dissect(d);
    var end := |d| - PadLength(f);
    assert PadBytes(f.pad) == d[end..];
    assert f.payload == d[PayloadStart(f)..end];
    assert d[PayloadStart(f)..] == d[PayloadStart(f)..end] + d[end..];
  }

  lemma FourCuts<T>(d: seq<T>, a: nat, b: nat, c: nat)
    requires a <= b <= c <= |d|
    ensures d == d[..a] + d[a..b] + d[b..c] + d[c..]
  {
  }

  lemma SerialiseTail(f: Frame)
    requires Sound(f)
    ensures Serialise(f) == Header(f) + f.csrc + ExtensionBytes(f.ext) + (f.payload + PadBytes(f.pad))
  {
  }

  /** Serialise after parse: every accepted datagram is the serialisation of a sound packet. */
  lemma AcceptedIsSerialised(d: Datagram)
    requires GoParse(d).Accepted?
    ensures Sound(Dissect(d)) && Serialise(Dissect(d)) == d
  {
    var f := Dissect(d);
    HeaderUnread(d);
    ExtensionUnread(d);
    TailUnread(d);
    SerialiseTail(f);
    FourCuts(d, 12, 12 + |f.csrc|, PayloadStart(f));
  }

  // ---------------------------------------------------------------- the firmware against Go

  /** The firmware's slice is never empty and always inside the datagram, and it takes payload type 0 (PCMU) only. */
  lemma PanelSliceInside(pkt: Datagram, n: nat)
    requires n <= |pkt| && PanelSlice(pkt, n).Some?
    ensures var (off, end, _) := PanelSlice(pkt, n).value; 12 <= off < end <= n && (pkt[1] == 0 || pkt[1] == 128)
  {
  }

  /** Whatever Go accepts with payload type 0 and a payload, the firmware takes with the same slice and
      sequence number. */
  lemma PanelTakesWhatGoAccepts(pkt: Datagram, n: nat)
    requires n <= |pkt| && GoParse(pkt[..n]).Accepted? && GoParse(pkt[..n]).pt == 0 && GoParse(pkt[..n]).payload != []
    ensures PanelSlice(pkt, n).Some?
    ensures var (off, end, seqno) := PanelSlice(pkt, n).value;
            0 <= off <= end <= n && pkt[off..end] == GoParse(pkt[..n]).payload && seqno == GoParse(pkt[..n]).seqno
  {
    var (off, end, seqno) := PanelSlice(pkt, n).value;
    assert pkt[..n][off..end] == pkt[off..end];
  }

  /** The other way round: a datagram the firmware takes is one Go accepts unless its extension header is
      cut off, which the firmware skips, or its padding count is 0, which the firmware ignores. */
  lemma GoAcceptsWhatPanelTakes(pkt: Datagram, n: nat)
    requires n <= |pkt| && PanelSlice(pkt, n).Some?
    ensures GoParse(pkt[..n]).Accepted? <==>
              && (Extended(pkt[0]) ==> n >= 16 + 4 * SourceCount(pkt[0]))
              && (Padded(pkt[0]) ==> pkt[n-1] != 0)
  {
    assert pkt[..n][0] == pkt[0] && pkt[..n][n-1] == pkt[n-1];
  }

  /** Such datagrams: one byte of payload where the extension header should be, and a padding count of 0. */
  lemma PanelTakesMore(x: Byte)
    ensures var cutOff := [0x90, 0, 0, 1, 0, 0, 0, 0, 0, 0, 0, 0, x];
            PanelSlice(cutOff, 13) == Some((12, 13, 1)) && GoParse(cutOff[..13]) == Rejected
    ensures var unpadded := [0xa0, 0, 0, 1, 0, 0, 0, 0, 0, 0, 0, 0, 0];
            PanelSlice(unpadded, 13) == Some((12, 13, 1)) && GoParse(unpadded[..13]) == Rejected
  {
  }
}
