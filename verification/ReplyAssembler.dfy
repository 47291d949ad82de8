/**
 Reassembly of one scanner reply from UDP datagrams: ReplyAssembler.kt, and the fragment loop of
 udpCommand with mergeFragments (protocol.go) beside it.
 */
module ReplyAssembler {
  import opened Numerals
  import opened Options
  import opened Text
  import opened XmlText

  // ---------------------------------------------------------------- specification

  datatype State = State(
    ordinary: seq<string>, fragments: map<nat, string>, eotNo: int, firstNo: int, rootOpen: string, rootClose: string)

  const NOTHING := State([], map[], -1, -1, "", "")

  /** Fragments lo..hi in order. */
  function Body(fragments: map<nat, string>, lo: nat, hi: int): string
    requires forall k :: lo <= k <= hi ==> k in fragments
    decreases hi - lo
  {
    if lo > hi then "" else fragments[lo] + Body(fragments, lo + 1, hi)
  }

  predicate CanMerge(st: State) {
    && st.eotNo >= 0 && st.firstNo >= 0 && st.rootOpen != "" && st.rootClose != ""
    && forall k :: st.firstNo <= k <= st.eotNo ==> k in st.fragments
  }

  function Document(st: State): string
    requires CanMerge(st)
  {
    st.rootOpen + Body(st.fragments, st.firstNo, st.eotNo) + st.rootClose
  }

  /** merge in ReplyAssembler.kt: numbering starts at 1, or at 0. */
  function Merge(st: State): Option<string> {
    if CanMerge(st) && st.firstNo <= 1 then Some(Document(st)) else None
  }

  /** mergeFragments in protocol.go: any first number will do. Its loops count past the last fragment, so with the
      greatest int64 for it they wrap around and find a gap. */
  function GoMerge(st: State): Option<string> {
    if CanMerge(st) && st.eotNo < INT64_MAX then Some(Document(st)) else None
  }

  /** What a fragment contributes: the text inside its root, or its whole XML when that is empty. */
  function Piece(d: Datagram): string
    requires d.Fragment?
  {
    if d.parts.Some? && d.parts.value.inner != "" then d.parts.value.inner else d.bare
  }

  function Keep(st: State, d: Datagram): State
    requires d.Fragment?
  {
    var root := st.rootOpen == "" && d.parts.Some? && d.parts.value.open != "";
    State(st.ordinary, st.fragments[d.no := Piece(d)],
          if d.eot then d.no else st.eotNo,
          if st.firstNo < 0 || d.no < st.firstNo then d.no else st.firstNo,
          if root then d.parts.value.open else st.rootOpen,
          if root then d.parts.value.close else st.rootClose)
  }

  predicate IsXmlReply(s: string) { Contains(Upper(s), ",<XML>,") || Contains(s, "<?xml") }

  predicate IsError(u: string, expected: string) { u == "ERR" || u == expected + ",NG" || u == expected + ",ERR" }

  predicate Answers(line: string, expected: string, lang: Lang) {
    var u := Upper(Trim(line, lang)); HasAt(u, 0, expected + ",") || u == expected
  }

  predicate IsMarker(s: string, expected: string, lang: Lang) { Upper(Trim(s, lang)) == expected + ",<XML>," }

  function NewlinesToCr(s: string): string {
    seq(|s|, i requires 0 <= i < |s| => if s[i] == '\n' then '\r' else s[i])
  }

  /** split('\r'). */
  function Lines(s: string): (r: seq<string>)
    ensures r != []
    decreases |s|
  {
    var i := IndexOf(s, "\r", 0);
    if i < 0 then [s] else [s[..i]] + Lines(s[i+1..])
  }

  /** The loop over lines: what is gathered, and the reply if a line completes one. */
  function TakeLines(ordinary: seq<string>, lines: seq<string>, expected: string): (seq<string>, Option<string>)
    decreases |lines|
  {
    if lines == [] then (ordinary, None)
    else if lines[0] == "" then TakeLines(ordinary, lines[1..], expected)
    else
      var all := ordinary + [lines[0]];
      var joined := Join(all, "\r");
      if IsMarker(lines[0], expected, Kotlin) then TakeLines(all, lines[1..], expected)
      else if IsError(Upper(Trim(lines[0], Kotlin)), expected) then (all, Some(Upper(Trim(lines[0], Kotlin))))
      else if Answers(lines[0], expected, Kotlin) && (!IsXmlReply(joined) || IsComplete(joined))
      then (all, Some(joined))
      else TakeLines(all, lines[1..], expected)
  }

  function OfferText(st: State, text: string, expected: string): (State, Option<string>) {
    var (ordinary, r) := TakeLines(st.ordinary, Lines(NewlinesToCr(text)), expected);
    var joined := Join(ordinary, "\r");
    (st.(ordinary := ordinary),
     if r.Some? then r else if ordinary != [] && IsXmlReply(joined) && IsComplete(joined) then Some(joined) else None)
  }

  function Accept(st: State, d: Datagram, expected: string): (State, Option<string>) {
    match d
    case Fragment(_, _, _, _) => (Keep(st, d), Merge(Keep(st, d)))
    case Unnumbered => (st, None)
    case Plain(text) => OfferText(st, text, expected)
  }

  /** commandName in both programs. */
  function CommandName(wire: string, lang: Lang): string {
    var c := IndexOf(wire, ",", 0);
    Upper(Trim(if c >= 0 then wire[..c] else wire, lang))
  }

  /** The pieces present, in number order. */
  function InOrder(fragments: map<nat, string>, upto: nat): string {
    if upto == 0 then ""
    else InOrder(fragments, upto - 1) + (if upto - 1 in fragments then fragments[upto-1] else "")
  }

  predicate Above(fragments: map<nat, string>, bound: nat) { forall k :: k in fragments ==> k < bound }

  /** onTimeout in ReplyAssembler.kt; every number seen is below `bound`. */
  function Timeout(st: State, expected: string, bound: nat): Option<string> {
    if st.fragments != map[] && Merge(st).Some? then Merge(st)
    else if st.fragments != map[] && st.rootOpen != ""
    then Some(st.rootOpen + InOrder(st.fragments, bound) + st.rootClose)
    else if st.ordinary == [] || IsMarker(Join(st.ordinary, "\r"), expected, Kotlin) then None
    else Some(Join(st.ordinary, "\r"))
  }

  /** The timeout branch of udpCommand; None is its "no response" error. */
  function GoTimeout(st: State): Option<string> {
    if st.fragments != map[] && GoMerge(st).Some? then GoMerge(st)
    else if st.ordinary == [] then None
    else Some(Join(st.ordinary, "\r"))
  }

  lemma {:induction false} GapIsEmpty(fragments: map<nat, string>, lo: nat, hi: nat)
    requires lo <= hi && forall k :: lo <= k < hi ==> k !in fragments
    ensures InOrder(fragments, hi) == InOrder(fragments, lo)
  {
    if lo < hi { GapIsEmpty(fragments, lo, hi - 1); }
  }

  // ---------------------------------------------------------------- the assembler object

  /** The first of the sorted keys. */
  method Least(keys: set<nat>) returns (k: nat)
    requires keys != {}
    ensures k in keys && forall j :: j in keys ==> k <= j
  {
    k :| k in keys;
    var rest := keys - {k};
    while rest != {}
      invariant rest <= keys && k in keys && forall x :: x in keys && x !in rest ==> k <= x
      decreases |rest|
    {
      var j :| j in rest;
      if j < k { k := j; }
      rest := rest - {j};
    }
  }

  class Assembler {
    const expected: string
    var ordinary: seq<string>
    var fragments: map<nat, string>
    var eotNo: int
    var firstNo: int
    var rootOpen: string
    var rootClose: string

    ghost function Now(): State
      reads this
    {
      State(ordinary, fragments, eotNo, firstNo, rootOpen, rootClose)
    }

    constructor (wire: string)
      ensures expected == CommandName(wire, Kotlin)
      ensures ordinary == [] && fragments == map[] && eotNo == firstNo == -1 && rootOpen == rootClose == ""
    {
      var name := CommandName(wire, Kotlin);
      expected := name;
      ordinary, fragments, eotNo, firstNo, rootOpen, rootClose := [], map[], -1, -1, "", "";
    }

    method Offer(datagram: string) returns (r: Option<string>)
      modifies this
      ensures (Now(), r) == Accept(old(Now()), Classify(datagram, Kotlin), expected)
    {
      var d := Classify(datagram, Kotlin);
      match d
      case Unnumbered => r := None;
      case Fragment(_, _, _, _) =>
        KeepFragment(d);
        r := MergeNow();
      case Plain(text) => r := OfferLines(text);
    }

    method KeepFragment(d: Datagram)
      requires d.Fragment?
      modifies this
      ensures Now() == Keep(old(Now()), d)
    {
      if firstNo < 0 || d.no < firstNo { firstNo := d.no; }
      if d.eot { eotNo := d.no; }
      if rootOpen == "" && d.parts.Some? && d.parts.value.open != "" {
        rootOpen, rootClose := d.parts.value.open, d.parts.value.close;
      }
      fragments := fragments[d.no := Piece(d)];
    }

    method OfferLines(text: string) returns (r: Option<string>)
      modifies this`ordinary
      ensures (Now(), r) == OfferText(old(Now()), text, expected)
    {
      var lines := Lines(NewlinesToCr(text));
      ghost var start := ordinary;
      var i := 0;
      while i < |lines|
        invariant i <= |lines|
        invariant TakeLines(start, lines, expected) == TakeLines(ordinary, lines[i..], expected)
      {
        var line := lines[i];
        i := i + 1;
        if line == "" { continue; }
        ordinary := ordinary + [line];
        var u := Upper(Trim(line, Kotlin));
        if u == expected + ",<XML>," { continue; }
        if IsError(u, expected) { return Some(u); }
        if Answers(line, expected, Kotlin) {
          var joined := Join(ordinary, "\r");
          if !IsXmlReply(joined) || IsComplete(joined) { return Some(joined); }
        }
      }
      var joined := Join(ordinary, "\r");
      return if ordinary != [] && IsXmlReply(joined) && IsComplete(joined) then Some(joined) else None;
    }

    method OnTimeout() returns (r: Option<string>)
      ensures forall bound :: Above(fragments, bound) ==> r == Timeout(Now(), expected, bound)
    {
      if fragments != map[] {
        r := MergeNow();
        if r.Some? { return; }
        if rootOpen != "" {
          var sb, keys, next := rootOpen, fragments.Keys, 0;
          while keys != {}
            invariant keys == set k | k in fragments && k >= next
            invariant sb == rootOpen + InOrder(fragments, next)
            decreases |keys|
          {
            var k := Least(keys);
            assert forall x :: next <= x < k && x in fragments ==> x in keys;
            GapIsEmpty(fragments, next, k);
            sb := sb + fragments[k];
            keys := keys - {k};
            next := k + 1;
          }
          assert forall x :: x >= next && x in fragments ==> x in keys;
          forall bound | Above(fragments, bound) ensures InOrder(fragments, next) == InOrder(fragments, bound) {
            if next <= bound { GapIsEmpty(fragments, next, bound); } else { GapIsEmpty(fragments, bound, next); }
          }
          return Some(sb + rootClose);
        }
      }
      if ordinary != [] {
        var joined := Join(ordinary, "\r");
        return if Upper(Trim(joined, Kotlin)) == expected + ",<XML>," then None else Some(joined);
      }
      return None;
    }

    method MergeNow() returns (r: Option<string>)
      ensures r == Merge(Now())
    {
      if eotNo < 0 || firstNo < 0 || rootOpen == "" || rootClose == "" { return None; }
      if firstNo > 1 { return None; }
      var i := firstNo;
      while i <= eotNo
        invariant firstNo <= i && forall k :: firstNo <= k < i && k <= eotNo ==> k in fragments
      {
        if i !in fragments { return None; }
        i := i + 1;
      }
      var sb := rootOpen;
      i := firstNo;
      while i <= eotNo
        invariant firstNo <= i && (i <= eotNo + 1 || i == firstNo)
        invariant sb + Body(fragments, i, eotNo) == rootOpen + Body(fragments, firstNo, eotNo)
      {
        sb := sb + fragments[i];
        i := i + 1;
      }
      assert Body(fragments, i, eotNo) == "" && sb + "" == sb;
      return Some(sb + rootClose);
    }
  }

  // ---------------------------------------------------------------- fragments of one document

  /** A document cut into numbered fragments base, base + 1, ...; the last one carries EOT. `bare[i]` is the
      whole XML of a fragment. */
  datatype Cut = Cut(open: string, close: string, base: nat, inner: seq<string>, bare: seq<string>)

  predicate Sound(c: Cut) { c.open != "" && c.close != "" && |c.inner| == |c.bare| > 0 }

  function Last(c: Cut): int { c.base + |c.inner| - 1 }

  predicate Numbers(c: Cut, k: nat) { c.base <= k < c.base + |c.inner| }

  function Nth(c: Cut, k: nat): Datagram
    requires Sound(c) && Numbers(c, k)
  {
    Fragment(k, k == Last(c), Some(Parts(c.open, c.close, c.inner[k-c.base])), c.bare[k-c.base])
  }

  /** What the assembler makes of each fragment. */
  function Pieces(c: Cut): seq<string>
    requires Sound(c)
  {
    seq(|c.inner|, i requires 0 <= i < |c.inner| => if c.inner[i] != "" then c.inner[i] else c.bare[i])
  }

  ghost predicate Delivery(c: Cut, order: seq<nat>) { forall k :: k in order ==> Numbers(c, k) }

  /** The state after the fragments numbered `order` arrived, in that order and with any repetitions. */
  ghost function After(c: Cut, order: seq<nat>): State
    requires Sound(c) && Delivery(c, order)
  {
    if order == [] then NOTHING else Keep(After(c, order[..|order|-1]), Nth(c, order[|order|-1]))
  }

  function Min(order: seq<nat>): nat
    requires order != []
  {
    if |order| == 1 then order[0]
    else
      var least, last := Min(order[..|order|-1]), order[|order|-1];
      if last < least then last else least
  }

  lemma {:induction false} MinIs(order: seq<nat>)
    requires order != []
    ensures Min(order) in order && forall k :: k in order ==> Min(order) <= k
  {
    if |order| > 1 {
      var front, last := order[..|order|-1], order[|order|-1];
      MinIs(front);
      assert order == front + [last];
    }
  }

  lemma {:induction false} FragmentsAre(c: Cut, order: seq<nat>)
    requires Sound(c) && Delivery(c, order)
    ensures var st := After(c, order);
            && (forall k :: k in st.fragments <==> k in order)
            && (forall k :: k in order ==> st.fragments[k] == Pieces(c)[k-c.base])
  {
    if order != [] {
      var before, k := order[..|order|-1], order[|order|-1];
      assert order == before + [k];
      FragmentsAre(c, before);
    }
  }

  lemma {:induction false} EotIs(c: Cut, order: seq<nat>)
    requires Sound(c) && Delivery(c, order)
    ensures After(c, order).eotNo == (if Last(c) in order then Last(c) else -1)
  {
    if order != [] {
      var before, k := order[..|order|-1], order[|order|-1];
      assert order == before + [k];
      EotIs(c, before);
    }
  }

  lemma {:induction false} FirstIs(c: Cut, order: seq<nat>)
    requires Sound(c) && Delivery(c, order) && order != []
    ensures After(c, order).firstNo == Min(order)
  {
    if |order| > 1 { FirstIs(c, order[..|order|-1]); }
  }

  lemma {:induction false} RootIs(c: Cut, order: seq<nat>)
    requires Sound(c) && Delivery(c, order) && order != []
    ensures var st := After(c, order); st.rootOpen == c.open && st.rootClose == c.close && st.ordinary == []
  {
    if |order| > 1 { RootIs(c, order[..|order|-1]); }
  }

  lemma MarksAre(c: Cut, order: seq<nat>)
    requires Sound(c) && Delivery(c, order) && order != []
    ensures var st := After(c, order);
            && st.eotNo == (if Last(c) in order then Last(c) else -1)
            && st.firstNo == Min(order) && st.rootOpen == c.open && st.rootClose == c.close && st.ordinary == []
    ensures Min(order) in order && Numbers(c, Min(order)) && forall k :: k in order ==> Min(order) <= k
  {
    EotIs(c, order);
    FirstIs(c, order);
    RootIs(c, order);
    MinIs(order);
  }

  lemma {:induction false} BodyIsConcat(c: Cut, fragments: map<nat, string>, lo: nat)
    requires Sound(c) && c.base <= lo <= Last(c) + 1
    requires forall k :: lo <= k <= Last(c) ==> k in fragments && fragments[k] == Pieces(c)[k-c.base]
    ensures Body(fragments, lo, Last(c)) == Concat(Pieces(c)[lo-c.base..])
    decreases Last(c) + 1 - lo
  {
    if lo <= Last(c) {
      BodyIsConcat(c, fragments, lo + 1);
      assert Pieces(c)[lo-c.base..] == [Pieces(c)[lo-c.base]] + Pieces(c)[lo+1-c.base..];
    }
  }

  ghost predicate AllFrom(c: Cut, order: seq<nat>, lo: nat) { forall k :: lo <= k <= Last(c) ==> k in order }

  /** Whatever the order: a merge is possible exactly when everything from the least number seen to the last
      fragment has arrived, and gives that stretch in number order. */
  lemma MergedStretch(c: Cut, order: seq<nat>)
    requires Sound(c) && Delivery(c, order) && order != []
    ensures Numbers(c, Min(order)) && (CanMerge(After(c, order)) <==> AllFrom(c, order, Min(order)))
    ensures AllFrom(c, order, Min(order)) ==>
              Document(After(c, order)) == c.open + Concat(Pieces(c)[Min(order)-c.base..]) + c.close
  {
    FragmentsAre(c, order);
    MarksAre(c, order);
    assert Numbers(c, Min(order));
    if AllFrom(c, order, Min(order)) {
      assert Last(c) in order;
      BodyIsConcat(c, After(c, order).fragments, Min(order));
    }
  }

  /** Order independence: numbered from 1 with nothing empty, `offer` answers null until every number has
      been seen, and from then on exactly root-open, the inner texts in order, root-close. */
  lemma OrderIndependence(c: Cut, order: seq<nat>)
    requires Sound(c) && c.base == 1 && Delivery(c, order) && order != []
    requires forall i :: 0 <= i < |c.inner| ==> c.inner[i] != ""
    ensures Merge(After(c, order)) ==
              if AllFrom(c, order, 1) then Some(c.open + Concat(c.inner) + c.close) else None
  {
    FragmentsAre(c, order);
    MarksAre(c, order);
    MergedStretch(c, order);
    assert Pieces(c) == c.inner;
    assert AllFrom(c, order, 1) ==> 1 in order;
    assert Pieces(c)[0..] == Pieces(c);
  }

  lemma {:induction false} PiecesLength(inner: seq<string>, pieces: seq<string>)
    requires |inner| == |pieces|
    requires forall i :: 0 <= i < |inner| ==> if inner[i] != "" then pieces[i] == inner[i] else pieces[i] != ""
    ensures |Concat(pieces)| >= |Concat(inner)|
    ensures |Concat(pieces)| == |Concat(inner)| <==> forall i :: 0 <= i < |inner| ==> inner[i] != ""
  {
    if inner != [] { PiecesLength(inner[1..], pieces[1..]); }
  }

  /** Non-empty inner texts are needed: once everything has arrived the document is right exactly when no
      fragment was empty, since an empty one is replaced by its whole XML. */
  lemma CompleteIffNothingEmpty(c: Cut, order: seq<nat>)
    requires Sound(c) && c.base == 1 && Delivery(c, order) && order != [] && AllFrom(c, order, 1)
    requires forall i :: 0 <= i < |c.bare| ==> c.bare[i] != ""
    ensures Merge(After(c, order)) == Some(c.open + Concat(c.inner) + c.close)
            <==> forall i :: 0 <= i < |c.inner| ==> c.inner[i] != ""
  {
    assert 1 in order && Pieces(c)[0..] == Pieces(c);
    MarksAre(c, order);
    MergedStretch(c, order);
    PiecesLength(c.inner, Pieces(c));
    if forall i :: 0 <= i < |c.inner| ==> c.inner[i] != "" { assert Pieces(c) == c.inner; }
    else { assert |c.open + Concat(c.inner) + c.close| != |c.open + Concat(Pieces(c)) + c.close|; }
  }

  /** Numbering from 0 is tolerated but not order-independent: fragments 1.. alone already merge, without
      fragment 0. The result is the whole document exactly when fragment 0 is among those that arrived. */
  lemma NumberedFromZero(c: Cut, order: seq<nat>)
    requires Sound(c) && c.base == 0 && |c.inner| > 1 && Delivery(c, order) && order != [] && AllFrom(c, order, 1)
    requires forall i :: 0 <= i < |c.inner| ==> c.inner[i] != ""
    ensures Merge(After(c, order)).Some?
    ensures Merge(After(c, order)) == Some(c.open + Concat(c.inner) + c.close) <==> 0 in order
  {
    assert 1 in order;
    var lo := Min(order);
    MarksAre(c, order);
    MergedStretch(c, order);
    assert Pieces(c) == c.inner && c.inner[0..] == c.inner;
    if lo == 1 { ShorterTail(c.inner, 1); }
  }

  lemma ConcatOne(s: string)
    ensures Concat([s]) == s
  {
    assert [s][1..] == [] && Concat([]) == "" && s + "" == s;
  }

  /** The last fragment, alone. */
  lemma LastAlone(c: Cut, piece: string)
    requires Sound(c) && Pieces(c)[|c.inner|-1..] == [piece]
    ensures Delivery(c, [Last(c)]) && CanMerge(After(c, [Last(c)]))
    ensures Document(After(c, [Last(c)])) == c.open + piece + c.close
    ensures After(c, [Last(c)]).firstNo == After(c, [Last(c)]).eotNo == Last(c)
  {
    MarksAre(c, [Last(c)]);
    MergedStretch(c, [Last(c)]);
    ConcatOne(piece);
  }

  /** Such a document: one empty fragment, whose whole XML is repeated inside its root. */
  lemma EmptyFragmentRepeats(open: string, close: string, bare: string)
    requires open != "" && close != ""
    ensures Merge(After(Cut(open, close, 1, [""], [bare]), [1])) == Some(open + bare + close)
  {
    var c := Cut(open, close, 1, [""], [bare]);
    assert Pieces(c) == [bare];
    LastAlone(c, bare);
  }

  /** udpCommand on a document numbered from 1: it finishes once a stretch up to the last fragment has
      arrived, with the whole document exactly when that stretch starts at 1. */
  lemma GoFinishesEarly(c: Cut, order: seq<nat>)
    requires Sound(c) && c.base == 1 && Delivery(c, order) && order != []
    requires forall i :: 0 <= i < |c.inner| ==> c.inner[i] != ""
    ensures GoMerge(After(c, order)).Some? <==> AllFrom(c, order, Min(order)) && Last(c) < INT64_MAX
    ensures GoMerge(After(c, order)) == Some(c.open + Concat(c.inner) + c.close)
            <==> AllFrom(c, order, 1) && Last(c) < INT64_MAX
  {
    MarksAre(c, order);
    MergedStretch(c, order);
    MinIs(order);
    assert Pieces(c) == c.inner;
    if AllFrom(c, order, 1) { assert 1 in order; }
    WholeIff(c.open, c.inner, Min(order) - 1, c.close);
  }

  /** A document cut short at the front is another one. */
  lemma WholeIff(open: string, inner: seq<string>, i: nat, close: string)
    requires i < |inner| && forall k :: 0 <= k < |inner| ==> inner[k] != ""
    ensures open + Concat(inner[i..]) + close == open + Concat(inner) + close <==> i == 0
  {
    assert inner[0..] == inner;
    if i > 0 {
      ShorterTail(inner, i);
      assert |open + Concat(inner[i..]) + close| < |open + Concat(inner) + close|;
    }
  }

  /** Such a document: of two fragments the second arrives first, and is all Go returns. */
  lemma GoReturnsTail(open: string, close: string, a: string, b: string)
    requires open != "" && close != "" && b != ""
    ensures var st := After(Cut(open, close, 1, [a, b], [a, b]), [2]);
            GoMerge(st) == Some(open + b + close) && Merge(st) == None
  {
    var c := Cut(open, close, 1, [a, b], [a, b]);
    assert Pieces(c)[1..] == [b];
    LastAlone(c, b);
  }

  // ---------------------------------------------------------------- the timeout before the last fragment

  /** Those of the first n fragments that have arrived, in number order. */
  function Arrived(c: Cut, order: seq<nat>, n: nat): string
    requires Sound(c) && n <= |c.inner|
  {
    if n == 0 then "" else Arrived(c, order, n - 1) + (if c.base + n - 1 in order then Pieces(c)[n-1] else "")
  }

  lemma {:induction false} InOrderIsArrived(c: Cut, order: seq<nat>, n: nat)
    requires Sound(c) && Delivery(c, order) && n <= |c.inner|
    ensures InOrder(After(c, order).fragments, c.base + n) == Arrived(c, order, n)
  {
    FragmentsAre(c, order);
    if n == 0 { GapIsEmpty(After(c, order).fragments, 0, c.base); } else { InOrderIsArrived(c, order, n - 1); }
  }

  lemma {:induction false} InOrderBody(fragments: map<nat, string>, lo: nat, hi: int)
    requires lo <= hi + 1 && forall k :: lo <= k <= hi ==> k in fragments
    ensures InOrder(fragments, hi + 1) == InOrder(fragments, lo) + Body(fragments, lo, hi)
    decreases hi - lo
  {
    if lo > hi {
      assert InOrder(fragments, lo) + "" == InOrder(fragments, lo);
    } else {
      InOrderBody(fragments, lo + 1, hi);
      Associates(InOrder(fragments, lo), fragments[lo], Body(fragments, lo + 1, hi));
    }
  }

  lemma SameAbove(fragments: map<nat, string>, a: nat, b: nat)
    requires Above(fragments, a) && Above(fragments, b)
    ensures InOrder(fragments, a) == InOrder(fragments, b)
  {
    if a <= b { GapIsEmpty(fragments, a, b); } else { GapIsEmpty(fragments, b, a); }
  }

  lemma MergedIsArrived(c: Cut, order: seq<nat>)
    requires Sound(c) && Delivery(c, order) && order != [] && CanMerge(After(c, order))
    ensures Document(After(c, order)) == c.open + Arrived(c, order, |c.inner|) + c.close
  {
    MarksAre(c, order);
    InOrderIsArrived(c, order, |c.inner|);
    assert forall k :: k in After(c, order).fragments ==> Min(order) <= k by {
      FragmentsAre(c, order);
      MinIs(order);
    }
    WholeFromLeast(After(c, order).fragments, Min(order), Last(c));
  }

  /** All the pieces in order are those from the least number on. */
  lemma WholeFromLeast(fragments: map<nat, string>, lo: nat, hi: int)
    requires lo <= hi + 1 && (forall k :: lo <= k <= hi ==> k in fragments) && forall k :: k in fragments ==> lo <= k
    ensures InOrder(fragments, hi + 1) == Body(fragments, lo, hi)
  {
    GapIsEmpty(fragments, 0, lo);
    InOrderBody(fragments, lo, hi);
    assert "" + Body(fragments, lo, hi) == Body(fragments, lo, hi);
  }

  lemma {:induction false} NoLines(c: Cut, order: seq<nat>)
    requires Sound(c) && Delivery(c, order)
    ensures After(c, order).ordinary == [] && (order != [] ==> After(c, order).fragments != map[])
  {
    if order != [] {
      NoLines(c, order[..|order|-1]);
      assert order[|order|-1] in After(c, order).fragments;
    }
  }

  /** Whatever fragments of a document have come, in any order and with any repetitions: onTimeout returns the root with
      exactly those in it, in number order; udpCommand only what merges. */
  lemma TimeoutGivesWhatArrived(c: Cut, order: seq<nat>, expected: string, bound: nat)
    requires Sound(c) && Delivery(c, order) && order != [] && Above(After(c, order).fragments, bound)
    ensures Timeout(After(c, order), expected, bound) == Some(c.open + Arrived(c, order, |c.inner|) + c.close)
    ensures GoTimeout(After(c, order)) == GoMerge(After(c, order))
  {
    MarksAre(c, order);
    NoLines(c, order);
    FragmentsAre(c, order);
    InOrderIsArrived(c, order, |c.inner|);
    SameAbove(After(c, order).fragments, bound, c.base + |c.inner|);
    if CanMerge(After(c, order)) { MergedIsArrived(c, order); }
  }

  lemma {:induction false} ShorterTail(inner: seq<string>, i: nat)
    requires 0 < i < |inner| && forall k :: 0 <= k < |inner| ==> inner[k] != ""
    ensures |Concat(inner[i..])| < |Concat(inner)|
    decreases i
  {
    if i > 1 {
      assert inner[1..][i-1..] == inner[i..];
      ShorterTail(inner[1..], i - 1);
    }
  }

  // ---------------------------------------------------------------- Go against Kotlin

  /** The state after any fragments, well formed or not; the two programs keep them alike. */
  ghost function AfterAll(ds: seq<Datagram>): State
    requires forall d :: d in ds ==> d.Fragment?
  {
    if ds == [] then NOTHING else Keep(AfterAll(ds[..|ds|-1]), ds[|ds|-1])
  }

  predicate HasRoot(d: Datagram) { d.Fragment? && d.parts.Some? && d.parts.value.open != "" }

  /** The root is that of the first fragment that has one, whatever the others say. */
  lemma {:induction false} RootOfFirst(ds: seq<Datagram>, i: nat)
    requires (forall d :: d in ds ==> d.Fragment?) && i < |ds| && HasRoot(ds[i])
    requires forall k :: 0 <= k < i ==> !HasRoot(ds[k])
    ensures AfterAll(ds).rootOpen == ds[i].parts.value.open && AfterAll(ds).rootClose == ds[i].parts.value.close
  {
    var before := ds[..|ds|-1];
    assert forall k :: 0 <= k < |before| ==> before[k] == ds[k];
    if i < |before| { RootOfFirst(before, i); } else { NoRootYet(before); }
  }

  lemma {:induction false} NoRootYet(ds: seq<Datagram>)
    requires forall d :: d in ds ==> d.Fragment? && !HasRoot(d)
    ensures AfterAll(ds).rootOpen == ""
  {
    if ds != [] {
      assert ds[|ds|-1] in ds;
      NoRootYet(ds[..|ds|-1]);
    }
  }

  /** Of fragments with the same number the last to come counts. */
  lemma {:induction false} PieceOfLast(ds: seq<Datagram>, i: nat)
    requires (forall d :: d in ds ==> d.Fragment?) && i < |ds|
    requires forall k :: i < k < |ds| ==> ds[k].no != ds[i].no
    ensures ds[i].no in AfterAll(ds).fragments && AfterAll(ds).fragments[ds[i].no] == Piece(ds[i])
  {
    var before := ds[..|ds|-1];
    assert forall k :: 0 <= k < |before| ==> before[k] == ds[k];
    if i < |before| { PieceOfLast(before, i); }
  }

  /** Had a reply that a fragment completed not been taken, the timeout would return the same. */
  lemma TimeoutReturnsAnswer(st: State, d: Datagram, expected: string, bound: nat)
    requires d.Fragment?
    ensures var (next, r) := Accept(st, d, expected); r.Some? ==> Timeout(next, expected, bound) == r
    ensures GoMerge(Keep(st, d)).Some? ==> GoTimeout(Keep(st, d)) == GoMerge(Keep(st, d))
  {
    assert d.no in Keep(st, d).fragments;
  }

  lemma {:induction false} FirstStaysLow(ds: seq<Datagram>)
    requires ds != [] && (forall d :: d in ds ==> d.Fragment?) && ds[0].no <= 1
    ensures 0 <= AfterAll(ds).firstNo <= 1
  {
    var before := ds[..|ds|-1];
    assert AfterAll(ds) == Keep(AfterAll(before), ds[|ds|-1]);
    if before != [] {
      assert before[0] == ds[0];
      FirstStaysLow(before);
    }
  }

  /** When fragment 1 (or 0) arrives first, both programs answer alike at every datagram, so they complete at
      the same one and with the same document; the numbers are those an Int holds. */
  lemma SameAnswersWhenFirstArrivesFirst(ds: seq<Datagram>, m: nat)
    requires ds != [] && (forall d :: d in ds ==> d.Fragment? && d.no <= INT32_MAX) && ds[0].no <= 1 && 0 < m <= |ds|
    ensures GoMerge(AfterAll(ds[..m])) == Merge(AfterAll(ds[..m]))
  {
    FirstStaysLow(ds[..m]);
    LastStaysLow(ds[..m]);
  }

  lemma {:induction false} LastStaysLow(ds: seq<Datagram>)
    requires forall d :: d in ds ==> d.Fragment? && d.no <= INT32_MAX
    ensures AfterAll(ds).eotNo <= INT32_MAX
  {
    if ds != [] {
      assert ds[|ds|-1] in ds;
      LastStaysLow(ds[..|ds|-1]);
    }
  }

  // ---------------------------------------------------------------- what a reply can be

  /** A reply made of lines, `all` being the lines gathered by then: an error, a plain reply whose last line
      answers the command, or a complete XML document. */
  ghost predicate JustifiedText(r: string, all: seq<string>, expected: string) {
    || IsError(r, expected)
    || (r == Join(all, "\r") && all != [] && !IsXmlReply(r) && Answers(all[|all|-1], expected, Kotlin))
    || (r == Join(all, "\r") && IsXmlReply(r) && IsComplete(r))
  }

  lemma {:induction false} LinesJustified(ordinary: seq<string>, lines: seq<string>, expected: string)
    ensures var (all, r) := TakeLines(ordinary, lines, expected);
            r.Some? ==> JustifiedText(r.value, all, expected)
    decreases |lines|
  {
    if lines != [] {
      LinesJustified(if lines[0] == "" then ordinary else ordinary + [lines[0]], lines[1..], expected);
    }
  }

  /** Any reply, from any state and datagram, is a full merge, an error reply, a plain reply whose last line
      answers the command, or a complete XML document. */
  lemma EveryReplyJustified(st: State, d: Datagram, expected: string)
    ensures var (st', r) := Accept(st, d, expected);
            || r.None?
            || (d.Fragment? && CanMerge(st') && st'.firstNo <= 1 && r.value == Document(st'))
            || (d.Plain? && JustifiedText(r.value, st'.ordinary, expected))
  {
    if d.Plain? { LinesJustified(st.ordinary, Lines(NewlinesToCr(d.text)), expected); }
  }

  // ---------------------------------------------------------------- a lone marker

  lemma TrimIsInside(s: string, lang: Lang) returns (a: string, b: string)
    ensures s == a + Trim(s, lang) + b && '<' !in a && '<' !in b
  {
    var t := TrimLeft(s, lang);
    TrimLeftIs(s, lang);
    TrimRightIs(t, lang);
    a := s[..|s|-|t|];
    b := t[|Trim(s, lang)|..];
    assert forall i :: 0 <= i < |a| ==> a[i] == s[i];
    assert forall i :: 0 <= i < |b| ==> b[i] == t[|Trim(s, lang)|+i];
  }

  /** A marker `t` with blanks around it: where the marker text is, and that its '<' is the only one. */
  lemma MarkerInside(a: string, t: string, b: string, expected: string)
    requires Upper(t) == expected + ",<XML>," && '<' !in expected && '<' !in a && '<' !in b
    ensures var s := a + t + b; var at := |a| + |expected|;
            && |t| == |expected| + 7 && HasAt(Upper(s), at, ",<XML>,") && s[at+7..] == b
            && s[at+1] == '<' && s[at+2] in "Xx"
            && forall i :: 0 <= i < |s| && s[i] == '<' ==> i == at + 1
  {
    var s, m := a + t + b, expected + ",<XML>,";
    assert |Upper(t)| == |t| == |m|;
    forall i | 0 <= i < |t| ensures UpperChar(t[i]) == m[i] && s[|a|+i] == t[i] {
      assert Upper(t)[i] == UpperChar(t[i]);
    }
    assert Upper(s)[|a|+|expected|..|a|+|expected|+7] == m[|expected|..];
    assert m[|expected|+1] == '<' && m[|expected|+2] == 'X' && m[|expected|..] == ",<XML>,";
    assert forall i :: 0 <= i < |a| ==> s[i] == a[i];
    assert forall i :: |a| + |t| <= i < |s| ==> s[i] == b[i-|a|-|t|];
    assert forall i :: |a| <= i < |a| + |t| ==> s[i] == t[i-|a|] && UpperChar(s[i]) == m[i-|a|];
  }

  lemma NoDeclaration(s: string, at: nat)
    requires at + 2 < |s| && s[at+2] in "Xx" && forall i :: 0 <= i < |s| && s[i] == '<' ==> i == at + 1
    ensures !Contains(s, "<?xml")
  {
    forall i | HasAt(s, i, "<?xml") ensures false {
      HasAtChar(s, i, "<?xml", 0);
      HasAtChar(s, i, "<?xml", 1);
    }
  }

  lemma OnlyMarker(s: string, at: nat)
    requires HasAt(Upper(s), at, ",<XML>,") && forall i :: 0 <= i < |s| && s[i] == '<' ==> i == at + 1
    ensures IndexOf(Upper(s), ",<XML>,", 0) == at
  {
    var m := IndexOf(Upper(s), ",<XML>,", 0);
    HasAtChar(Upper(s), m, ",<XML>,", 1);
    assert Upper(s)[m+1] == UpperChar(s[m+1]);
  }

  lemma NoTagIncomplete(s: string, b: string)
    requires ExtractXml(s) == b && '<' !in b
    ensures !IsComplete(s)
  {
    NothingToStrip(b, 0);
    assert b[0..] == b;
  }

  lemma MarkerIsIncomplete(s: string, expected: string, lang: Lang)
    requires IsMarker(s, expected, lang) && '<' !in expected
    ensures IsXmlReply(s) && !IsComplete(s)
    ensures '<' in s && s[0] != '<'
  {
    var a, b := TrimIsInside(s, lang);
    var at := |a| + |expected|;
    MarkerInside(a, Trim(s, lang), b, expected);
    MarkerExtract(s, at, b);
    NoTagIncomplete(s, b);
  }

  lemma MarkerExtract(s: string, at: nat, b: string)
    requires at + 7 <= |s| && s[at+2] in "Xx" && s[at+7..] == b && '<' !in b && HasAt(Upper(s), at, ",<XML>,")
    requires forall i :: 0 <= i < |s| && s[i] == '<' ==> i == at + 1
    ensures ExtractXml(s) == b && IsXmlReply(s)
  {
    NoDeclaration(s, at);
    OnlyMarker(s, at);
    assert FindRoot(b, 0) < 0;
  }

  ghost predicate RootOk(st: State) { st.rootOpen != "" ==> st.rootOpen[0] == '<' }

  /** The state after any datagrams at all. */
  ghost function Offered(expected: string, texts: seq<string>): State {
    if texts == [] then NOTHING
    else Accept(Offered(expected, texts[..|texts|-1]), Classify(texts[|texts|-1], Kotlin), expected).0
  }

  lemma {:induction false} OfferedRootOk(expected: string, texts: seq<string>)
    ensures RootOk(Offered(expected, texts))
  {
    if texts != [] { OfferedRootOk(expected, texts[..|texts|-1]); }
  }

  lemma ReplyNoMarker(st: State, d: Datagram, expected: string)
    requires '<' !in expected && RootOk(Accept(st, d, expected).0) && Accept(st, d, expected).1.Some?
    ensures !IsMarker(Accept(st, d, expected).1.value, expected, Kotlin)
  {
    var r := Accept(st, d, expected).1.value;
    EveryReplyJustified(st, d, expected);
    assert IsError(r, expected) ==> '<' !in r;
    if IsMarker(r, expected, Kotlin) {
      MarkerIsIncomplete(r, expected, Kotlin);
    }
  }

  lemma TimeoutNoMarker(st: State, expected: string, bound: nat)
    requires '<' !in expected && RootOk(st) && Timeout(st, expected, bound).Some?
    ensures !IsMarker(Timeout(st, expected, bound).value, expected, Kotlin)
  {
    var r := Timeout(st, expected, bound).value;
    if IsMarker(r, expected, Kotlin) { MarkerIsIncomplete(r, expected, Kotlin); }
  }

  /** Over any datagrams, neither `offer` nor `onTimeout` ever returns the bare "CMD,<XML>," marker. */
  lemma LoneMarkerNeverReturned(expected: string, texts: seq<string>, text: string, bound: nat)
    requires '<' !in expected
    ensures var r := Accept(Offered(expected, texts), Classify(text, Kotlin), expected).1;
            r.Some? ==> !IsMarker(r.value, expected, Kotlin)
    ensures var r := Timeout(Offered(expected, texts), expected, bound);
            r.Some? ==> !IsMarker(r.value, expected, Kotlin)
  {
    var st, d := Offered(expected, texts), Classify(text, Kotlin);
    OfferedRootOk(expected, texts);
    OfferedRootOk(expected, texts + [text]);
    assert (texts + [text])[..|texts|] == texts;
    if Accept(st, d, expected).1.Some? { ReplyNoMarker(st, d, expected); }
    if Timeout(st, expected, bound).Some? { TimeoutNoMarker(st, expected, bound); }
  }
}
