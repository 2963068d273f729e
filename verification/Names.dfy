/** Dotted names as byte strings: what `split('.')` and `join(".")` do to one another. */
module Labels {
  import opened Bytes

  type Text = seq<byte>

  const DOT: byte := 0x2E

  /** The pieces between the dots; one more than there are dots, so never none. */
  function Split(s: Text): (pieces: seq<Text>)
    ensures |pieces| > 0
  {
    if s == [] then [[]]
    else
      var rest := Split(s[1..]);
      if s[0] == DOT then [[]] + rest else [[s[0]] + rest[0]] + rest[1..]
  }

  function Join(labels: seq<Text>): Text {
    if labels == [] then []
    else if |labels| == 1 then labels[0]
    else labels[0] + [DOT] + Join(labels[1..])
  }

  /** All the pieces of some labels, in order. */
  function SplitEach(labels: seq<Text>): seq<Text> {
    if labels == [] then [] else Split(labels[0]) + SplitEach(labels[1..])
  }

  lemma JoinPrepend(head: Text, labels: seq<Text>)
    requires labels != []
    ensures Join([head] + labels) == head + [DOT] + Join(labels)
    ensures Join([head + labels[0]] + labels[1..]) == head + Join(labels)
  {
    JoinFirst(head, labels);
    JoinLonger(head, labels[0], labels[1..]);
    assert [labels[0]] + labels[1..] == labels;
  }

  lemma JoinFirst(head: Text, rest: seq<Text>)
    ensures Join([head] + rest) == if rest == [] then head else head + [DOT] + Join(rest)
  {
    assert ([head] + rest)[1..] == rest;
  }

  lemma JoinLonger(head: Text, first: Text, rest: seq<Text>)
    ensures Join([head + first] + rest) == head + Join([first] + rest)
  {
    JoinFirst(head + first, rest);
    JoinFirst(first, rest);
    hide Join;
    if rest != [] {
      assert head + (first + [DOT] + Join(rest)) == head + first + [DOT] + Join(rest);
    }
  }

  lemma {:induction false} JoinSplit(s: Text)
    ensures Join(Split(s)) == s
  {
    if s != [] {
      JoinSplit(s[1..]);
      var rest := Split(s[1..]);
      JoinPrepend([], rest);
      JoinPrepend([s[0]], rest);
      assert s == [s[0]] + s[1..];
      assert s[0] == DOT ==> [] + [DOT] + Join(rest) == s;
    }
  }

  lemma {:induction false} SplitHasNoDots(s: Text)
    ensures forall piece | piece in Split(s) :: DOT !in piece
  {
    if s != [] {
      SplitHasNoDots(s[1..]);
      var rest := Split(s[1..]);
      assert rest[0] in rest;
    }
  }

  lemma {:induction false} SplitDotFree(s: Text)
    requires DOT !in s
    ensures Split(s) == [s]
  {
    if s != [] {
      SplitDotFree(s[1..]);
      assert [s[0]] + s[1..] == s;
    }
  }

  lemma SplitHead(x: byte, s: Text)
    ensures Split([x] + s) == if x == DOT then [[]] + Split(s) else [[x] + Split(s)[0]] + Split(s)[1..]
  {
    assert ([x] + s)[1..] == s;
  }

  /** Splitting at a dot splits each side. */
  lemma {:induction false} SplitAtDot(a: Text, b: Text)
    ensures Split(a + [DOT] + b) == Split(a) + Split(b)
  {
    if a == [] {
      SplitHead(DOT, b);
      assert a + [DOT] + b == [DOT] + b;
    } else {
      var x, tail := a[0], a[1..];
      assert a == [x] + tail && a + [DOT] + b == [x] + (tail + [DOT] + b);
      SplitAtDot(tail, b);
      SplitHead(x, tail);
      SplitHead(x, tail + [DOT] + b);
    }
  }

  /** Joining forgets which dots were inside a label, and nothing else. */
  lemma {:induction false} SplitJoin(labels: seq<Text>)
    requires labels != []
    ensures Split(Join(labels)) == SplitEach(labels)
  {
    if |labels| > 1 {
      SplitJoin(labels[1..]);
      SplitAtDot(labels[0], Join(labels[1..]));
    } else {
      assert labels[1..] == [];
      assert SplitEach(labels) == Split(labels[0]);
    }
  }

  /** No piece is longer than the text it comes from. */
  lemma {:induction false} SplitShortens(s: Text)
    ensures forall piece | piece in Split(s) :: |piece| <= |s|
    ensures |Split(s)[0]| <= |s|
  {
    if s != [] {
      SplitShortens(s[1..]);
    }
  }

  lemma {:induction false} PiecesBound(labels: seq<Text>, bound: nat)
    requires forall part | part in labels :: |part| < bound
    ensures forall piece | piece in SplitEach(labels) :: |piece| < bound
  {
    if labels != [] {
      PiecesBound(labels[1..], bound);
      SplitShortens(labels[0]);
      assert labels[0] in labels;
    }
  }

  /** So labels without dots survive being joined and split again, and a text its own splitting. */
  lemma {:induction false} SplitJoinDotFree(labels: seq<Text>)
    requires labels != [] && forall part | part in labels :: DOT !in part
    ensures Split(Join(labels)) == labels
  {
    SplitJoin(labels);
    SplitEachDotFree(labels);
  }

  lemma {:induction false} SplitEachDotFree(labels: seq<Text>)
    requires forall part | part in labels :: DOT !in part
    ensures SplitEach(labels) == labels
  {
    if labels != [] {
      SplitDotFree(labels[0]);
      SplitEachDotFree(labels[1..]);
      assert labels == [labels[0]] + labels[1..];
    }
  }
}

/** Well-formed UTF-8, as `str::from_utf8` and the `String` type have it: no overlong forms, no
    surrogates, nothing above U+10FFFF. */
module Utf8 {
  import opened Bytes
  import opened Labels

  predicate IsContinuation(b: byte) {
    0x80 <= b <= 0xBF
  }

  /** The range the second byte must lie in after the given first byte. */
  predicate SecondFits(first: byte, second: byte) {
    && IsContinuation(second)
    && (first == 0xE0 ==> second >= 0xA0)
    && (first == 0xED ==> second <= 0x9F)
    && (first == 0xF0 ==> second >= 0x90)
    && (first == 0xF4 ==> second <= 0x8F)
  }

  /** How many bytes a character with this first byte takes; none does when the answer is 0. */
  function Width(first: byte): nat {
    if first < 0x80 then 1
    else if 0xC2 <= first <= 0xDF then 2
    else if 0xE0 <= first <= 0xEF then 3
    else if 0xF0 <= first <= 0xF4 then 4
    else 0
  }

  /** The text starts with a whole character. */
  predicate StartsWell(s: Text)
    requires s != []
  {
    var width := Width(s[0]);
    && 0 < width <= |s|
    && (width > 1 ==> SecondFits(s[0], s[1]))
    && (width > 2 ==> IsContinuation(s[2]))
    && (width > 3 ==> IsContinuation(s[3]))
  }

  predicate IsUtf8(s: Text) {
    s == [] || (StartsWell(s) && IsUtf8(s[Width(s[0])..]))
  }

  // ---------------------------------------------------------------- section 3 of RFC 3629

  /** A character that UTF-8 encodes: not a surrogate, and at most U+10FFFF. */
  predicate IsScalar(c: nat) {
    c < 0xD800 || 0xE000 <= c <= 0x10FFFF
  }

  function EncodeChar(c: nat): (s: Text)
    requires IsScalar(c)
    ensures s != []
  {
    if c < 0x80 then [c]
    else if c < 0x800 then [0xC0 + c / 0x40, 0x80 + c % 0x40]
    else if c < 0x1_0000 then [0xE0 + c / 0x1000, 0x80 + c / 0x40 % 0x40, 0x80 + c % 0x40]
    else [0xF0 + c / 0x4_0000, 0x80 + c / 0x1000 % 0x40, 0x80 + c / 0x40 % 0x40, 0x80 + c % 0x40]
  }

  ghost predicate AllScalars(chars: seq<nat>) {
    forall c | c in chars :: IsScalar(c)
  }

  function EncodeAll(chars: seq<nat>): Text
    requires AllScalars(chars)
  {
    if chars == [] then [] else EncodeChar(chars[0]) + EncodeAll(chars[1..])
  }

  lemma CharStartsWell(c: nat)
    requires IsScalar(c)
    ensures StartsWell(EncodeChar(c)) && Width(EncodeChar(c)[0]) == |EncodeChar(c)|
  {
  }

  lemma TwoBytes(s: Text)
    requires |s| == 2 && StartsWell(s) && Width(s[0]) == 2
    ensures var c: int := (s[0] as int - 0xC0) * 0x40 + (s[1] as int - 0x80); 0x80 <= c && IsScalar(c) && EncodeChar(c) == s
  {
  }

  lemma ThreeBytes(s: Text)
    requires |s| == 3 && StartsWell(s) && Width(s[0]) == 3
    ensures var c: int := (s[0] as int - 0xE0) * 0x1000 + (s[1] as int - 0x80) * 0x40 + (s[2] as int - 0x80);
            0x800 <= c && IsScalar(c) && EncodeChar(c) == s
  {
    var c: int := (s[0] as int - 0xE0) * 0x1000 + (s[1] as int - 0x80) * 0x40 + (s[2] as int - 0x80);
    assert c / 0x40 == (s[0] as int - 0xE0) * 0x40 + (s[1] as int - 0x80);
  }

  function FourBytesValue(s: Text): int
    requires |s| == 4
  {
    (s[0] as int - 0xF0) * 0x4_0000 + (s[1] as int - 0x80) * 0x1000 + (s[2] as int - 0x80) * 0x40 + (s[3] as int - 0x80)
  }

  lemma FourBytes(s: Text)
    requires |s| == 4 && StartsWell(s) && Width(s[0]) == 4
    ensures var c := FourBytesValue(s);
            0x1_0000 <= c && IsScalar(c) && EncodeChar(c) == s
  {
    var c := FourBytesValue(s);
    assert c / 0x40 == (s[0] as int - 0xF0) * 0x1000 + (s[1] as int - 0x80) * 0x40 + (s[2] as int - 0x80);
    assert c / 0x1000 == (s[0] as int - 0xF0) * 0x40 + (s[1] as int - 0x80);
  }

  /** A whole character at the start is the encoding of one. */
  lemma FirstChar(s: Text) returns (c: nat)
    requires s != [] && StartsWell(s)
    ensures IsScalar(c) && EncodeChar(c) == s[..Width(s[0])]
  {
    var w := Width(s[0]);
    var first := s[..w];
    if w == 1 {
      c := s[0];
    } else if w == 2 {
      c := (s[0] as int - 0xC0) * 0x40 + (s[1] as int - 0x80);
      TwoBytes(first);
    } else if w == 3 {
      c := (s[0] as int - 0xE0) * 0x1000 + (s[1] as int - 0x80) * 0x40 + (s[2] as int - 0x80);
      ThreeBytes(first);
    } else {
      FourBytes(first);
      c := FourBytesValue(first);
    }
  }

  lemma {:induction false} EncodedIsUtf8(chars: seq<nat>)
    requires AllScalars(chars)
    ensures IsUtf8(EncodeAll(chars))
  {
    if chars != [] {
      CharStartsWell(chars[0]);
      EncodedIsUtf8(chars[1..]);
      hide EncodeChar;
      StartIsLocal(EncodeChar(chars[0]), EncodeAll(chars[1..]));
      assert EncodeChar(chars[0])[|EncodeChar(chars[0])|..] + EncodeAll(chars[1..]) == EncodeAll(chars[1..]);
    }
  }

  lemma {:induction false} Utf8IsEncoded(s: Text) returns (chars: seq<nat>)
    requires IsUtf8(s)
    ensures AllScalars(chars) && EncodeAll(chars) == s
  {
    if s == [] {
      chars := [];
    } else {
      var w := Width(s[0]);
      var c := FirstChar(s);
      var rest := Utf8IsEncoded(s[w..]);
      chars := [c] + rest;
      assert chars[1..] == rest && s == s[..w] + s[w..];
    }
  }

  /** A text is well-formed exactly when it encodes some characters. */
  lemma Utf8Iff(s: Text)
    ensures IsUtf8(s) <==> exists chars :: AllScalars(chars) && s == EncodeAll(chars)
  {
    if IsUtf8(s) {
      var chars := Utf8IsEncoded(s);
    }
    forall chars | AllScalars(chars) && s == EncodeAll(chars)
      ensures IsUtf8(s)
    {
      EncodedIsUtf8(chars);
    }
  }

  lemma StartIsLocal(s: Text, tail: Text)
    requires s != [] && StartsWell(s)
    ensures StartsWell(s + tail) && (s + tail)[Width(s[0])..] == s[Width(s[0])..] + tail
  {
  }

  lemma {:induction false} ConcatIsUtf8(a: Text, b: Text)
    requires IsUtf8(a) && IsUtf8(b)
    ensures IsUtf8(a + b)
  {
    if a == [] {
      assert a + b == b;
    } else {
      StartIsLocal(a, b);
      ConcatIsUtf8(a[Width(a[0])..], b);
    }
  }

  /** An ASCII byte is a character of its own, so cutting at it cuts no character. */
  lemma {:induction false} CutAtAscii(a: Text, cut: byte, b: Text)
    requires cut < 0x80
    ensures IsUtf8(a + [cut] + b) <==> IsUtf8(a) && IsUtf8(b)
  {
    var s := a + [cut] + b;
    if a == [] {
      assert s[1..] == b;
    } else if StartsWell(s) {
      assert Width(a[0]) <= |a| by {
        assert s[|a|] == cut && !IsContinuation(cut);
      }
      assert StartsWell(a);
      var rest := a[Width(a[0])..];
      assert s[Width(a[0])..] == rest + [cut] + b;
      CutAtAscii(rest, cut, b);
    } else {
      assert s == a + ([cut] + b);
      if StartsWell(a) {
        StartIsLocal(a, [cut] + b);
      }
    }
  }

  /** A dotted text is UTF-8 exactly when each of its labels is. */
  lemma {:induction false} JoinIsUtf8(labels: seq<Text>)
    ensures IsUtf8(Join(labels)) <==> forall part | part in labels :: IsUtf8(part)
  {
    if |labels| > 1 {
      JoinIsUtf8(labels[1..]);
      CutAtAscii(labels[0], DOT, Join(labels[1..]));
      assert labels == [labels[0]] + labels[1..];
    } else if |labels| == 1 {
      assert labels == [labels[0]];
    }
  }
}

/** Domain name validation (domain.rs). */
module DomainNames {
  import opened Outcomes
  import opened Labels
  import opened Utf8

  datatype DomainNameError = Empty | NonPrintableChar(offset: nat) | EmptyLabel

  /** A character of general category Cc, or the space. */
  predicate StartsUnprintable(s: Text)
    requires s != [] && StartsWell(s)
  {
    s[0] <= 0x20 || s[0] == 0x7F || (s[0] == 0xC2 && s[1] < 0xA0)
  }

  /** That is: U+0000 to U+0020, and U+007F to U+009F. */
  lemma UnprintableCharsAre(s: Text, c: nat)
    requires s != [] && StartsWell(s) && IsScalar(c) && EncodeChar(c) == s[..Width(s[0])]
    ensures StartsUnprintable(s) <==> c <= 0x20 || 0x7F <= c <= 0x9F
  {
    assert s[0] == EncodeChar(c)[0] && (Width(s[0]) > 1 ==> s[1] == EncodeChar(c)[1]);
  }

  /** The offset of the first unprintable character, scanning a text character by character. */
  function FirstUnprintable(s: Text): Option<nat>
    requires IsUtf8(s)
  {
    if s == [] then None
    else if StartsUnprintable(s) then Some(0)
    else
      match FirstUnprintable(s[Width(s[0])..])
      case None => None
      case Some(offset) => Some(Width(s[0]) + offset)
  }

  function NewDomain(raw: Text): Result<Text, DomainNameError>
    requires IsUtf8(raw)
  {
    if raw == [] then Err(Empty)
    else
      match FirstUnprintable(raw)
      case Some(offset) => Err(NonPrintableChar(offset))
      case None => if [] in Split(raw) then Err(EmptyLabel) else Ok(raw)
  }

  // ---------------------------------------------------------------- what a name is, byte by byte

  /** A byte that begins an unprintable character, wherever it stands in UTF-8 text. */
  predicate UnprintableAt(s: Text, i: nat)
    requires i < |s|
  {
    s[i] <= 0x20 || s[i] == 0x7F || (s[i] == 0xC2 && i + 1 < |s| && s[i + 1] < 0xA0)
  }

  ghost predicate AllPrintable(s: Text) {
    forall i | 0 <= i < |s| :: !UnprintableAt(s, i)
  }

  ghost predicate UnprintableFirstAt(s: Text, offset: nat) {
    offset < |s| && UnprintableAt(s, offset) && forall i | 0 <= i < offset :: !UnprintableAt(s, i)
  }

  lemma UnprintableInTail(s: Text, width: nat, i: nat)
    requires width <= i < |s|
    ensures UnprintableAt(s, i) <==> UnprintableAt(s[width..], i - width)
  {
  }

  /** The scan by characters finds the first such byte. */
  lemma {:induction false} FirstUnprintableIsFirst(s: Text)
    requires IsUtf8(s)
    ensures FirstUnprintable(s).None? ==> AllPrintable(s)
    ensures FirstUnprintable(s).Some? ==> UnprintableFirstAt(s, FirstUnprintable(s).value)
  {
    if s != [] && !StartsUnprintable(s) {
      var width := Width(s[0]);
      FirstUnprintableIsFirst(s[width..]);
      assert forall i | 0 <= i < width :: !UnprintableAt(s, i);
      forall i | width <= i < |s|
        ensures UnprintableAt(s, i) <==> UnprintableAt(s[width..], i - width)
      {
        UnprintableInTail(s, width, i);
      }
    }
  }

  ghost predicate DotsSeparate(s: Text) {
    && s != [] && s[0] != DOT && s[|s| - 1] != DOT
    && forall i | 0 <= i < |s| - 1 :: !(s[i] == DOT && s[i + 1] == DOT)
  }

  lemma {:induction false} LabelsNonemptyIffDotsSeparate(s: Text)
    ensures [] !in Split(s) <==> DotsSeparate(s)
  {
    if s == [] {
      assert Split(s)[0] == [];
    } else {
      var tail := s[1..];
      LabelsNonemptyIffDotsSeparate(tail);
      var rest := Split(tail);
      assert rest == [rest[0]] + rest[1..];
      assert tail == [] || tail[0] == DOT <==> rest[0] == [];
      assert s == [s[0]] + tail;
      if s[0] == DOT {
        assert Split(s)[0] == [];
      } else {
        assert [] in Split(s) <==> [] in rest[1..];
        LaterLabels(tail);
      }
    }
  }

  /** Whether the labels after the first are nonempty. */
  lemma {:induction false} LaterLabels(s: Text)
    ensures [] in Split(s)[1..] <==>
            exists i :: 0 <= i < |s| && s[i] == DOT && (i == |s| - 1 || s[i + 1] == DOT)
  {
    if s != [] {
      LaterLabels(s[1..]);
    }
  }

  ghost predicate IsAtFault(raw: Text, error: DomainNameError) {
    match error
    case Empty => raw == []
    case NonPrintableChar(offset) => UnprintableFirstAt(raw, offset)
    case EmptyLabel => raw != [] && AllPrintable(raw) && !DotsSeparate(raw)
  }

  /** A text is accepted, unchanged, exactly when it is printable and its dots separate nonempty
      labels; each error says what is wrong, the earlier test first. */
  lemma NewDomainDecides(raw: Text)
    requires IsUtf8(raw)
    ensures NewDomain(raw).Ok? ==> NewDomain(raw).value == raw && AllPrintable(raw) && DotsSeparate(raw)
    ensures NewDomain(raw).Err? ==> IsAtFault(raw, NewDomain(raw).error)
  {
    FirstUnprintableIsFirst(raw);
    LabelsNonemptyIffDotsSeparate(raw);
  }

  lemma AcceptedLabels(name: Text)
    requires IsUtf8(name) && NewDomain(name).Ok?
    ensures name != [] && [] !in Split(name)
    ensures forall part | part in Split(name) :: IsUtf8(part)
  {
    JoinSplit(name);
    JoinIsUtf8(Split(name));
  }
}
