/** The DNS queries that reverse lookups send, and the responses they accept (fcrdns.rs). */
module DnsMessages {
  import opened Bytes
  import opened Outcomes
  import opened Labels
  import opened Utf8
  import opened DomainNames
  import opened NameReader

  const TYPE_PTR: u16 := 12
  const CLASS_IN: u16 := 1
  const HEADER: nat := 12

  // ---------------------------------------------------------------- queries

  function Nonempty(labels: seq<Text>): (kept: seq<Text>)
    ensures forall part | part in kept :: part != [] && part in labels
  {
    if labels == [] then []
    else if labels[0] == [] then Nonempty(labels[1..])
    else [labels[0]] + Nonempty(labels[1..])
  }

  lemma {:induction false} NonemptyAppend(labels: seq<Text>, last: Text)
    ensures Nonempty(labels + [last]) == Nonempty(labels) + if last == [] then [] else [last]
  {
    if labels == [] {
    } else {
      assert (labels + [last])[1..] == labels[1..] + [last];
      NonemptyAppend(labels[1..], last);
    }
  }

  lemma {:induction false} NonemptyKeepsAll(labels: seq<Text>)
    requires [] !in labels
    ensures Nonempty(labels) == labels
  {
    if labels != [] {
      NonemptyKeepsAll(labels[1..]);
      assert labels == [labels[0]] + labels[1..];
    }
  }

  /** Each label after one octet of its length, which `as u8` truncates. */
  function EncodeLabels(labels: seq<Text>): seq<byte> {
    if labels == [] then [] else [|labels[0]| % 0x100] + labels[0] + EncodeLabels(labels[1..])
  }

  lemma {:induction false} EncodeLabelsAppend(labels: seq<Text>, last: Text)
    ensures EncodeLabels(labels + [last]) == EncodeLabels(labels) + [|last| % 0x100] + last
  {
    if labels == [] {
    } else {
      assert (labels + [last])[1..] == labels[1..] + [last];
      EncodeLabelsAppend(labels[1..], last);
    }
  }

  function Zeros(n: nat): seq<byte> {
    seq(n, _ => 0)
  }

  function QueryHeader(id: u16): (header: seq<byte>)
    ensures |header| == HEADER
  {
    ToBytes(id, 2) + ToBytes(0x0100, 2) + ToBytes(1, 2) + Zeros(6)
  }

  function QueryFor(id: u16, name: Text, qtype: u16): seq<byte> {
    QueryHeader(id) + EncodeLabels(Nonempty(Split(name))) + [0] + ToBytes(qtype, 2) + ToBytes(CLASS_IN, 2)
  }

  lemma OneMoreLabel(before: seq<byte>, labels: seq<Text>, i: nat)
    requires i < |labels|
    ensures before + EncodeLabels(Nonempty(labels[..i + 1]))
            == before + EncodeLabels(Nonempty(labels[..i]))
               + if labels[i] == [] then [] else [|labels[i]| % 0x100] + labels[i]
  {
    var encoded := EncodeLabels(Nonempty(labels[..i]));
    assert labels[..i + 1] == labels[..i] + [labels[i]];
    NonemptyAppend(labels[..i], labels[i]);
    if labels[i] == [] {
      assert Nonempty(labels[..i]) + [] == Nonempty(labels[..i]);
    } else {
      EncodeLabelsAppend(Nonempty(labels[..i]), labels[i]);
      assert before + (encoded + [|labels[i]| % 0x100] + labels[i])
          == before + encoded + ([|labels[i]| % 0x100] + labels[i]);
    }
  }

  method EncodeQuery(id: u16, name: Text, qtype: u16) returns (buf: seq<byte>)
    ensures buf == QueryFor(id, name, qtype)
  {
    buf := EncodeQueryLabels(QueryHeader(id), Split(name));
    buf := buf + [0];
    buf := buf + ToBytes(qtype, 2);
    buf := buf + ToBytes(CLASS_IN, 2);
  }

  /** The loop of `EncodeQuery`. */
  method EncodeQueryLabels(before: seq<byte>, labels: seq<Text>) returns (buf: seq<byte>)
    ensures buf == before + EncodeLabels(Nonempty(labels))
  {
    buf := before;
    for i := 0 to |labels|
      invariant buf == before + EncodeLabels(Nonempty(labels[..i]))
    {
      OneMoreLabel(before, labels, i);
      if labels[i] == [] {
        continue;
      }
      var encoded := buf;
      buf := buf + [|labels[i]| % 0x100];
      buf := buf + labels[i];
      assert buf == encoded + ([|labels[i]| % 0x100] + labels[i]);
    }
    assert labels[..|labels|] == labels;
  }

  ghost predicate Spelled(buf: seq<byte>, pos: nat, labels: seq<Text>) {
    Has(buf, pos, EncodeLabels(labels) + [0])
  }

  /** What stands at a position where labels are spelled. */
  lemma SpelledHead(buf: seq<byte>, pos: nat, labels: seq<Text>)
    requires Spelled(buf, pos, labels)
    ensures labels == [] ==> buf[pos] == 0
    ensures labels != [] ==>
              && buf[pos] == |labels[0]| % 0x100
              && pos + 1 + |labels[0]| < |buf|
              && buf[pos + 1..pos + 1 + |labels[0]|] == labels[0]
              && Spelled(buf, pos + 1 + |labels[0]|, labels[1..])
  {
    var whole := EncodeLabels(labels) + [0];
    HasPart(buf, pos, whole, 0, 1);
    assert buf[pos..pos + 1][0] == whole[0..1][0];
    if labels != [] {
      var n := |labels[0]|;
      var rest := EncodeLabels(labels[1..]) + [0];
      assert whole == [n % 0x100] + labels[0] + rest;
      HasPart(buf, pos, whole, 1, 1 + n);
      HasPart(buf, pos, whole, 1 + n, |whole|);
    }
  }

  /** Where spelled labels end. */
  function SpelledEnd(pos: nat, labels: seq<Text>): nat {
    pos + |EncodeLabels(labels)| + 1
  }

  lemma WalkPastLabel(buf: seq<byte>, pos: nat, jumps: nat, piece: Text, rest: seq<Text>, end: nat)
    requires pos + 1 + |piece| <= |buf| && buf[pos] == |piece| && 0 < |piece| < 0xC0
    requires buf[pos + 1..pos + 1 + |piece|] == piece
    ensures Walk(buf, pos, jumps) == Some(([piece] + rest, end))
            <==> Walk(buf, pos + 1 + |piece|, jumps) == Some((rest, end))
  {
    var walk := Walk(buf, pos + 1 + |piece|, jumps);
    if walk.Some? && [piece] + walk.value.0 == [piece] + rest {
      assert walk.value.0 == ([piece] + walk.value.0)[1..] == ([piece] + rest)[1..] == rest;
    }
  }

  /** Every label is short enough for the reader's length octet. */
  ghost predicate Fit(labels: seq<Text>) {
    forall part | part in labels :: |part| < 0xC0
  }

  lemma FirstFits(labels: seq<Text>)
    requires labels != []
    ensures Fit(labels) <==> |labels[0]| < 0xC0 && Fit(labels[1..])
  {
    assert labels == [labels[0]] + labels[1..];
  }

  lemma SpelledEndOfRest(pos: nat, labels: seq<Text>)
    requires labels != []
    ensures SpelledEnd(pos, labels) == SpelledEnd(pos + 1 + |labels[0]|, labels[1..])
  {
  }

  lemma ReadBackFirst(buf: seq<byte>, pos: nat, labels: seq<Text>, jumps: nat)
    requires labels != [] && 0 < |labels[0]| < 0xC0 && Spelled(buf, pos, labels)
    ensures Walk(buf, pos, jumps) == Some((labels, SpelledEnd(pos, labels)))
            <==> Walk(buf, pos + 1 + |labels[0]|, jumps)
                 == Some((labels[1..], SpelledEnd(pos + 1 + |labels[0]|, labels[1..])))
  {
    SpelledHead(buf, pos, labels);
    SpelledEndOfRest(pos, labels);
    hide Walk, EncodeLabels, Has, SpelledEnd;
    assert labels == [labels[0]] + labels[1..];
    WalkPastLabel(buf, pos, jumps, labels[0], labels[1..], SpelledEnd(pos, labels));
  }

  lemma SpelledRest(buf: seq<byte>, pos: nat, labels: seq<Text>)
    requires labels != [] && Spelled(buf, pos, labels) && [] !in labels
    ensures Spelled(buf, pos + 1 + |labels[0]|, labels[1..]) && [] !in labels[1..] && |labels[0]| > 0
  {
    SpelledHead(buf, pos, labels);
  }

  /** The reader returns the labels themselves, and where they end. */
  predicate ReadsBack(buf: seq<byte>, pos: nat, labels: seq<Text>, jumps: nat) {
    Walk(buf, pos, jumps) == Some((labels, SpelledEnd(pos, labels)))
  }

  lemma NothingReadsBack(buf: seq<byte>, pos: nat, jumps: nat)
    requires Spelled(buf, pos, [])
    ensures ReadsBack(buf, pos, [], jumps) && Fit([])
  {
    SpelledHead(buf, pos, []);
  }

  lemma ReadBackStep(buf: seq<byte>, pos: nat, labels: seq<Text>, jumps: nat)
    requires labels != [] && labels[0] != [] && Spelled(buf, pos, labels)
    requires ReadsBack(buf, pos + 1 + |labels[0]|, labels[1..], jumps) <==> Fit(labels[1..])
    ensures ReadsBack(buf, pos, labels, jumps) <==> Fit(labels)
  {
    FirstFits(labels);
    if |labels[0]| < 0xC0 {
      ReadBackFirst(buf, pos, labels, jumps);
    } else {
      OversizedIsMisread(buf, pos, labels, jumps);
    }
  }

  /** Spelled labels are read back exactly when all of them fit. */
  lemma {:induction false} ReadBackIff(buf: seq<byte>, pos: nat, labels: seq<Text>, jumps: nat)
    requires Spelled(buf, pos, labels) && [] !in labels
    ensures ReadsBack(buf, pos, labels, jumps) <==> Fit(labels)
    decreases |labels|
  {
    if labels == [] {
      NothingReadsBack(buf, pos, jumps);
    } else {
      SpelledRest(buf, pos, labels);
      ReadBackIff(buf, pos + 1 + |labels[0]|, labels[1..], jumps);
      ReadBackStep(buf, pos, labels, jumps);
    }
  }

  lemma OversizedIsMisread(buf: seq<byte>, pos: nat, labels: seq<Text>, jumps: nat)
    requires labels != [] && |labels[0]| >= 0xC0 && Spelled(buf, pos, labels)
    ensures Walk(buf, pos, jumps) != Some((labels, SpelledEnd(pos, labels)))
  {
    SpelledHead(buf, pos, labels);
    var walk := Walk(buf, pos, jumps);
    if walk.Some? && 0 < buf[pos] < 0xC0 {
      assert walk.value.0[0] == buf[pos + 1..pos + 1 + buf[pos]];
      assert |walk.value.0[0]| < 0xC0;
    }
  }

  lemma QuerySpells(id: u16, name: Text, qtype: u16)
    ensures Spelled(QueryFor(id, name, qtype), HEADER, Nonempty(Split(name)))
  {
    var labels := Nonempty(Split(name));
    var tail := ToBytes(qtype, 2) + ToBytes(CLASS_IN, 2);
    var query := QueryFor(id, name, qtype);
    assert query == QueryHeader(id) + (EncodeLabels(labels) + [0]) + tail;
    HasMiddle(QueryHeader(id), EncodeLabels(labels) + [0], tail);
  }

  /** Around the name: the identifier, recursion desired and no other bit, one question and nothing else;
      and after it the type asked for, in class IN, to the end of the message. */
  lemma QueryAsksOneQuestion(id: u16, name: Text, qtype: u16)
    ensures var query := QueryFor(id, name, qtype);
            && |query| >= 17 && U16At(query, 0) == id && U16At(query, 2) == 0x0100 && U16At(query, 4) == 1
            && U16At(query, 6) == 0 && U16At(query, 8) == 0 && U16At(query, 10) == 0
            && U16At(query, |query| - 4) == qtype && U16At(query, |query| - 2) == 1
  {
    hide ToBytes, FromBytes, EncodeLabels, Nonempty, Split;
    var query, body := QueryFor(id, name, qtype), EncodeLabels(Nonempty(Split(name))) + [0];
    var tail := ToBytes(qtype, 2) + ToBytes(CLASS_IN, 2);
    var head := ToBytes(id, 2) + ToBytes(0x0100, 2) + ToBytes(1, 2);
    assert ToBytes(0, 2) == [0, 0] by { TwoZeros(); }
    assert query == head + Zeros(6) + body + tail;
    assert query[0..2] == ToBytes(id, 2) && query[2..4] == ToBytes(0x0100, 2) && query[4..6] == ToBytes(1, 2);
    assert query[6..8] == [0, 0] && query[8..10] == [0, 0] && query[10..12] == [0, 0];
    assert query[|query| - 4..|query| - 2] == ToBytes(qtype, 2) && query[|query| - 2..|query|] == ToBytes(CLASS_IN, 2);
    hide QueryFor, Zeros;
    U16Read(query, 0, id);
    U16Read(query, 2, 0x0100);
    U16Read(query, 4, 1);
    U16Read(query, 6, 0);
    U16Read(query, 8, 0);
    U16Read(query, 10, 0);
    U16Read(query, |query| - 4, qtype);
    U16Read(query, |query| - 2, 1);
  }

  lemma TwoZeros()
    ensures ToBytes(0, 2) == [0, 0]
  {
    assert ToBytes(0, 1) == [0];
  }

  /** A query's own name reads back, label by label and ending where its QTYPE starts, exactly when no
      label is longer than 191 bytes; section 2.3.4 of RFC 1035 asks for no more than 63. */
  lemma QueryReadsBackIff(id: u16, name: Text, qtype: u16)
    ensures var query := QueryFor(id, name, qtype);
            Walk(query, 12, MAX_JUMPS) == Some((Nonempty(Split(name)), |query| - 4))
            <==> Fit(Split(name))
  {
    QuerySpells(id, name, qtype);
    ReadBackIff(QueryFor(id, name, qtype), HEADER, Nonempty(Split(name)), MAX_JUMPS);
    NonemptyLoses(Split(name));
  }

  lemma {:induction false} NonemptyLoses(labels: seq<Text>)
    ensures forall part | part in labels && part != [] :: part in Nonempty(labels)
  {
    if labels != [] {
      NonemptyLoses(labels[1..]);
    }
  }

  ghost predicate KeepsUtf8(lossy: Text -> Text) {
    forall text | IsUtf8(text) :: lossy(text) == text
  }

  lemma {:induction false} TextsOfUtf8(labels: seq<Text>, lossy: Text -> Text)
    requires KeepsUtf8(lossy) && forall part | part in labels :: IsUtf8(part)
    ensures Texts(labels, lossy) == labels
  {
    if labels != [] {
      TextsOfUtf8(labels[1..], lossy);
      assert labels[0] in labels && labels == [labels[0]] + labels[1..];
    }
  }

  /** Reading the name of a query undoes encoding it. */
  lemma ReadInvertsEncode(id: u16, name: Text, qtype: u16, lossy: Text -> Text)
    requires IsUtf8(name) && KeepsUtf8(lossy) && DotsSeparate(name)
    requires Fit(Split(name))
    ensures NameAt(QueryFor(id, name, qtype), 12, lossy) == Some((name, |QueryFor(id, name, qtype)| - 4))
  {
    QueryReadsBackIff(id, name, qtype);
    LabelsNonemptyIffDotsSeparate(name);
    NonemptyKeepsAll(Split(name));
    JoinSplit(name);
    JoinIsUtf8(Split(name));
    TextsOfUtf8(Split(name), lossy);
  }

  // ---------------------------------------------------------------- responses

  /** The TYPE and RDATA of one answer; the RDATA of a PTR record is the text of its name. */
  type Answer = (u16, seq<byte>)

  function AnswerAt(buf: seq<byte>, pos: nat, lossy: Text -> Text): Option<(Answer, nat)> {
    match NameAt(buf, pos, lossy)
    case None => None
    case Some((_, next)) =>
      if next + 10 > |buf| then None
      else
        var rtype, start := U16At(buf, next), next + 10;
        var end := start + U16At(buf, next + 8);
        if rtype == TYPE_PTR then
          match NameAt(buf, start, lossy)
          case None => None
          case Some((name, _)) => Some(((rtype, name), end))
        else if end > |buf| then None
        else Some(((rtype, buf[start..end]), end))
  }

  function SkipQuestions(buf: seq<byte>, pos: nat, n: nat, lossy: Text -> Text): Option<nat>
    decreases n
  {
    if n == 0 then Some(pos)
    else
      match NameAt(buf, pos, lossy)
      case None => None
      case Some((_, next)) => SkipQuestions(buf, next + 4, n - 1, lossy)
  }

  function AnswersAt(buf: seq<byte>, pos: nat, n: nat, lossy: Text -> Text): Option<seq<Answer>>
    decreases n
  {
    if n == 0 then Some([])
    else
      match AnswerAt(buf, pos, lossy)
      case None => None
      case Some((answer, next)) =>
        match AnswersAt(buf, next, n - 1, lossy)
        case None => None
        case Some(more) => Some([answer] + more)
  }

  function Response(buf: seq<byte>, expectedId: u16, lossy: Text -> Text): Option<seq<Answer>> {
    if |buf| < HEADER || U16At(buf, 0) != expectedId then None
    else if U16At(buf, 2) / 0x8000 != 1 || U16At(buf, 2) % 0x10 != 0 then Some([])
    else
      match SkipQuestions(buf, HEADER, U16At(buf, 4), lossy)
      case None => None
      case Some(pos) => AnswersAt(buf, pos, U16At(buf, 6), lossy)
  }

  lemma ExtendAnswers(answers: seq<Answer>, answer: Answer, more: Option<seq<Answer>>)
    ensures Extended(answers, match more case None => None case Some(rest) => Some([answer] + rest))
            == Extended(answers + [answer], more)
  {
    if more.Some? {
      assert answers + ([answer] + more.value) == answers + [answer] + more.value;
    }
  }

  function Extended(answers: seq<Answer>, more: Option<seq<Answer>>): Option<seq<Answer>> {
    if more.Some? then Some(answers + more.value) else None
  }

  lemma ExtendNothing(more: Option<seq<Answer>>)
    ensures Extended([], more) == more
  {
    if more.Some? {
      assert [] + more.value == more.value;
    }
  }

  method ParseAnswer(buf: seq<byte>, pos: nat, lossy: Text -> Text) returns (parsed: Option<(Answer, nat)>)
    ensures parsed == AnswerAt(buf, pos, lossy)
  {
    var owner := ReadName(buf, pos, lossy);
    if owner.None? {
      return None;
    }
    var next := owner.value.1;
    if next + 10 > |buf| {
      return None;
    }
    var rtype, rdataStart := U16At(buf, next), next + 10;
    var end := rdataStart + U16At(buf, next + 8);
    if rtype == TYPE_PTR {
      var target := ReadName(buf, rdataStart, lossy);
      if target.None? {
        return None;
      }
      return Some(((rtype, target.value.0), end));
    }
    if end > |buf| {
      return None;
    }
    return Some(((rtype, buf[rdataStart..end]), end));
  }

  method ParseAnswers(buf: seq<byte>, start: nat, count: nat, lossy: Text -> Text) returns (parsed: Option<seq<Answer>>)
    ensures parsed == AnswersAt(buf, start, count, lossy)
  {
    var pos: nat := start;
    var answers: seq<Answer> := [];
    ExtendNothing(AnswersAt(buf, start, count, lossy));
    for i := 0 to count
      invariant AnswersAt(buf, start, count, lossy) == Extended(answers, AnswersAt(buf, pos, count - i, lossy))
    {
      var answer := ParseAnswer(buf, pos, lossy);
      if answer.None? {
        return None;
      }
      ExtendAnswers(answers, answer.value.0, AnswersAt(buf, answer.value.1, count - i - 1, lossy));
      answers := answers + [answer.value.0];
      pos := answer.value.1;
    }
    assert AnswersAt(buf, pos, 0, lossy) == Some([]) && answers + [] == answers;
    return Some(answers);
  }

  method SkipAll(buf: seq<byte>, start: nat, count: nat, lossy: Text -> Text) returns (end: Option<nat>)
    ensures end == SkipQuestions(buf, start, count, lossy)
  {
    var pos: nat := start;
    for i := 0 to count
      invariant SkipQuestions(buf, start, count, lossy) == SkipQuestions(buf, pos, count - i, lossy)
    {
      var name := ReadName(buf, pos, lossy);
      if name.None? {
        return None;
      }
      pos := name.value.1 + 4;
    }
    return Some(pos);
  }

  method ParseResponse(buf: seq<byte>, expectedId: u16, lossy: Text -> Text) returns (parsed: Option<seq<Answer>>)
    ensures parsed == Response(buf, expectedId, lossy)
  {
    if |buf| < HEADER || U16At(buf, 0) != expectedId {
      return None;
    }
    var flags := U16At(buf, 2);
    if flags / 0x8000 != 1 || flags % 0x10 != 0 {
      return Some([]);
    }
    var start := SkipAll(buf, HEADER, U16At(buf, 4), lossy);
    if start.None? {
      return None;
    }
    parsed := ParseAnswers(buf, start.value, U16At(buf, 6), lossy);
  }

  // ---------------------------------------------------------------- what the parser accepts

  /** What the parser takes for an answer: the data of a PTR record is the name that starts where its
      data starts, wherever that name ends; other data are the octets counted. */
  datatype Found =
    | FoundName(owner: Derivation, length: u16, target: Derivation)
    | FoundData(owner: Derivation, rtype: u16, data: seq<byte>)

  /** A name the reader follows all the way. */
  ghost predicate Readable(buf: seq<byte>, pos: nat, d: Derivation) {
    Derives(buf, pos, d) && PointersOf(d) <= MAX_JUMPS
  }

  function LengthOf(f: Found): nat {
    match f
    case FoundName(_, length, _) => length
    case FoundData(_, _, data) => |data|
  }

  function FoundEnd(pos: nat, f: Found): nat {
    EndOf(f.owner, pos) + 10 + LengthOf(f)
  }

  /** Ten octets follow the owner's name: TYPE at the first, where 12 is PTR, RDLENGTH at the ninth; CLASS
      and TTL, in between, are not looked at. */
  ghost predicate Lies(buf: seq<byte>, pos: nat, f: Found) {
    var at := EndOf(f.owner, pos);
    && Readable(buf, pos, f.owner)
    && at + 10 <= |buf| && U16At(buf, at + 8) == LengthOf(f)
    && match f
       case FoundName(_, _, target) => U16At(buf, at) == 12 && Readable(buf, at + 10, target)
       case FoundData(_, rtype, data) => U16At(buf, at) == rtype != 12 && Has(buf, at + 10, data)
  }

  ghost predicate AllLie(buf: seq<byte>, pos: nat, founds: seq<Found>)
    decreases |founds|
  {
    founds == [] || (Lies(buf, pos, founds[0]) && AllLie(buf, FoundEnd(pos, founds[0]), founds[1..]))
  }

  /** Where the questions end, each a name and four octets that need not be there. */
  function QuestionsEnd(pos: nat, names: seq<Derivation>): nat
    decreases |names|
  {
    if names == [] then pos else QuestionsEnd(EndOf(names[0], pos) + 4, names[1..])
  }

  ghost predicate Asked(buf: seq<byte>, pos: nat, names: seq<Derivation>)
    decreases |names|
  {
    names == [] || (Readable(buf, pos, names[0]) && Asked(buf, EndOf(names[0], pos) + 4, names[1..]))
  }

  function AnswerOf(f: Found, lossy: Text -> Text): Answer {
    match f
    case FoundName(_, _, target) => (12, Join(Texts(LabelsOf(target), lossy)))
    case FoundData(_, rtype, data) => (rtype, data)
  }

  function AnswersOf(founds: seq<Found>, lossy: Text -> Text): (answers: seq<Answer>)
    ensures |answers| == |founds|
  {
    if founds == [] then [] else [AnswerOf(founds[0], lossy)] + AnswersOf(founds[1..], lossy)
  }

  /** The message says that it answers without error. */
  predicate Succeeds(buf: seq<byte>)
    requires |buf| >= 12
  {
    U16At(buf, 2) >= 0x8000 && U16At(buf, 2) % 0x10 == 0
  }

  /** The counted questions and answers lie one after another. */
  ghost predicate Lists(buf: seq<byte>, names: seq<Derivation>, founds: seq<Found>) {
    && |buf| >= 12 && U16At(buf, 4) == |names| && U16At(buf, 6) == |founds|
    && Asked(buf, 12, names) && AllLie(buf, QuestionsEnd(12, names), founds)
  }

  /** The query's identifier, and no answers when the message does not succeed, else those listed. */
  ghost predicate Accepted(buf: seq<byte>, id: u16, answers: seq<Answer>, lossy: Text -> Text) {
    && |buf| >= 12 && U16At(buf, 0) == id
    && if Succeeds(buf) then exists names, founds :: Lists(buf, names, founds) && answers == AnswersOf(founds, lossy)
       else answers == []
  }

  lemma NameIsRead(buf: seq<byte>, pos: nat, d: Derivation, lossy: Text -> Text)
    requires Readable(buf, pos, d)
    ensures NameAt(buf, pos, lossy) == Some((Join(Texts(LabelsOf(d), lossy)), EndOf(d, pos)))
  {
    WalkReads(buf, pos, MAX_JUMPS, d);
  }

  lemma NameIsFound(buf: seq<byte>, pos: nat, lossy: Text -> Text) returns (d: Derivation)
    requires NameAt(buf, pos, lossy).Some?
    ensures Readable(buf, pos, d)
    ensures NameAt(buf, pos, lossy) == Some((Join(Texts(LabelsOf(d), lossy)), EndOf(d, pos)))
  {
    d := WalkFinds(buf, pos, MAX_JUMPS);
    NameIsRead(buf, pos, d, lossy);
  }

  lemma FoundIsRead(buf: seq<byte>, pos: nat, f: Found, lossy: Text -> Text)
    requires Lies(buf, pos, f)
    ensures AnswerAt(buf, pos, lossy) == Some((AnswerOf(f, lossy), FoundEnd(pos, f)))
  {
    hide Readable, NameAt, U16At, LabelsOf, Texts, Join;
    NameIsRead(buf, pos, f.owner, lossy);
    if f.FoundName? {
      NameIsRead(buf, EndOf(f.owner, pos) + 10, f.target, lossy);
    }
  }

  lemma AnswerIsFound(buf: seq<byte>, pos: nat, lossy: Text -> Text) returns (f: Found)
    requires AnswerAt(buf, pos, lossy).Some?
    ensures Lies(buf, pos, f)
    ensures AnswerAt(buf, pos, lossy) == Some((AnswerOf(f, lossy), FoundEnd(pos, f)))
  {
    hide Readable, NameAt, U16At, LabelsOf, Texts, Join;
    var owner := NameIsFound(buf, pos, lossy);
    var at := EndOf(owner, pos);
    if U16At(buf, at) == TYPE_PTR {
      var target := NameIsFound(buf, at + 10, lossy);
      f := FoundName(owner, U16At(buf, at + 8), target);
    } else {
      f := FoundData(owner, U16At(buf, at), buf[at + 10..at + 10 + U16At(buf, at + 8)]);
    }
    FoundIsRead(buf, pos, f, lossy);
  }

  lemma {:induction false} AllAreRead(buf: seq<byte>, pos: nat, founds: seq<Found>, lossy: Text -> Text)
    requires AllLie(buf, pos, founds)
    ensures AnswersAt(buf, pos, |founds|, lossy) == Some(AnswersOf(founds, lossy))
    decreases |founds|
  {
    hide Lies, AnswerAt, AnswerOf, FoundEnd;
    if founds != [] {
      FoundIsRead(buf, pos, founds[0], lossy);
      AllAreRead(buf, FoundEnd(pos, founds[0]), founds[1..], lossy);
    }
  }

  lemma {:induction false} AllAreFound(buf: seq<byte>, pos: nat, n: nat, lossy: Text -> Text) returns (founds: seq<Found>)
    requires AnswersAt(buf, pos, n, lossy).Some?
    ensures |founds| == n && AllLie(buf, pos, founds)
    decreases n
  {
    hide Lies, AnswerAt, AnswerOf, FoundEnd;
    if n == 0 {
      founds := [];
    } else {
      var first := AnswerIsFound(buf, pos, lossy);
      var rest := AllAreFound(buf, FoundEnd(pos, first), n - 1, lossy);
      founds := [first] + rest;
      assert founds[1..] == rest;
    }
  }

  lemma {:induction false} AskedAreSkipped(buf: seq<byte>, pos: nat, names: seq<Derivation>, lossy: Text -> Text)
    requires Asked(buf, pos, names)
    ensures SkipQuestions(buf, pos, |names|, lossy) == Some(QuestionsEnd(pos, names))
    decreases |names|
  {
    hide Readable, NameAt;
    if names != [] {
      NameIsRead(buf, pos, names[0], lossy);
      AskedAreSkipped(buf, EndOf(names[0], pos) + 4, names[1..], lossy);
    }
  }

  lemma {:induction false} SkippedWereAsked(buf: seq<byte>, pos: nat, n: nat, lossy: Text -> Text) returns (names: seq<Derivation>)
    requires SkipQuestions(buf, pos, n, lossy).Some?
    ensures |names| == n && Asked(buf, pos, names)
    decreases n
  {
    hide Readable, NameAt;
    if n == 0 {
      names := [];
    } else {
      var first := NameIsFound(buf, pos, lossy);
      var rest := SkippedWereAsked(buf, EndOf(first, pos) + 4, n - 1, lossy);
      names := [first] + rest;
      assert names[1..] == rest;
    }
  }

  lemma SuccessBits(flags: u16)
    ensures flags / 0x8000 == 1 && flags % 0x10 == 0 <==> flags >= 0x8000 && flags % 0x10 == 0
  {
  }

  lemma ListsAreRead(buf: seq<byte>, id: u16, names: seq<Derivation>, founds: seq<Found>, lossy: Text -> Text)
    requires Lists(buf, names, founds) && U16At(buf, 0) == id && Succeeds(buf)
    ensures Response(buf, id, lossy) == Some(AnswersOf(founds, lossy))
  {
    hide U16At, Asked, AllLie, AnswersAt, SkipQuestions;
    SuccessBits(U16At(buf, 2));
    AskedAreSkipped(buf, HEADER, names, lossy);
    AllAreRead(buf, QuestionsEnd(HEADER, names), founds, lossy);
  }

  lemma ReadListsExist(buf: seq<byte>, id: u16, lossy: Text -> Text) returns (names: seq<Derivation>, founds: seq<Found>)
    requires Response(buf, id, lossy).Some? && |buf| >= HEADER && Succeeds(buf)
    ensures Lists(buf, names, founds) && U16At(buf, 0) == id
  {
    hide U16At, Asked, AllLie, AnswersAt, SkipQuestions;
    SuccessBits(U16At(buf, 2));
    names := SkippedWereAsked(buf, HEADER, U16At(buf, 4), lossy);
    AskedAreSkipped(buf, HEADER, names, lossy);
    founds := AllAreFound(buf, QuestionsEnd(HEADER, names), U16At(buf, 6), lossy);
  }

  /** The parser accepts exactly these messages, with exactly these answers. */
  lemma ParsesExactlyTheAccepted(buf: seq<byte>, id: u16, answers: seq<Answer>, lossy: Text -> Text)
    ensures Response(buf, id, lossy) == Some(answers) <==> Accepted(buf, id, answers, lossy)
  {
    hide U16At, Lists;
    if |buf| >= HEADER {
      SuccessBits(U16At(buf, 2));
      if Succeeds(buf) {
        if Response(buf, id, lossy).Some? {
          var names, founds := ReadListsExist(buf, id, lossy);
          ListsAreRead(buf, id, names, founds, lossy);
        }
        forall names, founds | Lists(buf, names, founds) && U16At(buf, 0) == id
          ensures Response(buf, id, lossy) == Some(AnswersOf(founds, lossy))
        {
          ListsAreRead(buf, id, names, founds, lossy);
        }
      }
    }
  }

  /** A response that is accepted with any answers carries the query's identifier, says it is a
      response without error, and announces exactly as many answers as are returned. */
  lemma AcceptedResponsesAreOurs(buf: seq<byte>, id: u16, lossy: Text -> Text)
    requires Response(buf, id, lossy).Some? && Response(buf, id, lossy).value != []
    ensures |buf| >= 12 && U16At(buf, 0) == id
    ensures U16At(buf, 2) >= 0x8000 && U16At(buf, 2) % 0x10 == 0
    ensures |Response(buf, id, lossy).value| == U16At(buf, 6)
  {
    hide U16At, Lists;
    ParsesExactlyTheAccepted(buf, id, Response(buf, id, lossy).value, lossy);
    var names, founds :| Lists(buf, names, founds) && Response(buf, id, lossy).value == AnswersOf(founds, lossy);
    assert U16At(buf, 6) == |founds| by { ListsCount(buf, names, founds); }
  }

  lemma ListsCount(buf: seq<byte>, names: seq<Derivation>, founds: seq<Found>)
    requires Lists(buf, names, founds)
    ensures |buf| >= 12 && U16At(buf, 6) == |founds|
  {
  }

  // ---------------------------------------------------------------- section 4.1 of RFC 1035

  datatype Question = Question(name: Derivation, qtype: u16, qclass: u16)

  /** A resource record; `target` is the name that is the whole RDATA of a PTR record. */
  datatype Resource = Resource(
    owner: Derivation, rtype: u16, rclass: u16, ttl: u32, rdata: seq<byte>, target: Derivation)

  /** A name of the standard that the reader follows all the way. */
  ghost predicate Names(buf: seq<byte>, pos: nat, d: Derivation) {
    IsName(buf, pos, d) && PointersOf(d) <= MAX_JUMPS
  }

  function FixedPart(r: Resource): seq<byte> {
    ToBytes(r.rtype, 2) + ToBytes(r.rclass, 2) + ToBytes(r.ttl, 4) + ToBytes(|r.rdata|, 2)
  }

  ghost predicate HoldsResource(buf: seq<byte>, pos: nat, r: Resource) {
    var at := EndOf(r.owner, pos);
    && Names(buf, pos, r.owner) && |r.rdata| < 0x1_0000
    && Has(buf, at, FixedPart(r)) && Has(buf, at + 10, r.rdata)
    && (r.rtype == 12 ==> Names(buf, at + 10, r.target) && EndOf(r.target, at + 10) == at + 10 + |r.rdata|)
  }

  ghost predicate HoldsQuestion(buf: seq<byte>, pos: nat, q: Question) {
    Names(buf, pos, q.name) && Has(buf, EndOf(q.name, pos), ToBytes(q.qtype, 2) + ToBytes(q.qclass, 2))
  }

  ghost predicate HoldsQuestions(buf: seq<byte>, pos: nat, questions: seq<Question>)
    decreases |questions|
  {
    questions == [] || (HoldsQuestion(buf, pos, questions[0])
                        && HoldsQuestions(buf, EndOf(questions[0].name, pos) + 4, questions[1..]))
  }

  ghost predicate HoldsResources(buf: seq<byte>, pos: nat, resources: seq<Resource>)
    decreases |resources|
  {
    resources == [] || (HoldsResource(buf, pos, resources[0])
                        && HoldsResources(buf, EndOf(resources[0].owner, pos) + 10 + |resources[0].rdata|, resources[1..]))
  }

  function Asking(questions: seq<Question>): (names: seq<Derivation>)
    ensures |names| == |questions|
  {
    if questions == [] then [] else [questions[0].name] + Asking(questions[1..])
  }

  function FoundFor(r: Resource): Found
    requires |r.rdata| < 0x1_0000
  {
    if r.rtype == 12 then FoundName(r.owner, |r.rdata|, r.target) else FoundData(r.owner, r.rtype, r.rdata)
  }

  function MeantBy(r: Resource, lossy: Text -> Text): Answer {
    (r.rtype, if r.rtype == 12 then Join(Texts(LabelsOf(r.target), lossy)) else r.rdata)
  }

  function AllMeantBy(resources: seq<Resource>, lossy: Text -> Text): seq<Answer> {
    if resources == [] then [] else [MeantBy(resources[0], lossy)] + AllMeantBy(resources[1..], lossy)
  }

  /** A successful response to the query `id`, whatever follows its answers. */
  ghost predicate HoldsResponse(buf: seq<byte>, id: u16, flags: u16, questions: seq<Question>, answers: seq<Resource>) {
    && |buf| >= 12 && |questions| < 0x1_0000 && |answers| < 0x1_0000
    && Has(buf, 0, ToBytes(id, 2)) && Has(buf, 2, ToBytes(flags, 2))
    && flags >= 0x8000 && flags % 0x10 == 0
    && Has(buf, 4, ToBytes(|questions|, 2)) && Has(buf, 6, ToBytes(|answers|, 2))
    && HoldsQuestions(buf, 12, questions)
    && HoldsResources(buf, QuestionsEnd(12, Asking(questions)), answers)
  }

  lemma NamesAreReadable(buf: seq<byte>, pos: nat, d: Derivation)
    requires Names(buf, pos, d)
    ensures Readable(buf, pos, d)
  {
    SpelledIsRead(buf, pos, d);
  }

  lemma FixedPartIsRead(buf: seq<byte>, at: nat, r: Resource)
    requires Has(buf, at, FixedPart(r)) && |r.rdata| < 0x1_0000
    ensures at + 10 <= |buf| && U16At(buf, at) == r.rtype && U16At(buf, at + 8) == |r.rdata|
  {
    hide ToBytes, FromBytes;
    var rtype, rclass, ttl, length := ToBytes(r.rtype, 2), ToBytes(r.rclass, 2), ToBytes(r.ttl, 4), ToBytes(|r.rdata|, 2);
    HasBoth(buf, at, rtype + rclass + ttl, length);
    HasBoth(buf, at, rtype + rclass, ttl);
    HasBoth(buf, at, rtype, rclass);
    U16Read(buf, at, r.rtype);
    U16Read(buf, at + 8, |r.rdata|);
  }

  lemma ResourceLies(buf: seq<byte>, pos: nat, r: Resource)
    requires HoldsResource(buf, pos, r)
    ensures Lies(buf, pos, FoundFor(r)) && FoundEnd(pos, FoundFor(r)) == EndOf(r.owner, pos) + 10 + |r.rdata|
  {
    hide Names, Readable, FixedPart, U16At;
    NamesAreReadable(buf, pos, r.owner);
    FixedPartIsRead(buf, EndOf(r.owner, pos), r);
    if r.rtype == TYPE_PTR {
      NamesAreReadable(buf, EndOf(r.owner, pos) + 10, r.target);
    }
  }

  lemma {:induction false} ResourcesLie(buf: seq<byte>, pos: nat, resources: seq<Resource>, lossy: Text -> Text)
    returns (founds: seq<Found>)
    requires HoldsResources(buf, pos, resources)
    ensures |founds| == |resources| && AllLie(buf, pos, founds) && AnswersOf(founds, lossy) == AllMeantBy(resources, lossy)
    decreases |resources|
  {
    hide HoldsResource, Lies, FoundEnd, Names;
    if resources == [] {
      founds := [];
    } else {
      var first := resources[0];
      assert HoldsResource(buf, pos, first) && |first.rdata| < 0x1_0000 by { ResourceIsShort(buf, pos, first); }
      ResourceLies(buf, pos, first);
      var rest := ResourcesLie(buf, EndOf(first.owner, pos) + 10 + |first.rdata|, resources[1..], lossy);
      founds := [FoundFor(first)] + rest;
      assert founds[1..] == rest;
    }
  }

  lemma ResourceIsShort(buf: seq<byte>, pos: nat, r: Resource)
    requires HoldsResource(buf, pos, r)
    ensures |r.rdata| < 0x1_0000
  {
  }

  lemma {:induction false} QuestionsAreAsked(buf: seq<byte>, pos: nat, questions: seq<Question>)
    requires HoldsQuestions(buf, pos, questions)
    ensures Asked(buf, pos, Asking(questions))
    decreases |questions|
  {
    hide Names, Readable, ToBytes;
    if questions != [] {
      NamesAreReadable(buf, pos, questions[0].name);
      QuestionsAreAsked(buf, EndOf(questions[0].name, pos) + 4, questions[1..]);
      assert Asking(questions)[1..] == Asking(questions[1..]);
    }
  }

  /** Every well-formed successful response is read as its answers, however its names are
      compressed and whatever else follows. */
  lemma WellFormedResponsesAreRead(buf: seq<byte>, id: u16, flags: u16, questions: seq<Question>,
                                   answers: seq<Resource>, lossy: Text -> Text)
    requires HoldsResponse(buf, id, flags, questions, answers)
    ensures Response(buf, id, lossy) == Some(AllMeantBy(answers, lossy))
  {
    hide ToBytes, FromBytes, HoldsQuestions, HoldsResources, Asked, AllLie, Response;
    U16Read(buf, 0, id);
    U16Read(buf, 2, flags);
    U16Read(buf, 4, |questions|);
    U16Read(buf, 6, |answers|);
    QuestionsAreAsked(buf, HEADER, questions);
    var founds := ResourcesLie(buf, QuestionsEnd(HEADER, Asking(questions)), answers, lossy);
    ListsAreRead(buf, id, Asking(questions), founds, lossy);
  }
}
