/** Building native lookup responses, and a reader that follows their length fields (dns.rs). */
module NativeResponses {
  import opened Bytes
  import opened Outcomes
  import opened Identity
  import opened Labels
  import opened Utf8
  import opened DomainNames
  import opened NativeCodec

  const SPACE: byte := 0x20
  const CHUNK: nat := 255
  const QR_AA: u16 := 0x8400
  const NXDOMAIN: u16 := 3
  const CLASS_IN: u16 := 1

  /** How the standard library reads addresses and numbers out of text. */
  datatype TextParsers = TextParsers(
    ipv4: Text -> Option<seq<byte>>,
    ipv6: Text -> Option<seq<byte>>,
    preference: Text -> Option<u16>)

  function TypeCode(t: RecordType): u16 {
    match t
    case A => 1
    case Ns => 2
    case Cname => 5
    case Mx => 15
    case Txt => 16
    case Aaaa => 28
  }

  /** The type that a code means: section 3.2.2 of RFC 1035 and section 2.1 of RFC 3596. */
  function TypeOf(code: u16): Option<RecordType> {
    if code == 1 then Some(A)
    else if code == 2 then Some(Ns)
    else if code == 5 then Some(Cname)
    else if code == 15 then Some(Mx)
    else if code == 16 then Some(Txt)
    else if code == 28 then Some(Aaaa)
    else None
  }

  lemma TypesAreDistinguished(code: u16, t: RecordType)
    ensures TypeOf(code) == Some(t) <==> code == TypeCode(t)
  {
  }

  // ---------------------------------------------------------------- RDATA

  function TxtBytes(value: Text): seq<byte> {
    if value == [] then []
    else if |value| <= CHUNK then [|value|] + value
    else [CHUNK] + value[..CHUNK] + TxtBytes(value[CHUNK..])
  }

  /** The value at the first space, if there is one: what precedes it and what follows it. */
  function SplitOnce(value: Text): Option<(Text, Text)> {
    if value == [] then None
    else if value[0] == SPACE then Some(([], value[1..]))
    else
      match SplitOnce(value[1..])
      case None => None
      case Some((head, tail)) => Some(([value[0]] + head, tail))
  }

  lemma {:induction false} SplitOnceCuts(value: Text)
    ensures SplitOnce(value).None? <==> SPACE !in value
    ensures SplitOnce(value).Some? ==>
              var (head, tail) := SplitOnce(value).value;
              value == head + [SPACE] + tail && SPACE !in head
  {
    if value != [] {
      SplitOnceCuts(value[1..]);
      assert value == [value[0]] + value[1..];
    }
  }

  /** The preference and the exchange of an MX value; the preference is 0 if none is readable. */
  function Exchange(parsers: TextParsers, value: Text): (u16, Text) {
    match SplitOnce(value)
    case None => (0, value)
    case Some((head, tail)) =>
      match parsers.preference(head)
      case None => (0, value)
      case Some(preference) => (preference, tail)
  }

  /** What a mail exchange value says: a number before its first space and the exchange after that, or, if
      there is no number before a space, the exchange alone, with preference 0. */
  ghost predicate SaysExchange(parsers: TextParsers, value: Text, preference: u16, exchange: Text) {
    || (exists head :: SPACE !in head && value == head + [SPACE] + exchange && parsers.preference(head) == Some(preference))
    || (&& preference == 0 && exchange == value
        && forall head, tail | SPACE !in head && value == head + [SPACE] + tail :: parsers.preference(head).None?)
  }

  lemma SpaceWithin(a: Text, b: Text, x: Text, y: Text)
    requires a + [SPACE] + b == x + [SPACE] + y
    ensures |a| < |x| ==> SPACE in x
  {
    var s, t := a + [SPACE] + b, x + [SPACE] + y;
    assert s[|a|] == SPACE;
    if |a| < |x| {
      assert x[|a|] == t[|a|];
    }
  }

  lemma FirstSpaceIsUnique(a: Text, b: Text, x: Text, y: Text)
    requires SPACE !in a && SPACE !in x && a + [SPACE] + b == x + [SPACE] + y
    ensures a == x && b == y
  {
    SpaceWithin(a, b, x, y);
    SpaceWithin(x, y, a, b);
    var s, t := a + [SPACE] + b, x + [SPACE] + y;
    assert s[..|a|] == a && t[..|x|] == x && s[|a| + 1..] == b && t[|x| + 1..] == y;
  }

  lemma SpaceBetween(a: Text, b: Text)
    ensures SPACE in a + [SPACE] + b
  {
    assert (a + [SPACE] + b)[|a|] == SPACE;
  }

  lemma ExchangeIsSaid(parsers: TextParsers, value: Text, preference: u16, exchange: Text)
    ensures Exchange(parsers, value) == (preference, exchange) <==> SaysExchange(parsers, value, preference, exchange)
  {
    SplitOnceCuts(value);
    hide SplitOnce;
    if SplitOnce(value).Some? {
      var (head, tail) := SplitOnce(value).value;
      forall a, b | SPACE !in a && value == a + [SPACE] + b
        ensures a == head && b == tail
      {
        FirstSpaceIsUnique(a, b, head, tail);
      }
    } else {
      forall a, b
        ensures value != a + [SPACE] + b
      {
        SpaceBetween(a, b);
      }
    }
  }

  lemma ExchangeIsUtf8(parsers: TextParsers, value: Text)
    requires IsUtf8(value)
    ensures IsUtf8(Exchange(parsers, value).1)
  {
    SplitOnceCuts(value);
    if SplitOnce(value).Some? {
      CutAtAscii(SplitOnce(value).value.0, SPACE, SplitOnce(value).value.1);
    }
  }

  function TargetBytes(target: Text): Result<seq<byte>, DnsError>
    requires IsUtf8(target)
  {
    match NewDomain(target)
    case Err(e) => Err(InvalidDomain(e))
    case Ok(domain) => Ok(NameBytes(Split(domain)))
  }

  function AddressBytes(octets: Option<seq<byte>>): Result<seq<byte>, DnsError> {
    if octets.Some? then Ok(octets.value) else Err(MalformedLabel)
  }

  function Rdata(parsers: TextParsers, r: Record): Result<seq<byte>, DnsError>
    requires IsUtf8(r.value)
  {
    match r.recordType
    case A => AddressBytes(parsers.ipv4(r.value))
    case Aaaa => AddressBytes(parsers.ipv6(r.value))
    case Txt => Ok(TxtBytes(r.value))
    case Mx =>
      ExchangeIsUtf8(parsers, r.value);
      var (preference, exchange) := Exchange(parsers, r.value);
      (match TargetBytes(exchange)
       case Err(e) => Err(e)
       case Ok(target) => Ok(ToBytes(preference, 2) + target))
    case _ => TargetBytes(r.value)
  }

  lemma FullChunkFirst(chunk: Text, rest: Text)
    requires |chunk| == CHUNK
    ensures TxtBytes(chunk + rest) == [CHUNK] + chunk + TxtBytes(rest)
  {
    if rest == [] {
      assert chunk + rest == chunk;
    } else {
      assert (chunk + rest)[..CHUNK] == chunk && (chunk + rest)[CHUNK..] == rest;
    }
  }

  lemma {:induction false} TxtBytesAppend(before: Text, last: Text, chunks: nat)
    requires |before| == chunks * CHUNK && 0 < |last| <= CHUNK
    ensures TxtBytes(before + last) == TxtBytes(before) + [|last|] + last
    decreases chunks
  {
    if chunks == 0 {
      assert before + last == last && TxtBytes(before) + [|last|] + last == [|last|] + last;
    } else {
      var chunk, rest := before[..CHUNK], before[CHUNK..];
      TxtBytesAppend(rest, last, chunks - 1);
      FullChunkFirst(chunk, rest);
      FullChunkFirst(chunk, rest + last);
      assert before == chunk + rest && before + last == chunk + (rest + last);
    }
  }

  method EncodeTxt(value: Text) returns (buf: seq<byte>)
    ensures buf == TxtBytes(value)
  {
    buf := [];
    var pos := 0;
    ghost var chunks := 0;
    while pos < |value|
      invariant 0 <= pos <= |value| && (pos == chunks * CHUNK || pos == |value|) && 0 <= chunks
      invariant buf == TxtBytes(value[..pos])
    {
      var next := if pos + CHUNK <= |value| then pos + CHUNK else |value|;
      var chunk := value[pos..next];
      TxtBytesAppend(value[..pos], chunk, chunks);
      chunks := chunks + 1;
      assert value[..next] == value[..pos] + chunk;
      buf := buf + [|chunk|] + chunk;
      pos := next;
    }
    assert value[..pos] == value;
  }

  method EncodeTarget(target: Text, before: seq<byte>) returns (rdata: Result<seq<byte>, DnsError>)
    requires IsUtf8(target)
    ensures rdata == match TargetBytes(target) case Err(e) => Err(e) case Ok(name) => Ok(before + name)
  {
    var domain := NewDomain(target);
    if domain.Err? {
      return Err(InvalidDomain(domain.error));
    }
    var buf := EncodeDomainLabels(domain.value, before);
    return Ok(buf);
  }

  method EncodeRdata(parsers: TextParsers, r: Record) returns (rdata: Result<seq<byte>, DnsError>)
    requires IsUtf8(r.value)
    ensures rdata == Rdata(parsers, r)
  {
    match r.recordType
    case A =>
      rdata := AddressBytes(parsers.ipv4(r.value));
    case Aaaa =>
      rdata := AddressBytes(parsers.ipv6(r.value));
    case Txt =>
      var buf := EncodeTxt(r.value);
      rdata := Ok(buf);
    case Mx =>
      ExchangeIsUtf8(parsers, r.value);
      var (preference, exchange) := Exchange(parsers, r.value);
      rdata := EncodeTarget(exchange, ToBytes(preference, 2));
    case _ =>
      rdata := EncodeTarget(r.value, []);
      assert forall name: seq<byte> :: [] + name == name;
  }

  /** Character strings, each after its length, put together again. */
  function TxtValue(rdata: seq<byte>): Option<Text> {
    if rdata == [] then Some([])
    else if 1 + rdata[0] > |rdata| then None
    else
      match TxtValue(rdata[1 + rdata[0]..])
      case None => None
      case Some(rest) => Some(rdata[1..1 + rdata[0]] + rest)
  }

  /** The chunks of a TXT record concatenate back to its value. */
  lemma {:induction false} TxtRoundTrip(value: Text)
    ensures TxtValue(TxtBytes(value)) == Some(value)
  {
    if value == [] {
    } else if |value| <= CHUNK {
      var rdata := [|value|] + value;
      assert rdata[1 + |value|..] == [] && rdata[1..1 + |value|] == value;
      assert value + [] == value;
    } else {
      TxtRoundTrip(value[CHUNK..]);
      var rdata := TxtBytes(value);
      assert rdata[1..1 + CHUNK] == value[..CHUNK] && rdata[1 + CHUNK..] == TxtBytes(value[CHUNK..]);
      assert value[..CHUNK] + value[CHUNK..] == value;
    }
  }

  lemma {:induction false} TxtBytesSize(value: Text)
    ensures |TxtBytes(value)| == |value| + (|value| + 254) / 255
  {
    if |value| > CHUNK {
      TxtBytesSize(value[CHUNK..]);
    }
  }

  lemma {:induction false} StringsTakeRoom(rdata: seq<byte>)
    requires TxtValue(rdata).Some?
    ensures |rdata| >= |TxtValue(rdata).value| + (|TxtValue(rdata).value| + 254) / 255
  {
    if rdata != [] {
      StringsTakeRoom(rdata[1 + rdata[0]..]);
    }
  }

  /** No character strings that say the same are shorter. */
  lemma TxtIsShortest(value: Text, rdata: seq<byte>)
    requires TxtValue(rdata) == Some(value)
    ensures |TxtBytes(value)| <= |rdata|
  {
    TxtBytesSize(value);
    StringsTakeRoom(rdata);
  }

  /** The RDATA says what the record's value says. */
  ghost predicate Conveys(parsers: TextParsers, r: Record, rdata: seq<byte>)
  {
    match r.recordType
    case A => parsers.ipv4(r.value) == Some(rdata)
    case Aaaa => parsers.ipv6(r.value) == Some(rdata)
    case Txt => TxtValue(rdata) == Some(r.value)
    case Mx =>
      |rdata| >= 2 && exists name :: SaysExchange(parsers, r.value, U16At(rdata, 0), name) && ConveysName(rdata, 2, name)
    case _ => ConveysName(rdata, 0, r.value)
  }

  /** A reader of labels finds exactly this name from `pos` to the end. */
  ghost predicate ConveysName(rdata: seq<byte>, pos: nat, name: Text) {
    match LabelsAt(rdata, pos)
    case Err(_) => false
    case Ok((labels, end)) => end == |rdata| && Join(labels) == name
  }

  lemma TargetConveys(before: seq<byte>, target: Text)
    requires IsUtf8(target) && |target| < 0x1_0000_0000 && TargetBytes(target).Ok?
    ensures ConveysName(before + TargetBytes(target).value, |before|, target)
  {
    AcceptedLabels(target);
    SplitShortens(target);
    JoinSplit(target);
    var name := NameBytes(Split(target));
    HasMiddle(before, name, []);
    assert before + name + [] == before + name;
    LabelsReadBack(before + name, |before|, Split(target));
  }

  /** Every record that is encoded at all is conveyed. */
  lemma RdataConveys(parsers: TextParsers, r: Record)
    requires IsUtf8(r.value) && |r.value| < 0x1_0000_0000 && Rdata(parsers, r).Ok?
    ensures Conveys(parsers, r, Rdata(parsers, r).value)
  {
    match r.recordType
    case A =>
    case Aaaa =>
    case Txt =>
      TxtRoundTrip(r.value);
    case Mx =>
      var (preference, exchange) := Exchange(parsers, r.value);
      ExchangeIsUtf8(parsers, r.value);
      SplitOnceCuts(r.value);
      var head := ToBytes(preference, 2);
      TargetConveys(head, exchange);
      var rdata := head + TargetBytes(exchange).value;
      assert rdata[0..2] == head;
      U16Read(rdata, 0, preference);
      ExchangeIsSaid(parsers, r.value, preference, exchange);
    case _ =>
      TargetConveys([], r.value);
      assert [] + TargetBytes(r.value).value == TargetBytes(r.value).value;
  }

  // ---------------------------------------------------------------- answers

  datatype Answer = Answer(name: seq<Text>, rtype: u16, rclass: u16, ttl: u32, rdata: seq<byte>)

  function FixedPart(a: Answer): (part: seq<byte>)
    ensures |part| == 12
  {
    ToBytes(a.rtype, 2) + ToBytes(a.rclass, 2) + ToBytes(a.ttl, 4) + ToBytes(|a.rdata|, 4)
  }

  function AnswerBytes(a: Answer): seq<byte> {
    NameBytes(a.name) + FixedPart(a) + a.rdata
  }

  function Concat(parts: seq<seq<byte>>): seq<byte> {
    if parts == [] then [] else Concat(parts[..|parts| - 1]) + parts[|parts| - 1]
  }

  function AllBytes(answers: seq<Answer>): seq<byte> {
    if answers == [] then [] else AllBytes(answers[..|answers| - 1]) + AnswerBytes(answers[|answers| - 1])
  }

  ghost predicate AllText(records: seq<Record>) {
    forall r | r in records :: IsUtf8(r.value)
  }

  /** The answers for those records that can be encoded, in order. */
  function Answers(parsers: TextParsers, domain: Text, records: seq<Record>): seq<Answer>
    requires AllText(records)
  {
    if records == [] then []
    else
      var earlier, last := Answers(parsers, domain, records[..|records| - 1]), records[|records| - 1];
      match Rdata(parsers, last)
      case Err(_) => earlier
      case Ok(rdata) =>
        earlier + [Answer(Split(domain), TypeCode(last.recordType), CLASS_IN, last.ttlSecs, rdata)]
  }

  function Flags(domainExists: bool): u16 {
    if domainExists then QR_AA else QR_AA + NXDOMAIN
  }

  /** The header, whose ANCOUNT `as u16` truncates. */
  function ResponseHeader(id: u16, domainExists: bool, answers: nat): (header: seq<byte>)
    ensures |header| == HEADER
  {
    ToBytes(id, 2) + ToBytes(Flags(domainExists), 2) + ToBytes(1, 2) + ToBytes(answers, 2) + ToBytes(0,
        2) + ToBytes(0, 2)
  }

  function QuestionBytes(query: DnsQuery): seq<byte> {
    NameBytes(Split(query.domain)) + ToBytes(query.qtype, 2) + ToBytes(query.qclass, 2)
  }

  function Response(parsers: TextParsers, query: DnsQuery, domainExists: bool, matching: seq<Record>): seq<byte>
    requires AllText(matching)
  {
    var answers := Answers(parsers, query.domain, matching);
    ResponseHeader(query.id, domainExists, |answers|) + QuestionBytes(query) + AllBytes(answers)
  }

  method EncodeAnswer(query: DnsQuery, r: Record, rdata: seq<byte>) returns (answer: seq<byte>)
    ensures answer == AnswerBytes(Answer(Split(query.domain), TypeCode(r.recordType), CLASS_IN, r.ttlSecs, rdata))
  {
    hide ToBytes, NameBytes, Split;
    answer := EncodeDomainLabels(query.domain, []);
    ghost var name := answer;
    answer := answer + ToBytes(TypeCode(r.recordType), 2);
    answer := answer + ToBytes(CLASS_IN, 2);
    answer := answer + ToBytes(r.ttlSecs, 4);
    answer := answer + ToBytes(|rdata|, 4);
    assert answer == name + (ToBytes(TypeCode(r.recordType), 2) + ToBytes(CLASS_IN, 2)
                             + ToBytes(r.ttlSecs, 4) + ToBytes(|rdata|, 4));
    answer := answer + rdata;
  }

  function Encodings(answers: seq<Answer>): (parts: seq<seq<byte>>)
    ensures |parts| == |answers|
  {
    if answers == [] then [] else Encodings(answers[..|answers| - 1]) + [AnswerBytes(answers[|answers| - 1])]
  }

  lemma {:induction false} ConcatEncodings(answers: seq<Answer>)
    ensures Concat(Encodings(answers)) == AllBytes(answers)
  {
    if answers != [] {
      ConcatEncodings(answers[..|answers| - 1]);
      var parts := Encodings(answers);
      assert parts[..|parts| - 1] == Encodings(answers[..|answers| - 1]);
    }
  }

  method EncodeAnswers(parsers: TextParsers, query: DnsQuery, matching: seq<Record>) returns (answers: seq<seq<byte>>)
    requires AllText(matching)
    ensures answers == Encodings(Answers(parsers, query.domain, matching))
  {
    answers := [];
    for i := 0 to |matching|
      invariant AllText(matching[..i])
      invariant answers == Encodings(Answers(parsers, query.domain, matching[..i]))
    {
      assert AllText(matching[..i + 1]);
      assert matching[..i + 1][..i] == matching[..i];
      var rdata := EncodeRdata(parsers, matching[i]);
      if rdata.Err? {
        continue;
      }
      var answer := EncodeAnswer(query, matching[i], rdata.value);
      ghost var earlier := Answers(parsers, query.domain, matching[..i]);
      ghost var grown := Answers(parsers, query.domain, matching[..i + 1]);
      assert grown[..|grown| - 1] == earlier;
      answers := answers + [answer];
    }
    assert matching[..|matching|] == matching;
  }

  /** The question of `BuildResponse`. */
  method EncodeQuestion(query: DnsQuery, before: seq<byte>) returns (out: seq<byte>)
    ensures out == before + QuestionBytes(query)
  {
    hide ToBytes, NameBytes, Split;
    out := EncodeDomainLabels(query.domain, before);
    out := out + ToBytes(query.qtype, 2);
    out := out + ToBytes(query.qclass, 2);
  }

  /** The last loop of `BuildResponse`. */
  method AppendAll(before: seq<byte>, parts: seq<seq<byte>>) returns (out: seq<byte>)
    ensures out == before + Concat(parts)
  {
    out := before;
    for i := 0 to |parts|
      invariant out == before + Concat(parts[..i])
    {
      assert parts[..i + 1][..i] == parts[..i];
      assert before + (Concat(parts[..i]) + parts[i]) == before + Concat(parts[..i]) + parts[i];
      out := out + parts[i];
    }
    assert parts[..|parts|] == parts;
  }

  method BuildResponse(parsers: TextParsers, query: DnsQuery, domainExists: bool, matching: seq<Record>)
    returns (out: seq<byte>)
    requires AllText(matching)
    ensures out == Response(parsers, query, domainExists, matching)
  {
    hide ToBytes, Answers, QuestionBytes, Concat, AllBytes, Encodings;
    out := ToBytes(query.id, 2);
    out := out + ToBytes(Flags(domainExists), 2);
    var answers := EncodeAnswers(parsers, query, matching);
    out := out + ToBytes(1, 2);
    out := out + ToBytes(|answers|, 2);
    out := out + ToBytes(0, 2);
    out := out + ToBytes(0, 2);
    out := EncodeQuestion(query, out);
    out := AppendAll(out, answers);
    ConcatEncodings(Answers(parsers, query.domain, matching));
  }

  // ---------------------------------------------------------------- reading a response

  /** The answer at `pos`, by its length fields, and the position after it. */
  function AnswerAt(buf: seq<byte>, pos: nat): Option<(Answer, nat)> {
    match LabelsAt(buf, pos)
    case Err(_) => None
    case Ok((name, at)) =>
      if at + 12 > |buf| then None
      else
        var end := at + 12 + U32At(buf, at + 8);
        if end > |buf| then None
        else Some((Answer(name, U16At(buf, at), U16At(buf, at + 2), U32At(buf, at + 4), buf[at + 12..end]), end))
  }

  /** The first `n` answers from `pos` on, and the position after them. */
  function AnswersFrom(buf: seq<byte>, pos: nat, n: nat): Option<(seq<Answer>, nat)>
    decreases n
  {
    if n == 0 then Some(([], pos))
    else
      match AnswersFrom(buf, pos, n - 1)
      case None => None
      case Some((answers, end)) =>
        match AnswerAt(buf, end)
        case None => None
        case Some((answer, next)) => Some((answers + [answer], next))
  }

  /** Where the answers of a message start; it has one question. */
  function AnswersStart(buf: seq<byte>): Option<nat> {
    match LabelsAt(buf, HEADER)
    case Err(_) => None
    case Ok((_, end)) => Some(end + 4)
  }

  /** The answers a reader finds who trusts the ANCOUNT field, and the position after them. */
  function ReadResponse(buf: seq<byte>): Option<(seq<Answer>, nat)> {
    match AnswersStart(buf)
    case None => None
    case Some(start) => if |buf| < HEADER then None else AnswersFrom(buf, start, U16At(buf, 6))
  }

  predicate Fits(a: Answer) {
    |a.rdata| < 0x1_0000_0000
  }

  ghost predicate Readable(a: Answer) {
    AllSendable(a.name) && Fits(a)
  }

  lemma AnswerParts(buf: seq<byte>, pos: nat, a: Answer)
    requires Has(buf, pos, AnswerBytes(a))
    ensures Has(buf, pos, NameBytes(a.name)) && Has(buf, NameEnd(pos, a.name), FixedPart(a))
    ensures Has(buf, NameEnd(pos, a.name) + 12, a.rdata)
  {
    hide ToBytes, NameBytes, FixedPart;
    HasBoth(buf, pos, NameBytes(a.name) + FixedPart(a), a.rdata);
    HasBoth(buf, pos, NameBytes(a.name), FixedPart(a));
  }

  lemma FixedPartRead(buf: seq<byte>, at: nat, a: Answer)
    requires Has(buf, at, FixedPart(a)) && Fits(a)
    ensures U16At(buf, at) == a.rtype && U16At(buf, at + 2) == a.rclass
    ensures U32At(buf, at + 4) == a.ttl && U32At(buf, at + 8) == |a.rdata|
  {
    hide ToBytes, FromBytes;
    var rtype, rclass, ttl, length := ToBytes(a.rtype, 2), ToBytes(a.rclass, 2), ToBytes(a.ttl, 4),
        ToBytes(|a.rdata|, 4);
    HasBoth(buf, at, rtype + rclass + ttl, length);
    HasBoth(buf, at, rtype + rclass, ttl);
    HasBoth(buf, at, rtype, rclass);
    U16Read(buf, at, a.rtype);
    U16Read(buf, at + 2, a.rclass);
    U32Read(buf, at + 4, a.ttl);
    U32Read(buf, at + 8, |a.rdata|);
  }

  lemma AnswerIsRead(buf: seq<byte>, pos: nat, a: Answer)
    requires Has(buf, pos, AnswerBytes(a)) && Readable(a)
    ensures AnswerAt(buf, pos) == Some((a, pos + |AnswerBytes(a)|))
  {
    hide ToBytes, FromBytes, LabelsAt, NameBytes, FixedPart;
    AnswerParts(buf, pos, a);
    LabelsReadBack(buf, pos, a.name);
    FixedPartRead(buf, NameEnd(pos, a.name), a);
  }

  lemma AllBytesSplit(buf: seq<byte>, pos: nat, answers: seq<Answer>)
    requires answers != [] && Has(buf, pos, AllBytes(answers))
    ensures var init, last := answers[..|answers| - 1], answers[|answers| - 1];
            && Has(buf, pos, AllBytes(init)) && Has(buf, pos + |AllBytes(init)|, AnswerBytes(last))
            && |AllBytes(answers)| == |AllBytes(init)| + |AnswerBytes(last)|
  {
    hide AnswerBytes;
    HasBoth(buf, pos, AllBytes(answers[..|answers| - 1]), AnswerBytes(answers[|answers| - 1]));
  }

  lemma OneMoreAnswer(buf: seq<byte>, pos: nat, init: seq<Answer>, mid: nat, last: Answer, end: nat)
    requires AnswersFrom(buf, pos, |init|) == Some((init, mid)) && AnswerAt(buf, mid) == Some((last, end))
    ensures AnswersFrom(buf, pos, |init| + 1) == Some((init + [last], end))
  {
    hide AnswerAt;
  }

  lemma NoAnswers(buf: seq<byte>, pos: nat)
    ensures AnswersFrom(buf, pos, 0) == Some(([], pos)) && |AllBytes([])| == 0
  {
  }

  /** Answers written one after another are read one after another. */
  lemma {:induction false} AnswersAreRead(buf: seq<byte>, pos: nat, answers: seq<Answer>)
    requires Has(buf, pos, AllBytes(answers)) && forall a | a in answers :: Readable(a)
    ensures AnswersFrom(buf, pos, |answers|) == Some((answers, pos + |AllBytes(answers)|))
    decreases |answers|
  {
    hide AnswerBytes, AnswerAt, Readable, Has, AnswersFrom, AllBytes;
    if answers == [] {
      NoAnswers(buf, pos);
    } else {
      var init, last := answers[..|answers| - 1], answers[|answers| - 1];
      assert forall a | a in init :: a in answers;
      AllBytesSplit(buf, pos, answers);
      AnswersAreRead(buf, pos, init);
      AnswerIsRead(buf, pos + |AllBytes(init)|, last);
      OneMoreAnswer(buf, pos, init, pos + |AllBytes(init)|, last, pos + |AllBytes(answers)|);
      assert init + [last] == answers;
    }
  }

  /** The first answers are a beginning of all answers, and a shorter one if any are missing. */
  lemma {:induction false} FirstAnswers(buf: seq<byte>, pos: nat, answers: seq<Answer>, k: nat)
    requires Has(buf, pos, AllBytes(answers)) && k <= |answers|
    ensures Has(buf, pos, AllBytes(answers[..k]))
    ensures |AllBytes(answers[..k])| == |AllBytes(answers)| <==> k == |answers|
    ensures |AllBytes(answers[..k])| <= |AllBytes(answers)|
    decreases |answers|
  {
    if k < |answers| {
      var init := answers[..|answers| - 1];
      AllBytesSplit(buf, pos, answers);
      FirstAnswers(buf, pos, init, k);
      assert init[..k] == answers[..k];
    } else {
      assert answers[..k] == answers;
    }
  }

  // ---------------------------------------------------------------- the response as a whole

  lemma ResponseParts(parsers: TextParsers, query: DnsQuery, domainExists: bool, matching: seq<Record>)
    requires AllText(matching)
    ensures var answers := Answers(parsers, query.domain, matching);
            var buf := Response(parsers, query, domainExists, matching);
            var start := HEADER + |QuestionBytes(query)|;
            && Has(buf, 0, ResponseHeader(query.id, domainExists, |answers|))
            && Has(buf, HEADER, QuestionBytes(query))
            && Has(buf, start, AllBytes(answers)) && |buf| == start + |AllBytes(answers)|
  {
    hide ResponseHeader, QuestionBytes, AllBytes, Answers;
    var answers := Answers(parsers, query.domain, matching);
    var header, question, rest := ResponseHeader(query.id, domainExists, |answers|), QuestionBytes(query),
        AllBytes(answers);
    HasMiddle([], header + question + rest, []);
    assert [] + (header + question + rest) + [] == header + question + rest;
    HasBoth(header + question + rest, 0, header + question, rest);
    HasBoth(header + question + rest, 0, header, question);
  }

  lemma HeaderIsRead(buf: seq<byte>, id: u16, domainExists: bool, answers: nat)
    requires Has(buf, 0, ResponseHeader(id, domainExists, answers))
    ensures Has(buf, 0, ToBytes(id, 2)) && U16At(buf, 2) == Flags(domainExists)
    ensures Has(buf, 4, ToBytes(1, 2)) && U16At(buf, 6) == answers % 0x1_0000
    ensures Has(buf, 8, ToBytes(0, 2)) && Has(buf, 10, ToBytes(0, 2))
  {
    hide ToBytes, FromBytes;
    var head, flags, one, count := ToBytes(id, 2), ToBytes(Flags(domainExists), 2), ToBytes(1, 2), ToBytes(answers, 2);
    var zero := ToBytes(0, 2);
    HasBoth(buf, 0, head + flags + one + count + zero, zero);
    HasBoth(buf, 0, head + flags + one + count, zero);
    HasBoth(buf, 0, head + flags + one, count);
    HasBoth(buf, 0, head + flags, one);
    HasBoth(buf, 0, head, flags);
    U16Read(buf, 2, Flags(domainExists));
    FromToBytes(answers, 2);
    Pow256Values();
  }

  lemma FlagBits(domainExists: bool)
    ensures var flags := Flags(domainExists);
            && flags / 0x8000 == 1 && flags / 0x800 % 0x10 == 0 && flags / 0x400 % 2 == 1
            && flags / 0x10 % 0x40 == 0 && flags % 0x10 == if domainExists then 0 else 3
  {
  }

  /** The header of any response: the query's identifier; a response, to a standard query, authoritative,
      with no other bit set above the response code; the code for an unknown name exactly if the name does
      not exist, and no error otherwise; one question, as many answers as 16 bits can count, nothing else. */
  lemma HeaderTellsTheOutcome(parsers: TextParsers, query: DnsQuery, domainExists: bool, matching: seq<Record>)
    requires AllText(matching)
    ensures var buf := Response(parsers, query, domainExists, matching);
            && |buf| >= 12 && U16At(buf, 0) == query.id
            && U16At(buf, 2) / 0x8000 == 1 && U16At(buf, 2) / 0x800 % 0x10 == 0 && U16At(buf, 2) / 0x400 % 2 == 1
            && U16At(buf, 2) / 0x10 % 0x40 == 0
            && (U16At(buf, 2) % 0x10 == 3 <==> !domainExists) && (U16At(buf, 2) % 0x10 == 0 <==> domainExists)
            && U16At(buf, 4) == 1 && U16At(buf, 6) == |Answers(parsers, query.domain, matching)| % 0x1_0000
            && U16At(buf, 8) == 0 && U16At(buf, 10) == 0
  {
    hide ToBytes, FromBytes, Answers, ResponseHeader, Response, QuestionBytes, AllBytes, Flags, U16At;
    var buf := Response(parsers, query, domainExists, matching);
    ResponseParts(parsers, query, domainExists, matching);
    HeaderIsRead(buf, query.id, domainExists, |Answers(parsers, query.domain, matching)|);
    FlagBits(domainExists);
    U16Read(buf, 0, query.id);
    U16Read(buf, 4, 1);
    U16Read(buf, 8, 0);
    U16Read(buf, 10, 0);
  }

  /** A query whose name can be sent, as every parsed query's can. */
  ghost predicate Answerable(query: DnsQuery) {
    IsUtf8(query.domain) && NewDomain(query.domain).Ok? && AllSendable(Split(query.domain))
  }

  lemma ResponseAsks(parsers: TextParsers, query: DnsQuery, domainExists: bool, matching: seq<Record>)
    requires AllText(matching) && Answerable(query)
    ensures Asks(Response(parsers, query, domainExists, matching), query, Split(query.domain))
  {
    hide ToBytes, NameBytes, AllBytes, Answers, Response, ResponseHeader;
    var buf := Response(parsers, query, domainExists, matching);
    var name := NameBytes(Split(query.domain));
    ResponseParts(parsers, query, domainExists, matching);
    HeaderIsRead(buf, query.id, domainExists, |Answers(parsers, query.domain, matching)|);
    HasBoth(buf, HEADER, name + ToBytes(query.qtype, 2), ToBytes(query.qclass, 2));
    HasBoth(buf, HEADER, name, ToBytes(query.qtype, 2));
    JoinSplit(query.domain);
  }

  /** The round trip: whatever message a query was parsed from, any response built for that query
      parses as the same query. */
  lemma ResponseParsesAsItsQuery(buf: seq<byte>, parsers: TextParsers, domainExists: bool, matching: seq<Record>)
    requires AllText(matching) && Query(buf).Ok?
    ensures Query(Response(parsers, Query(buf).value, domainExists, matching)) == Query(buf)
  {
    var query := Query(buf).value;
    ParsedNameIsSendable(buf);
    ResponseAsks(parsers, query, domainExists, matching);
    QueriesAreParsed(Response(parsers, query, domainExists, matching), query, Split(query.domain));
  }

  lemma {:induction false} AnswersAreNamed(parsers: TextParsers, domain: Text, records: seq<Record>)
    requires AllText(records)
    ensures forall a | a in Answers(parsers, domain, records) :: a.name == Split(domain)
  {
    if records != [] {
      AnswersAreNamed(parsers, domain, records[..|records| - 1]);
    }
  }

  /** A reader who follows the length fields finds the answers in order, as many as ANCOUNT can
      count, and is then at the end of the message exactly when that is all of them. */
  ghost predicate Frames(buf: seq<byte>, answers: seq<Answer>) {
    match ReadResponse(buf)
    case None => false
    case Some((found, end)) =>
      found == answers[..|answers| % 0x1_0000] && (end == |buf| <==> |answers| < 0x1_0000)
  }

  lemma FramesBy(buf: seq<byte>, answers: seq<Answer>, start: nat, end: nat)
    requires |buf| >= HEADER && AnswersStart(buf) == Some(start) && U16At(buf, 6) == |answers| % 0x1_0000
    requires AnswersFrom(buf, start, |answers| % 0x1_0000) == Some((answers[..|answers| % 0x1_0000], end))
    requires end == |buf| <==> |answers| < 0x1_0000
    ensures Frames(buf, answers)
  {
    hide AnswersFrom, AnswersStart, U16At;
  }

  /** The framing of a response: its answers are the records that can be encoded. */
  lemma ResponseFraming(parsers: TextParsers, query: DnsQuery, domainExists: bool, matching: seq<Record>)
    requires AllText(matching) && Answerable(query)
    requires forall a | a in Answers(parsers, query.domain, matching) :: Fits(a)
    ensures Frames(Response(parsers, query, domainExists, matching), Answers(parsers, query.domain, matching))
  {
    hide ToBytes, NameBytes, AllBytes, Answers, Response, ResponseHeader, AnswersFrom, LabelsAt, IsUtf8, Frames;
    var answers := Answers(parsers, query.domain, matching);
    var buf := Response(parsers, query, domainExists, matching);
    var first := answers[..|answers| % 0x1_0000];
    var start := HEADER + |QuestionBytes(query)|;
    ResponseParts(parsers, query, domainExists, matching);
    HeaderIsRead(buf, query.id, domainExists, |answers|);
    ResponseAsks(parsers, query, domainExists, matching);
    LabelsReadBack(buf, HEADER, Split(query.domain));
    AnswersAreNamed(parsers, query.domain, matching);
    FirstAnswers(buf, start, answers, |first|);
    AnswersAreRead(buf, start, first);
    FramesBy(buf, answers, start, start + |AllBytes(first)|);
  }

  /** Which records can be put on the wire: an address that reads as one, a target that is a domain
      name, and any text. */
  ghost predicate CanEncode(parsers: TextParsers, r: Record)
    requires IsUtf8(r.value)
  {
    match r.recordType
    case A => parsers.ipv4(r.value).Some?
    case Aaaa => parsers.ipv6(r.value).Some?
    case Txt => true
    case Mx => IsDomainText(Exchange(parsers, r.value).1)
    case _ => IsDomainText(r.value)
  }

  ghost predicate IsDomainText(text: Text) {
    AllPrintable(text) && DotsSeparate(text)
  }

  lemma TargetIffDomainText(text: Text)
    requires IsUtf8(text)
    ensures TargetBytes(text).Ok? <==> IsDomainText(text)
  {
    hide IsUtf8, NewDomain, NameBytes, Split, AllPrintable;
    NewDomainDecides(text);
    if NewDomain(text).Err? && NewDomain(text).error.NonPrintableChar? {
      FaultIsUnprintable(text, NewDomain(text).error.offset);
    }
  }

  lemma EncodedIffCanEncode(parsers: TextParsers, r: Record)
    requires IsUtf8(r.value)
    ensures Rdata(parsers, r).Ok? <==> CanEncode(parsers, r)
  {
    hide IsUtf8, TargetBytes, IsDomainText, Exchange, TxtBytes, ToBytes;
    ExchangeIsUtf8(parsers, r.value);
    TargetIffDomainText(r.value);
    TargetIffDomainText(Exchange(parsers, r.value).1);
  }

  ghost function Encodable(parsers: TextParsers, records: seq<Record>): seq<Record>
    requires AllText(records)
  {
    if records == [] then []
    else
      var earlier, last := Encodable(parsers, records[..|records| - 1]), records[|records| - 1];
      if CanEncode(parsers, last) then earlier + [last] else earlier
  }

  /** An answer says what a record says, of the given name. */
  ghost predicate Tells(parsers: TextParsers, domain: Text, r: Record, a: Answer) {
    && a.name == Split(domain) && TypeOf(a.rtype) == Some(r.recordType) && a.rclass == 1 && a.ttl == r.ttlSecs
    && Conveys(parsers, r, a.rdata)
  }

  /** Exactly the encodable records are answered, in order, each by an answer that tells it. */
  lemma {:induction false} AnswersTellTheRecords(parsers: TextParsers, domain: Text, records: seq<Record>)
    requires AllText(records) && forall r | r in records :: |r.value| < 0x1_0000_0000
    ensures var answers, told := Answers(parsers, domain, records), Encodable(parsers, records);
            |answers| == |told| && forall i | 0 <= i < |told| :: Tells(parsers, domain, told[i], answers[i])
  {
    hide Conveys, Split, Rdata, CanEncode;
    if records != [] {
      var last := records[|records| - 1];
      AnswersTellTheRecords(parsers, domain, records[..|records| - 1]);
      EncodedIffCanEncode(parsers, last);
      if CanEncode(parsers, last) {
        RdataConveys(parsers, last);
        TypesAreDistinguished(TypeCode(last.recordType), last.recordType);
      }
    }
  }
}
