/** The native lookup protocol (dns.rs): labels behind 4-byte lengths, in raw UTF-8. */
module NativeCodec {
  import opened Bytes
  import opened Outcomes
  import opened Labels
  import opened Utf8
  import opened DomainNames

  const HEADER: nat := 12

  datatype DnsError =
    | TooShort
    | UnsupportedQuestionCount
    | MalformedLabel
    | InvalidUtf8
    | InvalidDomain(cause: DomainNameError)

  datatype DnsQuery = DnsQuery(id: u16, domain: Text, qtype: u16, qclass: u16)

  // ---------------------------------------------------------------- labels

  /** The labels at `pos` and the position after the zero length that ends them. */
  function LabelsAt(buf: seq<byte>, pos: nat): Result<(seq<Text>, nat), DnsError>
    decreases |buf| - pos
  {
    if pos + 4 > |buf| then Err(MalformedLabel)
    else if U32At(buf, pos) == 0 then Ok(([], pos + 4))
    else
      var next := pos + 4 + U32At(buf, pos);
      if next > |buf| then Err(MalformedLabel)
      else if !IsUtf8(buf[pos + 4..next]) then Err(InvalidUtf8)
      else
        match LabelsAt(buf, next)
        case Err(e) => Err(e)
        case Ok((labels, end)) => Ok(([buf[pos + 4..next]] + labels, end))
  }

  /** Each label after its length in 4 bytes, to which `as u32` truncates it. */
  function LabelBytes(labels: seq<Text>): seq<byte> {
    if labels == [] then [] else ToBytes(|labels[0]|, 4) + labels[0] + LabelBytes(labels[1..])
  }

  function NameBytes(labels: seq<Text>): seq<byte> {
    LabelBytes(labels) + ToBytes(0, 4)
  }

  lemma {:induction false} LabelBytesAppend(labels: seq<Text>, last: Text)
    ensures LabelBytes(labels + [last]) == LabelBytes(labels) + ToBytes(|last|, 4) + last
  {
    if labels == [] {
      assert LabelBytes([last]) == ToBytes(|last|, 4) + last + [];
    } else {
      assert (labels + [last])[1..] == labels[1..] + [last];
      LabelBytesAppend(labels[1..], last);
    }
  }

  method EncodeDomainLabels(domain: Text, before: seq<byte>) returns (out: seq<byte>)
    ensures out == before + NameBytes(Split(domain))
  {
    out := before;
    var labels := Split(domain);
    for i := 0 to |labels|
      invariant out == before + LabelBytes(labels[..i])
    {
      var written := out;
      out := out + ToBytes(|labels[i]|, 4);
      out := out + labels[i];
      assert labels[..i + 1] == labels[..i] + [labels[i]];
      LabelBytesAppend(labels[..i], labels[i]);
      assert out == before + (LabelBytes(labels[..i]) + ToBytes(|labels[i]|, 4) + labels[i]);
    }
    assert labels[..|labels|] == labels;
    out := out + ToBytes(0, 4);
  }

  /** A label that survives the wire: nonempty, UTF-8, and of a length that 4 bytes can hold. */
  predicate Sendable(part: Text) {
    part != [] && |part| < 0x1_0000_0000 && IsUtf8(part)
  }

  ghost predicate AllSendable(labels: seq<Text>) {
    forall part | part in labels :: Sendable(part)
  }

  lemma NameBytesOf(labels: seq<Text>)
    requires labels != []
    ensures NameBytes(labels) == ToBytes(|labels[0]|, 4) + labels[0] + NameBytes(labels[1..])
  {
  }

  /** What stands where labels are encoded. */
  lemma EncodedParts(buf: seq<byte>, pos: nat, labels: seq<Text>)
    requires labels != []
    ensures var first := labels[0];
            Has(buf, pos, NameBytes(labels))
            <==> Has(buf, pos, ToBytes(|first|, 4)) && Has(buf, pos + 4, first)
                 && Has(buf, pos + 4 + |first|, NameBytes(labels[1..]))
  {
    hide ToBytes;
    var length, first, rest := ToBytes(|labels[0]|, 4), labels[0], NameBytes(labels[1..]);
    NameBytesOf(labels);
    HasBoth(buf, pos, length + first, rest);
    HasBoth(buf, pos, length, first);
  }

  lemma ReadOneLabel(buf: seq<byte>, pos: nat, part: Text, rest: seq<Text>, end: nat)
    requires Sendable(part) && pos + 4 <= |buf| && U32At(buf, pos) == |part| && Has(buf, pos + 4, part)
    requires LabelsAt(buf, pos + 4 + |part|) == Ok((rest, end))
    ensures LabelsAt(buf, pos) == Ok(([part] + rest, end))
  {
  }

  /** Where the name encoded at `pos` ends. */
  function NameEnd(pos: nat, labels: seq<Text>): nat {
    pos + |NameBytes(labels)|
  }

  lemma LabelsReadStep(buf: seq<byte>, pos: nat, labels: seq<Text>)
    requires labels != [] && Sendable(labels[0]) && Has(buf, pos, NameBytes(labels))
    requires LabelsAt(buf, pos + 4 + |labels[0]|) == Ok((labels[1..], NameEnd(pos + 4 + |labels[0]|, labels[1..])))
    ensures LabelsAt(buf, pos) == Ok((labels, NameEnd(pos, labels)))
  {
    hide ToBytes, FromBytes, LabelsAt, IsUtf8, LabelBytes;
    EncodedParts(buf, pos, labels);
    U32Read(buf, pos, |labels[0]|);
    ReadOneLabel(buf, pos, labels[0], labels[1..], NameEnd(pos + 4 + |labels[0]|, labels[1..]));
    NameBytesOf(labels);
    assert labels == [labels[0]] + labels[1..];
  }

  /** Encoded labels are read back, whatever surrounds them. */
  lemma {:induction false} LabelsReadBack(buf: seq<byte>, pos: nat, labels: seq<Text>)
    requires AllSendable(labels) && Has(buf, pos, NameBytes(labels))
    ensures LabelsAt(buf, pos) == Ok((labels, NameEnd(pos, labels)))
    decreases |labels|
  {
    hide ToBytes, FromBytes;
    if labels == [] {
      U32Read(buf, pos, 0);
    } else {
      EncodedParts(buf, pos, labels);
      LabelsReadBack(buf, pos + 4 + |labels[0]|, labels[1..]);
      LabelsReadStep(buf, pos, labels);
    }
  }

  /** No encoded name begins another. */
  lemma EncodingIsPrefixFree(a: seq<Text>, b: seq<Text>, after: seq<byte>)
    requires AllSendable(a) && AllSendable(b) && NameBytes(a) + after == NameBytes(b)
    ensures a == b && after == []
  {
    HasMiddle([], NameBytes(a), after);
    HasMiddle([], NameBytes(b), []);
    assert [] + NameBytes(a) + after == [] + NameBytes(b) + [] == NameBytes(b);
    LabelsReadBack(NameBytes(b), 0, a);
    LabelsReadBack(NameBytes(b), 0, b);
  }

  /** Whatever is read was so written. */
  lemma {:induction false} LabelsAreEncoded(buf: seq<byte>, pos: nat)
    requires LabelsAt(buf, pos).Ok?
    ensures var (labels, end) := LabelsAt(buf, pos).value;
            AllSendable(labels) && end == NameEnd(pos, labels) && Has(buf, pos, NameBytes(labels))
    decreases |buf| - pos
  {
    hide ToBytes, FromBytes, IsUtf8;
    U32Read(buf, pos, U32At(buf, pos));
    if U32At(buf, pos) != 0 {
      var next := pos + 4 + U32At(buf, pos);
      LabelsAreEncoded(buf, next);
      var labels, rest := LabelsAt(buf, pos).value.0, LabelsAt(buf, next).value.0;
      assert Sendable(labels[0]) && labels[1..] == rest;
      EncodedParts(buf, pos, labels);
      NameBytesOf(labels);
    }
  }

  // ---------------------------------------------------------------- queries

  function Query(buf: seq<byte>): Result<DnsQuery, DnsError> {
    if |buf| < HEADER then Err(TooShort)
    else if U16At(buf, 4) != 1 then Err(UnsupportedQuestionCount)
    else
      match LabelsAt(buf, HEADER)
      case Err(e) => Err(e)
      case Ok((labels, end)) =>
        if end + 4 > |buf| then Err(MalformedLabel)
        else
          LabelsAreEncoded(buf, HEADER);
          JoinIsUtf8(labels);
          match NewDomain(Join(labels))
          case Err(e) => Err(InvalidDomain(e))
          case Ok(domain) => Ok(DnsQuery(U16At(buf, 0), domain, U16At(buf, end), U16At(buf, end + 2)))
  }

  function Resume(labels: seq<Text>, rest: Result<(seq<Text>, nat), DnsError>): Result<(seq<Text>, nat), DnsError> {
    match rest
    case Err(e) => Err(e)
    case Ok((more, end)) => Ok((labels + more, end))
  }

  lemma ResumeLabel(labels: seq<Text>, part: Text, rest: Result<(seq<Text>, nat), DnsError>)
    ensures Resume([], rest) == rest
    ensures Resume(labels, Resume([part], rest)) == Resume(labels + [part], rest)
  {
    if rest.Ok? {
      assert labels + ([part] + rest.value.0) == labels + [part] + rest.value.0;
      assert [] + rest.value.0 == rest.value.0;
    }
  }

  method ReadLabels(buf: seq<byte>, start: nat) returns (read: Result<(seq<Text>, nat), DnsError>)
    ensures read == LabelsAt(buf, start)
  {
    var pos: nat := start;
    var labels: seq<Text> := [];
    ResumeLabel([], [], LabelsAt(buf, start));
    while true
      invariant LabelsAt(buf, start) == Resume(labels, LabelsAt(buf, pos))
      decreases |buf| - pos
    {
      if pos + 4 > |buf| {
        return Err(MalformedLabel);
      }
      var length := U32At(buf, pos);
      if length == 0 {
        assert labels + [] == labels;
        return Ok((labels, pos + 4));
      }
      if pos + 4 + length > |buf| {
        return Err(MalformedLabel);
      }
      var part := buf[pos + 4..pos + 4 + length];
      if !IsUtf8(part) {
        return Err(InvalidUtf8);
      }
      ResumeLabel(labels, part, LabelsAt(buf, pos + 4 + length));
      labels := labels + [part];
      pos := pos + 4 + length;
    }
  }

  method ParseQuery(buf: seq<byte>) returns (query: Result<DnsQuery, DnsError>)
    ensures query == Query(buf)
  {
    if |buf| < HEADER {
      return Err(TooShort);
    }
    var id := U16At(buf, 0);
    var qdcount := U16At(buf, 4);
    if qdcount != 1 {
      return Err(UnsupportedQuestionCount);
    }
    var read := ReadLabels(buf, HEADER);
    if read.Err? {
      return Err(read.error);
    }
    var (labels, pos) := read.value;
    if pos + 2 > |buf| || pos + 4 > |buf| {
      return Err(MalformedLabel);
    }
    var qtype, qclass := U16At(buf, pos), U16At(buf, pos + 2);
    LabelsAreEncoded(buf, HEADER);
    JoinIsUtf8(labels);
    var domain := NewDomain(Join(labels));
    if domain.Err? {
      return Err(InvalidDomain(domain.error));
    }
    return Ok(DnsQuery(id, domain.value, qtype, qclass));
  }

  /** A message asks for `q` when its header counts one question, which spells the labels of an
      acceptable name; anything may follow, and a label may itself contain dots. */
  ghost predicate Asks(buf: seq<byte>, q: DnsQuery, labels: seq<Text>) {
    && |buf| >= HEADER && Has(buf, 0, ToBytes(q.id, 2)) && Has(buf, 4, ToBytes(1, 2))
    && AllSendable(labels) && Has(buf, HEADER, NameBytes(labels))
    && Has(buf, NameEnd(HEADER, labels), ToBytes(q.qtype, 2))
    && Has(buf, NameEnd(HEADER, labels) + 2, ToBytes(q.qclass, 2))
    && q.domain == Join(labels) && IsUtf8(q.domain) && NewDomain(q.domain).Ok?
  }

  lemma NewDomainKeeps(name: Text)
    requires IsUtf8(name)
    ensures NewDomain(name).Ok? ==> NewDomain(name) == Ok(name)
  {
  }

  lemma QueriesAreParsed(buf: seq<byte>, q: DnsQuery, labels: seq<Text>)
    requires Asks(buf, q, labels)
    ensures Query(buf) == Ok(q)
  {
    var end := NameEnd(HEADER, labels);
    LabelsReadBack(buf, HEADER, labels);
    U16Read(buf, 0, q.id);
    U16Read(buf, 4, 1);
    U16Read(buf, end, q.qtype);
    U16Read(buf, end + 2, q.qclass);
    NewDomainKeeps(q.domain);
  }

  lemma ParsedQueriesAsk(buf: seq<byte>)
    requires Query(buf).Ok?
    ensures LabelsAt(buf, HEADER).Ok? && Asks(buf, Query(buf).value, LabelsAt(buf, HEADER).value.0)
  {
    hide ToBytes, FromBytes, LabelBytes, IsUtf8;
    var labels, end := LabelsAt(buf, HEADER).value.0, LabelsAt(buf, HEADER).value.1;
    var q := Query(buf).value;
    LabelsAreEncoded(buf, HEADER);
    JoinIsUtf8(labels);
    NewDomainKeeps(Join(labels));
    U16Read(buf, 0, q.id);
    U16Read(buf, 4, 1);
    U16Read(buf, end, q.qtype);
    U16Read(buf, end + 2, q.qclass);
  }

  /** A message is accepted as the query `q` exactly when it asks for `q`. */
  lemma ParsesExactlyTheQueries(buf: seq<byte>, q: DnsQuery)
    ensures Query(buf) == Ok(q) <==> exists labels :: Asks(buf, q, labels)
  {
    if Query(buf) == Ok(q) {
      ParsedQueriesAsk(buf);
    }
    forall labels | Asks(buf, q, labels)
      ensures Query(buf) == Ok(q)
    {
      QueriesAreParsed(buf, q, labels);
    }
  }

  // ---------------------------------------------------------------- errors

  /** What is wrong at a position where a label or the end of the name should stand: the message ends too
      early, or the label is not UTF-8. */
  ghost predicate StuckAt(buf: seq<byte>, at: nat, e: DnsError) {
    match e
    case MalformedLabel => at + 4 > |buf| || (U32At(buf, at) != 0 && at + 4 + U32At(buf, at) > |buf|)
    case InvalidUtf8 =>
      && at + 4 <= |buf| && U32At(buf, at) != 0 && at + 4 + U32At(buf, at) <= |buf|
      && !IsUtf8(buf[at + 4..at + 4 + U32At(buf, at)])
    case _ => false
  }

  /** Some labels that can be sent, and then that. */
  ghost predicate StuckAfter(buf: seq<byte>, pos: nat, labels: seq<Text>, e: DnsError) {
    AllSendable(labels) && Has(buf, pos, LabelBytes(labels)) && StuckAt(buf, pos + |LabelBytes(labels)|, e)
  }

  lemma LabelBytesOf(labels: seq<Text>)
    requires labels != []
    ensures LabelBytes(labels) == ToBytes(|labels[0]|, 4) + labels[0] + LabelBytes(labels[1..])
  {
  }

  lemma FirstLabelIsSpelled(buf: seq<byte>, pos: nat, labels: seq<Text>)
    requires labels != []
    ensures var next := pos + 4 + |labels[0]|;
            && (Has(buf, pos, LabelBytes(labels))
                <==> && Has(buf, pos, ToBytes(|labels[0]|, 4)) && Has(buf, pos + 4, labels[0])
                     && Has(buf, next, LabelBytes(labels[1..])))
            && pos + |LabelBytes(labels)| == next + |LabelBytes(labels[1..])|
  {
    LabelBytesOf(labels);
    hide ToBytes, LabelBytes, Has;
    var length, first, rest := ToBytes(|labels[0]|, 4), labels[0], LabelBytes(labels[1..]);
    HasBoth(buf, pos, length + first, rest);
    HasBoth(buf, pos, length, first);
  }

  lemma OneLabelOn(buf: seq<byte>, pos: nat, part: Text)
    requires Sendable(part) && Has(buf, pos, ToBytes(|part|, 4)) && Has(buf, pos + 4, part)
    ensures LabelsAt(buf, pos).Err? <==> LabelsAt(buf, pos + 4 + |part|).Err?
    ensures LabelsAt(buf, pos).Err? ==> LabelsAt(buf, pos).error == LabelsAt(buf, pos + 4 + |part|).error
  {
    hide ToBytes, FromBytes, IsUtf8;
    U32Read(buf, pos, |part|);
  }

  lemma {:induction false} StuckIsReported(buf: seq<byte>, pos: nat, labels: seq<Text>, e: DnsError)
    requires StuckAfter(buf, pos, labels, e)
    ensures LabelsAt(buf, pos) == Err(e)
    decreases |labels|
  {
    hide IsUtf8;
    if labels != [] {
      FirstLabelIsSpelled(buf, pos, labels);
      hide LabelBytes, StuckAt, ToBytes, LabelsAt, Has, Sendable;
      assert AllSendable(labels[1..]) && Sendable(labels[0]);
      StuckIsReported(buf, pos + 4 + |labels[0]|, labels[1..], e);
      OneLabelOn(buf, pos, labels[0]);
    }
  }

  lemma {:induction false} ReportedIsStuck(buf: seq<byte>, pos: nat) returns (labels: seq<Text>)
    requires LabelsAt(buf, pos).Err? && pos <= |buf|
    ensures StuckAfter(buf, pos, labels, LabelsAt(buf, pos).error)
    decreases |buf| - pos
  {
    hide ToBytes, FromBytes, IsUtf8;
    if StuckAt(buf, pos, LabelsAt(buf, pos).error) {
      labels := [];
      assert LabelBytes([]) == [];
    } else {
      var next := pos + 4 + U32At(buf, pos);
      var part := buf[pos + 4..next];
      var rest := ReportedIsStuck(buf, next);
      labels := [part] + rest;
      assert labels[1..] == rest;
      U32Read(buf, pos, |part|);
      FirstLabelIsSpelled(buf, pos, labels);
    }
  }

  ghost predicate SpellsName(buf: seq<byte>, labels: seq<Text>) {
    AllSendable(labels) && Has(buf, 12, NameBytes(labels)) && IsUtf8(Join(labels))
  }

  /** What is wrong with a message: it has no header, or not one question, or its labels run out of the
      message or of UTF-8, or nothing but an incomplete question follows them, or they make no name. */
  ghost predicate Faulty(buf: seq<byte>, e: DnsError) {
    if |buf| < 12 then e == TooShort
    else if U16At(buf, 4) != 1 then e == UnsupportedQuestionCount
    else
      || (exists labels :: StuckAfter(buf, 12, labels, e))
      || (exists labels :: SpellsName(buf, labels)
            && if NameEnd(12, labels) + 4 > |buf| then e == MalformedLabel
               else exists cause :: e == InvalidDomain(cause) && IsAtFault(Join(labels), cause))
  }

  lemma AtFaultIff(name: Text, cause: DomainNameError)
    requires IsUtf8(name)
    ensures NewDomain(name) == Err(cause) <==> IsAtFault(name, cause)
  {
    hide NewDomain, AllPrintable, IsUtf8;
    NewDomainDecides(name);
    if IsAtFault(name, cause) && cause.NonPrintableChar? {
      FaultIsUnprintable(name, cause.offset);
      if NewDomain(name).Err? && NewDomain(name).error.NonPrintableChar? {
        FirstFaultIsUnique(name, cause.offset, NewDomain(name).error.offset);
      }
    }
    if NewDomain(name).Err? && NewDomain(name).error.NonPrintableChar? {
      FaultIsUnprintable(name, NewDomain(name).error.offset);
    }
  }

  lemma FaultIsUnprintable(text: Text, offset: nat)
    requires UnprintableFirstAt(text, offset)
    ensures !AllPrintable(text) && text != []
  {
  }

  lemma FirstFaultIsUnique(text: Text, i: nat, j: nat)
    requires UnprintableFirstAt(text, i) && UnprintableFirstAt(text, j)
    ensures i == j
  {
  }

  lemma FaultyIsRefused(buf: seq<byte>, e: DnsError)
    requires Faulty(buf, e)
    ensures Query(buf) == Err(e)
  {
    hide LabelBytes, ToBytes, FromBytes, NewDomain, IsAtFault, IsUtf8;
    if |buf| >= 12 && U16At(buf, 4) == 1 {
      if labels :| StuckAfter(buf, 12, labels, e) {
        StuckIsReported(buf, 12, labels, e);
      } else {
        var labels :| SpellsName(buf, labels)
          && (if NameEnd(12, labels) + 4 > |buf| then e == MalformedLabel
              else exists cause :: e == InvalidDomain(cause) && IsAtFault(Join(labels), cause));
        LabelsReadBack(buf, 12, labels);
        if NameEnd(12, labels) + 4 <= |buf| {
          var cause :| e == InvalidDomain(cause) && IsAtFault(Join(labels), cause);
          AtFaultIff(Join(labels), cause);
        }
      }
    }
  }

  lemma RefusedIsFaulty(buf: seq<byte>)
    requires Query(buf).Err?
    ensures Faulty(buf, Query(buf).error)
  {
    hide LabelBytes, ToBytes, FromBytes, NewDomain, IsAtFault, IsUtf8;
    if |buf| >= 12 && U16At(buf, 4) == 1 {
      if LabelsAt(buf, 12).Err? {
        var labels := ReportedIsStuck(buf, 12);
      } else {
        var labels := LabelsAt(buf, 12).value.0;
        LabelsAreEncoded(buf, 12);
        JoinIsUtf8(labels);
        assert SpellsName(buf, labels);
        if NameEnd(12, labels) + 4 <= |buf| {
          AtFaultIff(Join(labels), NewDomain(Join(labels)).error);
        }
      }
    }
  }

  /** A message is refused with an error exactly when that is what is wrong with it. */
  lemma RefusesExactlyTheFaulty(buf: seq<byte>, e: DnsError)
    ensures Query(buf) == Err(e) <==> Faulty(buf, e)
  {
    hide Faulty, Query;
    if Query(buf) == Err(e) {
      RefusedIsFaulty(buf);
    }
    if Faulty(buf, e) {
      FaultyIsRefused(buf, e);
    }
  }

  /** The labels of a parsed name survive the wire, also where a label of the query held dots. */
  lemma ParsedNameIsSendable(buf: seq<byte>)
    requires Query(buf).Ok?
    ensures IsUtf8(Query(buf).value.domain) && NewDomain(Query(buf).value.domain).Ok?
    ensures AllSendable(Split(Query(buf).value.domain))
  {
    ParsedQueriesAsk(buf);
    var labels := LabelsAt(buf, HEADER).value.0;
    var domain := Query(buf).value.domain;
    AcceptedLabels(domain);
    assert labels != [];
    SplitJoin(labels);
    PiecesBound(labels, 0x1_0000_0000);
  }
}
