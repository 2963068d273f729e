/** Reading domain names out of DNS messages (fcrdns.rs), compression pointers included: section
    4.1.4 of RFC 1035. */
module NameReader {
  import opened Bytes
  import opened Outcomes
  import opened Labels

  const MAX_JUMPS: nat := 32

  // ---------------------------------------------------------------- the reader, recursively

  /** A length byte whose two top bits are set starts a pointer, whose other 14 bits are an offset. */
  predicate IsPointer(length: byte) {
    length >= 0xC0
  }

  function Target(first: byte, second: byte): nat
    requires IsPointer(first)
  {
    (first - 0xC0) * 0x100 + second
  }

  /** The labels at `pos` and the position after them, following at most `jumps` pointers. */
  function Walk(buf: seq<byte>, pos: nat, jumps: nat): Option<(seq<Text>, nat)>
    decreases jumps, |buf| - pos
  {
    if pos >= |buf| then None
    else if buf[pos] == 0 then Some(([], pos + 1))
    else if IsPointer(buf[pos]) then
      if pos + 1 >= |buf| || jumps == 0 then None
      else
        match Walk(buf, Target(buf[pos], buf[pos + 1]), jumps - 1)
        case None => None
        case Some((labels, _)) => Some((labels, pos + 2))
    else
      var next := pos + 1 + buf[pos];
      if next > |buf| then None
      else
        match Walk(buf, next, jumps)
        case None => None
        case Some((labels, end)) => Some(([buf[pos + 1..next]] + labels, end))
  }

  /** Each label as text; bytes that are not UTF-8 are replaced (`from_utf8_lossy`). */
  function Texts(labels: seq<Text>, lossy: Text -> Text): (texts: seq<Text>)
    ensures |texts| == |labels|
  {
    if labels == [] then [] else [lossy(labels[0])] + Texts(labels[1..], lossy)
  }

  function NameAt(buf: seq<byte>, start: nat, lossy: Text -> Text): Option<(Text, nat)> {
    match Walk(buf, start, MAX_JUMPS)
    case None => None
    case Some((labels, end)) => Some((Join(Texts(labels, lossy)), end))
  }

  // ---------------------------------------------------------------- the reader, as a loop

  /** What is left to read, after some labels, seen from the start of the name. */
  function Resume(labels: seq<Text>, end: Option<nat>, rest: Option<(seq<Text>, nat)>): Option<(seq<Text>, nat)> {
    match rest
    case None => None
    case Some((more, next)) => Some((labels + more, if end.Some? then end.value else next))
  }

  lemma {:induction false} TextsAppend(labels: seq<Text>, last: Text, lossy: Text -> Text)
    ensures Texts(labels + [last], lossy) == Texts(labels, lossy) + [lossy(last)]
  {
    if labels == [] {
    } else {
      TextsAppend(labels[1..], last, lossy);
      assert (labels + [last])[1..] == labels[1..] + [last];
    }
  }

  lemma ResumeLabel(labels: seq<Text>, end: Option<nat>, piece: Text, rest: Option<(seq<Text>, nat)>)
    ensures Resume(labels, end, match rest
                                case None => None
                                case Some((more, next)) => Some(([piece] + more, next)))
            == Resume(labels + [piece], end, rest)
  {
    if rest.Some? {
      assert labels + ([piece] + rest.value.0) == labels + [piece] + rest.value.0;
    }
  }

  lemma ResumeFromStart(walk: Option<(seq<Text>, nat)>)
    ensures Resume([], None, walk) == walk
  {
    if walk.Some? {
      assert [] + walk.value.0 == walk.value.0;
    }
  }

  method ReadName(buf: seq<byte>, start: nat, lossy: Text -> Text) returns (name: Option<(Text, nat)>)
    ensures name == NameAt(buf, start, lossy)
  {
    var texts: seq<Text> := [];
    ghost var labels: seq<Text> := [];
    var pos: nat := start;
    var end: Option<nat> := None;
    var jumps := 0;
    ResumeFromStart(Walk(buf, start, MAX_JUMPS));
    while true
      invariant jumps <= MAX_JUMPS
      invariant texts == Texts(labels, lossy)
      invariant Walk(buf, start, MAX_JUMPS) == Resume(labels, end, Walk(buf, pos, MAX_JUMPS - jumps))
      decreases MAX_JUMPS - jumps, |buf| - pos
    {
      if pos >= |buf| {
        return None;
      }
      var length := buf[pos];
      if length == 0 {
        if end.None? {
          end := Some(pos + 1);
        }
        assert labels + [] == labels;
        break;
      }
      if IsPointer(length) {
        if pos + 1 >= |buf| {
          return None;
        }
        if end.None? {
          end := Some(pos + 2);
        }
        jumps := jumps + 1;
        if jumps > MAX_JUMPS {
          return None;
        }
        pos := Target(length, buf[pos + 1]);
        continue;
      }
      var next := pos + 1 + length;
      if next > |buf| {
        return None;
      }
      var piece := buf[pos + 1..next];
      ResumeLabel(labels, end, piece, Walk(buf, next, MAX_JUMPS - jumps));
      TextsAppend(labels, piece, lossy);
      texts := texts + [lossy(piece)];
      labels := labels + [piece];
      pos := next;
    }
    return Some((Join(texts), end.value));
  }

  // ---------------------------------------------------------------- what the reader takes for names

  /** A domain name in a message: a zero octet, a label and the rest of the name, or a pointer to
      where the rest is. The reader takes any other length octet below 192 for a label's, and pointers
      anywhere. */
  datatype Derivation = Root | Label(text: Text, rest: Derivation) | Pointer(target: nat, rest: Derivation)

  /** Two octets hold two ones and the 14 bits of an offset. */
  predicate PointsTo(buf: seq<byte>, pos: nat, target: nat) {
    pos + 1 < |buf| && target < 0x4000 && buf[pos..pos + 2] == ToBytes(0xC000 + target, 2)
  }

  ghost predicate Derives(buf: seq<byte>, pos: nat, d: Derivation)
    decreases d
  {
    && pos < |buf|
    && match d
       case Root => buf[pos] == 0
       case Label(text, rest) =>
         && buf[pos] == |text| && 0 < |text| < 0xC0
         && pos + 1 + |text| <= |buf| && buf[pos + 1..pos + 1 + |text|] == text
         && Derives(buf, pos + 1 + |text|, rest)
       case Pointer(target, rest) =>
         && PointsTo(buf, pos, target)
         && Derives(buf, target, rest)
  }

  function LabelsOf(d: Derivation): seq<Text> {
    match d
    case Root => []
    case Label(text, rest) => [text] + LabelsOf(rest)
    case Pointer(_, rest) => LabelsOf(rest)
  }

  function PointersOf(d: Derivation): nat {
    match d
    case Root => 0
    case Label(_, rest) => PointersOf(rest)
    case Pointer(_, rest) => 1 + PointersOf(rest)
  }

  /** Where the name ends in the message; a pointer ends it. */
  function EndOf(d: Derivation, pos: nat): nat {
    match d
    case Root => pos + 1
    case Label(text, rest) => EndOf(rest, pos + 1 + |text|)
    case Pointer(_, _) => pos + 2
  }

  lemma PointerOctets(n: nat)
    ensures ToBytes(n, 2) == [n / 256 % 256, n % 256]
  {
    assert ToBytes(n, 2) == ToBytes(n / 256, 1) + [n % 256];
    assert ToBytes(n / 256, 1) == ToBytes(n / 256 / 256, 0) + [n / 256 % 256];
  }

  lemma PointsToTarget(buf: seq<byte>, pos: nat, target: nat)
    ensures PointsTo(buf, pos, target)
            <==> pos + 1 < |buf| && IsPointer(buf[pos]) && target == Target(buf[pos], buf[pos + 1])
  {
    if pos + 1 < |buf| && target < 0x4000 {
      PointerOctets(0xC000 + target);
      assert buf[pos..pos + 2] == [buf[pos], buf[pos + 1]];
      assert (0xC000 + target) / 256 % 256 == 0xC0 + target / 256 && (0xC000 + target) % 256 == target % 256;
    }
  }

  /** The octets at a position say what stands there. */
  lemma FirstOctetDecides(buf: seq<byte>, pos: nat, d: Derivation)
    requires Derives(buf, pos, d)
    ensures d.Root? <==> buf[pos] == 0
    ensures d.Pointer? <==> IsPointer(buf[pos])
    ensures d.Label? ==> pos + 1 + buf[pos] <= |buf| && d.text == buf[pos + 1..pos + 1 + buf[pos]]
    ensures d.Pointer? ==> pos + 1 < |buf| && d.target == Target(buf[pos], buf[pos + 1])
  {
    if d.Pointer? {
      PointsToTarget(buf, pos, d.target);
    }
  }

  /** A position holds at most one name. */
  lemma {:induction false} DerivationIsUnique(buf: seq<byte>, pos: nat, d: Derivation, e: Derivation)
    requires Derives(buf, pos, d) && Derives(buf, pos, e)
    ensures d == e
    decreases d
  {
    FirstOctetDecides(buf, pos, d);
    FirstOctetDecides(buf, pos, e);
    if d.Label? {
      DerivationIsUnique(buf, pos + 1 + buf[pos], d.rest, e.rest);
    } else if d.Pointer? {
      DerivationIsUnique(buf, d.target, d.rest, e.rest);
    }
  }

  /** The reader reads every name with few enough pointers, as it stands in the message. */
  lemma {:induction false} WalkReads(buf: seq<byte>, pos: nat, jumps: nat, d: Derivation)
    requires Derives(buf, pos, d)
    ensures Walk(buf, pos, jumps) == if PointersOf(d) <= jumps then Some((LabelsOf(d), EndOf(d, pos))) else None
    decreases d
  {
    match d
    case Root =>
    case Label(text, rest) =>
      WalkReads(buf, pos + 1 + |text|, jumps, rest);
    case Pointer(target, rest) =>
      PointsToTarget(buf, pos, target);
      if jumps > 0 {
        WalkReads(buf, target, jumps - 1, rest);
      }
  }

  /** And it reads nothing else. */
  lemma {:induction false} WalkFinds(buf: seq<byte>, pos: nat, jumps: nat) returns (d: Derivation)
    requires Walk(buf, pos, jumps).Some?
    ensures Derives(buf, pos, d) && PointersOf(d) <= jumps
    decreases jumps, |buf| - pos
  {
    hide Has, ToBytes;
    if buf[pos] == 0 {
      d := Root;
    } else if IsPointer(buf[pos]) {
      var target := Target(buf[pos], buf[pos + 1]);
      var rest := WalkFinds(buf, target, jumps - 1);
      PointsToTarget(buf, pos, target);
      d := Pointer(target, rest);
    } else {
      var next := pos + 1 + buf[pos];
      var rest := WalkFinds(buf, next, jumps);
      d := Label(buf[pos + 1..next], rest);
    }
  }

  /** The reader succeeds exactly on the names of at most 32 pointers, and reads those. */
  lemma ReadsExactlyTheNames(buf: seq<byte>, start: nat, labels: seq<Text>, end: nat)
    ensures Walk(buf, start, MAX_JUMPS) == Some((labels, end))
            <==> exists d :: Derives(buf, start, d) && PointersOf(d) <= 32
                             && labels == LabelsOf(d) && end == EndOf(d, start)
  {
    if Walk(buf, start, MAX_JUMPS).Some? {
      var d := WalkFinds(buf, start, MAX_JUMPS);
      WalkReads(buf, start, MAX_JUMPS, d);
      forall e | Derives(buf, start, e)
        ensures e == d
      {
        DerivationIsUnique(buf, start, d, e);
      }
    } else {
      forall e | Derives(buf, start, e)
        ensures PointersOf(e) > 32
      {
        WalkReads(buf, start, MAX_JUMPS, e);
      }
    }
  }

  /** A name ends inside the message, after where it starts. */
  lemma {:induction false} EndsInside(buf: seq<byte>, pos: nat, jumps: nat)
    requires Walk(buf, pos, jumps).Some?
    ensures pos < Walk(buf, pos, jumps).value.1 <= |buf|
    decreases jumps, |buf| - pos
  {
    if buf[pos] != 0 && !IsPointer(buf[pos]) {
      EndsInside(buf, pos + 1 + buf[pos], jumps);
    }
  }

  // ---------------------------------------------------------------- pointer cycles

  /** Where reading goes on from a label or a pointer. */
  function Onward(buf: seq<byte>, pos: nat): Option<nat> {
    if pos >= |buf| || buf[pos] == 0 then None
    else if !IsPointer(buf[pos]) then Some(pos + 1 + buf[pos])
    else if pos + 1 < |buf| then Some(Target(buf[pos], buf[pos + 1]))
    else None
  }

  function OnwardBy(buf: seq<byte>, pos: nat, steps: nat): Option<nat>
    decreases steps
  {
    if steps == 0 then Some(pos)
    else
      match Onward(buf, pos)
      case None => None
      case Some(next) => OnwardBy(buf, next, steps - 1)
  }

  function Size(d: Derivation): nat {
    match d
    case Root => 0
    case Label(_, rest) => 1 + Size(rest)
    case Pointer(_, rest) => 1 + Size(rest)
  }

  lemma {:induction false} RestAfter(buf: seq<byte>, pos: nat, steps: nat, d: Derivation) returns (rest: Derivation)
    requires Derives(buf, pos, d) && OnwardBy(buf, pos, steps).Some?
    ensures Derives(buf, OnwardBy(buf, pos, steps).value, rest) && Size(d) == steps + Size(rest)
    decreases steps
  {
    if steps == 0 {
      rest := d;
    } else {
      OnwardIsRest(buf, pos, d);
      hide Derives, Onward;
      rest := RestAfter(buf, Onward(buf, pos).value, steps - 1, d.rest);
    }
  }

  lemma OnwardIsRest(buf: seq<byte>, pos: nat, d: Derivation)
    requires Derives(buf, pos, d)
    ensures Onward(buf, pos).Some? ==> !d.Root? && Derives(buf, Onward(buf, pos).value, d.rest) && Size(d) == 1 + Size(d.rest)
  {
    FirstOctetDecides(buf, pos, d);
  }

  /** Pointers that lead back to where they were found spell no name, and reading them fails. */
  lemma CyclesAreRefused(buf: seq<byte>, start: nat, lead: nat, pos: nat, steps: nat, lossy: Text -> Text)
    requires OnwardBy(buf, start, lead) == Some(pos) && steps > 0 && OnwardBy(buf, pos, steps) == Some(pos)
    ensures NameAt(buf, start, lossy) == None
  {
    if Walk(buf, start, MAX_JUMPS).Some? {
      var whole := WalkFinds(buf, start, MAX_JUMPS);
      var d := RestAfter(buf, start, lead, whole);
      var e := RestAfter(buf, pos, steps, d);
      DerivationIsUnique(buf, pos, d, e);
    }
  }

  // ---------------------------------------------------------------- the names of the standard

  const MAX_LABEL: nat := 63
  const MAX_NAME: nat := 255

  /** A name as section 4.1.4 of RFC 1035 spells it: labels of at most 63 octets, and pointers only to
      prior occurrences. */
  ghost predicate Spells(buf: seq<byte>, pos: nat, d: Derivation)
    decreases d
  {
    && pos < |buf|
    && match d
       case Root => buf[pos] == 0
       case Label(text, rest) =>
         && 0 < |text| <= MAX_LABEL && Has(buf, pos, [|text|] + text)
         && Spells(buf, pos + 1 + |text|, rest)
       case Pointer(target, rest) =>
         && PointsTo(buf, pos, target) && target < pos
         && Spells(buf, target, rest)
  }

  /** The octets that labels and their length octets take, with the zero octet at the end. */
  function Octets(labels: seq<Text>): nat {
    if labels == [] then 1 else 1 + |labels[0]| + Octets(labels[1..])
  }

  /** And of at most 255 octets in all: section 2.3.4. */
  ghost predicate IsName(buf: seq<byte>, pos: nat, d: Derivation) {
    Spells(buf, pos, d) && Octets(LabelsOf(d)) <= MAX_NAME
  }

  /** A length octet the standard reserves, or a pointer that does not point back. */
  predicate Offends(buf: seq<byte>, pos: nat) {
    && pos < |buf|
    && (MAX_LABEL < buf[pos] < 0xC0
        || (IsPointer(buf[pos]) && pos + 1 < |buf| && Target(buf[pos], buf[pos + 1]) >= pos))
  }

  lemma LabelOctets(buf: seq<byte>, pos: nat, text: Text)
    requires |text| < 0xC0
    ensures Has(buf, pos, [|text|] + text)
            <==> pos + 1 + |text| <= |buf| && buf[pos] == |text| && buf[pos + 1..pos + 1 + |text|] == text
  {
    HasBoth(buf, pos, [|text|], text);
    if pos + 1 <= |buf| {
      assert buf[pos..pos + 1] == [buf[pos]];
    }
  }

  lemma {:induction false} SpelledIsRead(buf: seq<byte>, pos: nat, d: Derivation)
    requires Spells(buf, pos, d)
    ensures Derives(buf, pos, d)
    decreases d
  {
    match d
    case Root =>
    case Label(text, rest) =>
      LabelOctets(buf, pos, text);
      SpelledIsRead(buf, pos + 1 + |text|, rest);
    case Pointer(target, rest) =>
      SpelledIsRead(buf, target, rest);
  }

  ghost predicate OffendsAfter(buf: seq<byte>, pos: nat, steps: nat) {
    match OnwardBy(buf, pos, steps)
    case None => false
    case Some(at) => Offends(buf, at)
  }

  lemma StepDecides(buf: seq<byte>, pos: nat, d: Derivation)
    requires Derives(buf, pos, d)
    ensures d.Root? ==> Onward(buf, pos) == None && !Offends(buf, pos) && Spells(buf, pos, d)
    ensures d.Label? ==> Onward(buf, pos) == Some(pos + 1 + |d.text|)
                         && (Spells(buf, pos, d) <==> !Offends(buf, pos) && Spells(buf, pos + 1 + |d.text|, d.rest))
    ensures d.Pointer? ==> Onward(buf, pos) == Some(d.target)
                           && (Spells(buf, pos, d) <==> !Offends(buf, pos) && Spells(buf, d.target, d.rest))
  {
    FirstOctetDecides(buf, pos, d);
    if d.Label? {
      LabelOctets(buf, pos, d.text);
    }
  }

  lemma OffendsOnward(buf: seq<byte>, pos: nat, next: nat)
    requires Onward(buf, pos) == Some(next)
    ensures (exists k: nat :: OffendsAfter(buf, pos, k)) <==> Offends(buf, pos) || exists k: nat :: OffendsAfter(buf, next, k)
  {
    hide Offends, Onward;
    assert OffendsAfter(buf, pos, 0) <==> Offends(buf, pos);
    forall k: nat
      ensures OffendsAfter(buf, pos, k + 1) <==> OffendsAfter(buf, next, k)
    {
    }
    if k: nat :| OffendsAfter(buf, next, k) {
      assert OffendsAfter(buf, pos, k + 1);
    }
    if k: nat :| OffendsAfter(buf, pos, k) && k > 0 {
      assert OffendsAfter(buf, next, k - 1);
    }
  }

  lemma EndsThere(buf: seq<byte>, pos: nat, k: nat)
    requires Onward(buf, pos) == None && !Offends(buf, pos)
    ensures !OffendsAfter(buf, pos, k)
  {
  }

  /** What is read strays from the standard's spelling exactly where an octet met on the way offends. */
  lemma {:induction false} StraysExactlyWhere(buf: seq<byte>, pos: nat, d: Derivation)
    requires Derives(buf, pos, d)
    ensures !Spells(buf, pos, d) <==> exists k: nat :: OffendsAfter(buf, pos, k)
    decreases d
  {
    StepDecides(buf, pos, d);
    hide Spells, Derives, OffendsAfter, Offends, Onward;
    match d
    case Root =>
      forall k: nat
        ensures !OffendsAfter(buf, pos, k)
      {
        EndsThere(buf, pos, k);
      }
    case Label(text, rest) =>
      RestDerives(buf, pos, d);
      StraysExactlyWhere(buf, pos + 1 + |text|, rest);
      OffendsOnward(buf, pos, pos + 1 + |text|);
    case Pointer(target, rest) =>
      RestDerives(buf, pos, d);
      StraysExactlyWhere(buf, target, rest);
      OffendsOnward(buf, pos, target);
  }

  lemma RestDerives(buf: seq<byte>, pos: nat, d: Derivation)
    requires Derives(buf, pos, d)
    ensures d.Label? ==> Derives(buf, pos + 1 + |d.text|, d.rest)
    ensures d.Pointer? ==> Derives(buf, d.target, d.rest)
  {
  }

  /** Every name of the standard with at most 32 pointers is read. */
  lemma NamesAreRead(buf: seq<byte>, start: nat, d: Derivation)
    requires IsName(buf, start, d) && PointersOf(d) <= 32
    ensures Walk(buf, start, MAX_JUMPS) == Some((LabelsOf(d), EndOf(d, start)))
  {
    SpelledIsRead(buf, start, d);
    WalkReads(buf, start, MAX_JUMPS, d);
  }

  /** What is read is a name of the standard unless an octet met on the way offends or it is too long. */
  lemma ReadIsNameIff(buf: seq<byte>, start: nat)
    requires Walk(buf, start, MAX_JUMPS).Some?
    ensures (exists d :: IsName(buf, start, d))
            <==> (forall k: nat :: !OffendsAfter(buf, start, k))
                 && Octets(Walk(buf, start, MAX_JUMPS).value.0) <= MAX_NAME
  {
    hide Spells, OffendsAfter, Walk, Octets;
    var d := WalkFinds(buf, start, MAX_JUMPS);
    WalkReads(buf, start, MAX_JUMPS, d);
    StraysExactlyWhere(buf, start, d);
    forall e | IsName(buf, start, e)
      ensures e == d
    {
      SpelledIsRead(buf, start, e);
      DerivationIsUnique(buf, start, d, e);
    }
    if Spells(buf, start, d) && Octets(LabelsOf(d)) <= MAX_NAME {
      assert IsName(buf, start, d);
    }
  }
}
