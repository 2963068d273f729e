/** The gossip exchange (gossip.rs, and the message handler of node.rs): digest, request with a
    challenge, rumors. */
module Gossip {
  import opened Bytes
  import opened Outcomes
  import opened Tokens
  import opened Collision
  import opened Identity
  import opened Registry
  import opened FirstFiveClaims
  import opened Runs

  // ---------------------------------------------------------------- messages

  const MAX_DIGEST_ENTRIES := 4096
  const MAX_REQUEST_ENTRIES := 4096
  const MAX_PENDING_CHALLENGES := 10_000
  const PENDING_CHALLENGE_TIMEOUT := 10_000

  datatype Challenge = Challenge(tokenA: Token, tokenB: Token, condition: WinCondition)

  function ExpectedAnswer(c: Challenge): Token {
    Resolve(c.condition, c.tokenA, c.tokenB)
  }

  /** By issue time, and at equal times by nonce. */
  predicate NotAfter(a: Token, b: Token) {
    a.issuedAt < b.issuedAt || (a.issuedAt == b.issuedAt && !LexLess(b.nonce, a.nonce))
  }

  /** Of the two tokens the one that is not before the other, or the one that is not after it, as the
      condition says. */
  predicate IsRightAnswer(c: Challenge, answer: Token) {
    && (answer == c.tokenA || answer == c.tokenB)
    && match c.condition
       case HigherWins => NotAfter(c.tokenA, answer) && NotAfter(c.tokenB, answer)
       case LowerWins => NotAfter(answer, c.tokenA) && NotAfter(answer, c.tokenB)
  }

  /** A challenge has exactly one right answer. */
  lemma ChallengeHasOneAnswer(c: Challenge, answer: Token)
    ensures IsRightAnswer(c, answer) <==> answer == ExpectedAnswer(c)
  {
    OrderingKeyIsTimeThenNonce(c.tokenA, c.tokenB);
    OrderingKeyIsTimeThenNonce(c.tokenB, c.tokenA);
    PrecedesIsTotal(c.tokenA, c.tokenB);
    LexTotal(c.tokenA.nonce, c.tokenB.nonce);
    LexIrreflexive(c.tokenA.nonce);
    LexIrreflexive(c.tokenB.nonce);
    if LexLess(c.tokenA.nonce, c.tokenB.nonce) && LexLess(c.tokenB.nonce, c.tokenA.nonce) {
      LexTransitive(c.tokenA.nonce, c.tokenB.nonce, c.tokenA.nonce);
    }
    hide Precedes, LexLess;
  }

  datatype DigestEntry = DigestEntry(domain: Domain, issuedAt: Millis)

  datatype GossipMessage =
    | Digest(entries: seq<DigestEntry>)
    | Request(domains: seq<Domain>, challenge: Challenge)
    | Rumors(rumors: seq<Rumor>, answer: Token)

  ghost predicate Distinct(domains: seq<Domain>) {
    forall i, j | 0 <= i < j < |domains| :: domains[i] != domains[j]
  }

  function EntryDomains(entries: seq<DigestEntry>): (domains: seq<Domain>)
    ensures |domains| == |entries| && forall i | 0 <= i < |entries| :: domains[i] == entries[i].domain
  {
    seq(|entries|, i requires 0 <= i < |entries| => entries[i].domain)
  }

  function RumorDomains(rumors: seq<Rumor>): (domains: seq<Domain>)
    ensures |domains| == |rumors| && forall i | 0 <= i < |rumors| :: domains[i] == rumors[i].domain
  {
    seq(|rumors|, i requires 0 <= i < |rumors| => rumors[i].domain)
  }

  /** Scans with a set of the names seen so far. */
  method UniqueDomains(domains: seq<Domain>) returns (unique: bool)
    ensures unique <==> Distinct(domains)
  {
    var seen := {};
    for i := 0 to |domains|
      invariant Distinct(domains[..i])
      invariant forall d :: d in seen <==> d in domains[..i]
    {
      if domains[i] in seen {
        var j :| 0 <= j < i && domains[..i][j] == domains[i];
        return false;
      }
      seen := seen + {domains[i]};
      assert domains[..i + 1] == domains[..i] + [domains[i]];
    }
    assert domains[..|domains|] == domains;
    return true;
  }

  ghost predicate IsWellFormed(message: GossipMessage) {
    match message
    case Digest(entries) => |entries| <= MAX_DIGEST_ENTRIES && Distinct(EntryDomains(entries))
    case Request(domains, _) => |domains| <= MAX_REQUEST_ENTRIES && Distinct(domains)
    case Rumors(rumors, _) => |rumors| <= MAX_DIGEST_ENTRIES && Distinct(RumorDomains(rumors))
  }

  ghost predicate IsValidRumorResponse(requested: seq<Domain>, rumors: seq<Rumor>) {
    && (forall r | r in rumors :: r.domain in requested)
    && Distinct(RumorDomains(rumors))
  }

  // ---------------------------------------------------------------- the node's gossip state

  type Address = string

  /** A reading of the monotonic clock, in milliseconds. */
  type Instant = nat

  datatype Pending = Pending(challenge: Challenge, requested: seq<Domain>, issuedAt: Instant)

  /** What the node has done so far; entries refer to requests by their position. */
  datatype LogEntry =
    | Asked(to: Address, domains: seq<Domain>, challenge: Challenge)
    | Answered(request: nat, sender: Address, answer: Token)
    | Adopted(request: nat, sender: Address, rumor: Rumor)

  /** `log` and `open` (the position of each pending request) are history: nothing reads them. */
  datatype Node = Node(
    store: Store, pending: map<Address, Pending>, log: seq<LogEntry>, open: map<Address, nat>)

  function Missing(s: Store, entries: seq<DigestEntry>): seq<Domain> {
    if entries == [] then []
    else
      var e := entries[|entries| - 1];
      Missing(s, entries[..|entries| - 1])
      + if e.domain in s.registrations && s.registrations[e.domain].token.issuedAt >= e.issuedAt then [] else [e.domain]
  }

  function Served(s: Store, domains: seq<Domain>): seq<Rumor> {
    if domains == [] then []
    else
      var d := domains[|domains| - 1];
      Served(s, domains[..|domains| - 1])
      + if d in s.registrations && s.registrations[d].rumor.Some?
        then [s.registrations[d].rumor.value.(domain := d)] else []
  }

  function AdoptAll(ed: Ed25519, s: Store, rumors: seq<Rumor>, now: Millis): Store {
    if rumors == [] then s
    else AdoptRumor(ed, AdoptAll(ed, s, rumors[..|rumors| - 1], now), rumors[|rumors| - 1], now)
  }

  function AdoptedLog(request: nat, sender: Address, rumors: seq<Rumor>): (log: seq<LogEntry>)
    ensures |log| == |rumors|
    ensures forall i | 0 <= i < |rumors| :: log[i] == Adopted(request, sender, rumors[i])
  {
    seq(|rumors|, i requires 0 <= i < |rumors| => Adopted(request, sender, rumors[i]))
  }

  ghost predicate MustEvict(n: Node, from: Address) {
    from !in n.pending && |n.pending| >= MAX_PENDING_CHALLENGES
  }

  predicate IsOldest(pending: map<Address, Pending>, a: Address) {
    a in pending && forall b | b in pending :: pending[a].issuedAt <= pending[b].issuedAt
  }

  /** `victim` is the oldest entry found, which matters only when the table is full. */
  ghost function Ask(n: Node, from: Address, missing: seq<Domain>, challenge: Challenge, clock: Instant,
                     victim: Address): Node {
    var kept := if MustEvict(n, from) then n.pending - {victim} else n.pending;
    var open := if MustEvict(n, from) then n.open - {victim} else n.open;
    n.(pending := kept[from := Pending(challenge, missing, clock)],
       open := open[from := |n.log|],
       log := n.log + [Asked(from, missing, challenge)])
  }

  ghost function TakeRumors(ed: Ed25519, n: Node, from: Address, rumors: seq<Rumor>, answer: Token, now: Millis): Node
    requires from in n.pending ==> from in n.open
  {
    if from !in n.pending then n
    else
      var request, id := n.pending[from], n.open[from];
      var closed := n.(pending := n.pending - {from}, open := n.open - {from}, log := n.log + [Answered(id, from,
          answer)]);
      if answer != ExpectedAnswer(request.challenge) || !IsValidRumorResponse(request.requested, rumors) then closed
      else closed.(store := AdoptAll(ed, n.store, rumors, now), log := closed.log + AdoptedLog(id, from, rumors))
  }

  /** One received message: dropped when malformed, otherwise handled; the second component is the
      reply sent to `from`. */
  ghost function Receive(ed: Ed25519, n: Node, from: Address, message: GossipMessage, challenge: Challenge,
                         clock: Instant, now: Millis, victim: Address): (Node, Option<GossipMessage>)
    requires from in n.pending ==> from in n.open
  {
    if !IsWellFormed(message) then (n, None)
    else match message
      case Digest(entries) =>
        var missing := Missing(n.store, entries);
        if missing == [] then (n, None)
        else (Ask(n, from, missing, challenge, clock, victim), Some(Request(missing, challenge)))
      case Request(domains, theirs) => (n, Some(Rumors(Served(n.store, domains), ExpectedAnswer(theirs))))
      case Rumors(rumors, answer) => (TakeRumors(ed, n, from, rumors, answer, now), None)
  }

  /** The maintenance task drops requests that have waited too long. */
  function Prune(n: Node, clock: Instant): Node {
    var kept := map a | a in n.pending
        && SaturatingSub(clock, n.pending[a].issuedAt) < PENDING_CHALLENGE_TIMEOUT :: n.pending[a];
    n.(pending := kept, open := map a | a in n.open && a in kept :: n.open[a])
  }

  /** An answer that comes before its request has waited for ten seconds is treated as if nothing had
      been dropped; a later one is ignored. */
  lemma OnlyLateAnswersAreLost(ed: Ed25519, n: Node, clock: Instant, from: Address, rumors: seq<Rumor>, answer: Token,
                               now: Millis)
    requires n.open.Keys == n.pending.Keys
    ensures var pruned := Prune(n, clock);
            var (before, after) := (TakeRumors(ed, n, from, rumors, answer, now), TakeRumors(ed, pruned, from, rumors, answer, now));
            if from in n.pending && clock < n.pending[from].issuedAt + 10_000
            then after.store == before.store && after.log == before.log
            else after == pruned
  {
    hide AdoptAll, IsValidRumorResponse, ExpectedAnswer;
  }

  // ---------------------------------------------------------------- safety over all runs

  datatype NodeEvent =
    | Message(from: Address, message: GossipMessage, challenge: Challenge, clock: Instant, now: Millis, victim: Address)
    | Maintenance(clock: Instant)
    | Local(step: Step)

  ghost predicate Possible(n: Node, event: NodeEvent) {
    match event
    case Message(from, _, _, _, _, victim) => MustEvict(n, from) ==> IsOldest(n.pending, victim)
    case Maintenance(_) => true
    case Local(step) => Enabled(n.store, step) && !step.AdoptStep?
  }

  ghost function After(ed: Ed25519, n: Node, event: NodeEvent): Node
    requires n.open.Keys == n.pending.Keys
  {
    match event
    case Message(from, message, challenge, clock, now, victim) =>
      Receive(ed, n, from, message, challenge, clock, now, victim).0
    case Maintenance(clock) => Prune(n, clock)
    case Local(step) => n.(store := Next(ed, n.store, step))
  }

  predicate IsAsked(log: seq<LogEntry>, i: nat, a: Address) {
    i < |log| && log[i].Asked? && log[i].to == a
  }

  /** An answer refers to an earlier request sent to the answering address, and no request is
      answered twice. */
  ghost predicate AnswersMatchRequests(log: seq<LogEntry>) {
    && (forall j | 0 <= j < |log| && log[j].Answered?
        :: log[j].request < j && IsAsked(log, log[j].request, log[j].sender))
    && (forall i, j | 0 <= i < j < |log| && log[i].Answered? && log[j].Answered? :: log[i].request != log[j].request)
  }

  /** The answer that a request got, at this position. */
  predicate Answers(log: seq<LogEntry>, j: nat, request: nat, sender: Address) {
    && j < |log| && log[j].Answered? && log[j].request == request && log[j].sender == sender
    && IsAsked(log, request, sender) && log[j].answer == ExpectedAnswer(log[request].challenge)
  }

  predicate Requested(log: seq<LogEntry>, k: nat)
    requires k < |log| && log[k].Adopted?
  {
    log[k].request < k && IsAsked(log, log[k].request, log[k].sender)
        && log[k].rumor.domain in log[log[k].request].domains
  }

  /** Every adoption answers an earlier request of this node to that address, after a correct answer
      to its challenge, and covers a name asked for, each at most once. */
  ghost predicate AdoptionsMatchRequests(log: seq<LogEntry>) {
    && (forall k | 0 <= k < |log| && log[k].Adopted? ::
          Requested(log, k) && exists j :: log[k].request < j < k && Answers(log, j, log[k].request, log[k].sender))
    && (forall k, l | 0 <= k < l < |log| && log[k].Adopted? && log[l].Adopted? && log[k].request == log[l].request
          :: log[k].rumor.domain != log[l].rumor.domain)
  }

  /** The request behind a pending entry has had no answer. */
  ghost predicate OpenAt(n: Node, a: Address)
    requires a in n.pending && a in n.open
  {
    && n.open[a] < |n.log|
    && n.log[n.open[a]] == Asked(a, n.pending[a].requested, n.pending[a].challenge)
    && forall j | 0 <= j < |n.log| && n.log[j].Answered? :: n.log[j].request != n.open[a]
  }

  /** Each pending entry is a request in the log that has not been answered. */
  ghost predicate PendingIsOpen(n: Node) {
    && n.open.Keys == n.pending.Keys
    && (forall a | a in n.pending :: OpenAt(n, a))
  }

  ghost predicate Safe(n: Node) {
    && AnswersMatchRequests(n.log) && AdoptionsMatchRequests(n.log) && PendingIsOpen(n)
    && |n.pending| <= 10_000
  }

  lemma PrefixKeepsRequests(log: seq<LogEntry>, more: seq<LogEntry>, k: nat)
    requires AdoptionsMatchRequests(log) && k < |log| && log[k].Adopted?
    ensures Requested(log + more, k)
    ensures exists j :: log[k].request < j < k && Answers(log + more, j, log[k].request, log[k].sender)
  {
    var j :| log[k].request < j < k && Answers(log, j, log[k].request, log[k].sender);
    assert Answers(log + more, j, log[k].request, log[k].sender);
  }

  /** Asking somebody is remembered, and forgets nobody else, unless the table is full and the address new;
      then it forgets one who has waited longest. */
  lemma AskingForgetsAtMostOne(n: Node, from: Address, missing: seq<Domain>, challenge: Challenge, clock: Instant,
                               victim: Address)
    requires MustEvict(n, from) ==> IsOldest(n.pending, victim)
    ensures var pending := Ask(n, from, missing, challenge, clock, victim).pending;
            && from in pending && pending[from] == Pending(challenge, missing, clock)
            && forall a | a in n.pending && a != from ::
                 || (a in pending && pending[a] == n.pending[a])
                 || (&& a == victim && from !in n.pending && |n.pending| >= 10_000
                     && forall b | b in n.pending :: n.pending[a].issuedAt <= n.pending[b].issuedAt)
  {
  }

  lemma AskingKeepsBound(n: Node, from: Address, missing: seq<Domain>, challenge: Challenge, clock: Instant,
                         victim: Address)
    requires |n.pending| <= MAX_PENDING_CHALLENGES && (MustEvict(n, from) ==> victim in n.pending)
    ensures |Ask(n, from, missing, challenge, clock, victim).pending| <= MAX_PENDING_CHALLENGES
  {
    var pending := Ask(n, from, missing, challenge, clock, victim).pending;
    assert |pending| == |pending.Keys| && |n.pending| == |n.pending.Keys|;
    if MustEvict(n, from) {
      assert pending.Keys == n.pending.Keys - {victim} + {from};
    } else if from in n.pending {
      assert pending.Keys == n.pending.Keys;
    } else {
      assert pending.Keys == n.pending.Keys + {from};
    }
  }

  lemma AskingKeepsOthersOpen(n: Node, from: Address, missing: seq<Domain>, challenge: Challenge, clock: Instant,
                              victim: Address, a: Address)
    requires n.open.Keys == n.pending.Keys && a != from
    requires a in Ask(n, from, missing, challenge, clock, victim).pending
    ensures a in n.pending && a in n.open && a in Ask(n, from, missing, challenge, clock, victim).open
    ensures OpenAt(n, a) ==> OpenAt(Ask(n, from, missing, challenge, clock, victim), a)
  {
  }

  lemma AskingOpens(n: Node, from: Address, missing: seq<Domain>, challenge: Challenge, clock: Instant, victim: Address)
    requires AnswersMatchRequests(n.log)
    ensures var t := Ask(n, from, missing, challenge, clock, victim);
            from in t.pending && from in t.open && OpenAt(t, from)
  {
  }

  lemma AskingKeepsOpen(n: Node, from: Address, missing: seq<Domain>, challenge: Challenge, clock: Instant,
                        victim: Address)
    requires PendingIsOpen(n) && AnswersMatchRequests(n.log)
    ensures PendingIsOpen(Ask(n, from, missing, challenge, clock, victim))
  {
    AskingOpens(n, from, missing, challenge, clock, victim);
    hide AnswersMatchRequests, OpenAt;
    var t := Ask(n, from, missing, challenge, clock, victim);
    assert t.open.Keys == t.pending.Keys;
    forall a | a in t.pending
      ensures a in t.open && OpenAt(t, a)
    {
      if a != from {
        AskingKeepsOthersOpen(n, from, missing, challenge, clock, victim, a);
      }
    }
  }

  lemma AskingIsSafe(n: Node, from: Address, missing: seq<Domain>, challenge: Challenge, clock: Instant,
                     victim: Address)
    requires Safe(n) && (MustEvict(n, from) ==> IsOldest(n.pending, victim))
    ensures Safe(Ask(n, from, missing, challenge, clock, victim))
  {
    AskingKeepsBound(n, from, missing, challenge, clock, victim);
    AskingKeepsOpen(n, from, missing, challenge, clock, victim);
    AppendedAskKeepsLog(n.log, Asked(from, missing, challenge));
  }

  lemma AppendedAskKeepsLog(log: seq<LogEntry>, entry: LogEntry)
    requires AnswersMatchRequests(log) && AdoptionsMatchRequests(log) && entry.Asked?
    ensures AnswersMatchRequests(log + [entry]) && AdoptionsMatchRequests(log + [entry])
  {
    hide Answers;
    var more := log + [entry];
    forall k | 0 <= k < |more| && more[k].Adopted?
      ensures Requested(more, k) && exists j ::
          more[k].request < j < k && Answers(more, j, more[k].request, more[k].sender)
    {
      PrefixKeepsRequests(log, [entry], k);
    }
  }

  lemma AppendedAnswerKeepsLog(log: seq<LogEntry>, entry: LogEntry)
    requires AnswersMatchRequests(log) && AdoptionsMatchRequests(log)
    requires entry.Answered? && IsAsked(log, entry.request, entry.sender)
    requires forall j | 0 <= j < |log| && log[j].Answered? :: log[j].request != entry.request
    ensures AnswersMatchRequests(log + [entry]) && AdoptionsMatchRequests(log + [entry])
  {
    hide Answers;
    var more := log + [entry];
    forall k | 0 <= k < |more| && more[k].Adopted?
      ensures Requested(more, k) && exists j ::
          more[k].request < j < k && Answers(more, j, more[k].request, more[k].sender)
    {
      PrefixKeepsRequests(log, [entry], k);
    }
  }

  /** A request that has had no answer has had no adoption. */
  lemma UnansweredUnadopted(log: seq<LogEntry>, request: nat)
    requires AdoptionsMatchRequests(log)
    requires forall j | 0 <= j < |log| && log[j].Answered? :: log[j].request != request
    ensures forall k | 0 <= k < |log| && log[k].Adopted? :: log[k].request != request
  {
    forall k | 0 <= k < |log| && log[k].Adopted?
      ensures log[k].request != request
    {
      var j :| log[k].request < j < k && Answers(log, j, log[k].request, log[k].sender);
    }
  }

  lemma AppendedAdoptionsKeepLog(log: seq<LogEntry>, request: nat, sender: Address, rumors: seq<Rumor>)
    requires log != [] && AnswersMatchRequests(log) && AdoptionsMatchRequests(log)
    requires Answers(log, |log| - 1, request, sender) && IsValidRumorResponse(log[request].domains, rumors)
    requires forall k | 0 <= k < |log| && log[k].Adopted? :: log[k].request != request
    ensures AnswersMatchRequests(log + AdoptedLog(request, sender, rumors))
    ensures AdoptionsMatchRequests(log + AdoptedLog(request, sender, rumors))
  {
    var tail := AdoptedLog(request, sender, rumors);
    var more := log + tail;
    assert Answers(more, |log| - 1, request, sender);
    forall k | 0 <= k < |more| && more[k].Adopted?
      ensures Requested(more, k) && exists j ::
          more[k].request < j < k && Answers(more, j, more[k].request, more[k].sender)
    {
      if k < |log| {
        PrefixKeepsRequests(log, tail, k);
      } else {
        assert more[k] == tail[k - |log|] == Adopted(request, sender, rumors[k - |log|]);
        assert rumors[k - |log|] in rumors;
      }
    }
    AppendedAdoptionsDiffer(log, request, sender, rumors);
  }

  lemma AppendedAdoptionsDiffer(log: seq<LogEntry>, request: nat, sender: Address, rumors: seq<Rumor>)
    requires AdoptionsMatchRequests(log) && Distinct(RumorDomains(rumors))
    requires forall k | 0 <= k < |log| && log[k].Adopted? :: log[k].request != request
    ensures var more := log + AdoptedLog(request, sender, rumors);
            forall k, l | 0 <= k < l < |more| && more[k].Adopted? && more[l].Adopted? && more[k].request == more[l].request
              :: more[k].rumor.domain != more[l].rumor.domain
  {
    hide Answers, Requested;
    var more := log + AdoptedLog(request, sender, rumors);
    forall k, l | 0 <= k < l < |more| && more[k].Adopted? && more[l].Adopted? && more[k].request == more[l].request
      ensures more[k].rumor.domain != more[l].rumor.domain
    {
      if |log| <= k {
        assert RumorDomains(rumors)[k - |log|] != RumorDomains(rumors)[l - |log|];
      }
    }
  }

  lemma TakingRumorsKeepsLog(ed: Ed25519, n: Node, from: Address, rumors: seq<Rumor>, answer: Token, now: Millis)
    requires AnswersMatchRequests(n.log) && AdoptionsMatchRequests(n.log) && PendingIsOpen(n) && from in n.pending
    ensures var t := TakeRumors(ed, n, from, rumors, answer, now);
            AnswersMatchRequests(t.log) && AdoptionsMatchRequests(t.log)
  {
    var request, id := n.pending[from], n.open[from];
    var log := n.log + [Answered(id, from, answer)];
    AppendedAnswerKeepsLog(n.log, Answered(id, from, answer));
    if answer == ExpectedAnswer(request.challenge) && IsValidRumorResponse(request.requested, rumors) {
      UnansweredUnadopted(n.log, id);
      assert log[id] == n.log[id];
      AppendedAdoptionsKeepLog(log, id, from, rumors);
    }
  }

  lemma TakingRumorsClosesOne(ed: Ed25519, n: Node, from: Address, rumors: seq<Rumor>, answer: Token, now: Millis)
    requires n.open.Keys == n.pending.Keys && from in n.pending
    ensures var t := TakeRumors(ed, n, from, rumors, answer, now);
            && n.log <= t.log && t.pending == n.pending - {from} && t.open == n.open - {from}
            && forall j | |n.log| <= j < |t.log| && t.log[j].Answered? :: t.log[j].request == n.open[from]
  {
    var log := n.log + [Answered(n.open[from], from, answer)];
    var tail := AdoptedLog(n.open[from], from, rumors);
    assert forall j | |log| <= j < |log + tail| :: (log + tail)[j] == tail[j - |log|];
  }

  lemma TakingRumorsIsSafe(ed: Ed25519, n: Node, from: Address, rumors: seq<Rumor>, answer: Token, now: Millis)
    requires Safe(n)
    ensures Safe(TakeRumors(ed, n, from, rumors, answer, now))
  {
    if from in n.pending {
      var t := TakeRumors(ed, n, from, rumors, answer, now);
      TakingRumorsKeepsLog(ed, n, from, rumors, answer, now);
      TakingRumorsClosesOne(ed, n, from, rumors, answer, now);
      SubsetSize(t.pending.Keys, n.pending.Keys);
      assert |t.pending| == |t.pending.Keys| && |n.pending| == |n.pending.Keys|;
      OthersStayOpen(n, t, from);
    }
  }

  lemma OthersStayOpen(n: Node, t: Node, from: Address)
    requires PendingIsOpen(n) && from in n.pending
    requires n.log <= t.log && t.pending == n.pending - {from} && t.open == n.open - {from}
    requires forall j | |n.log| <= j < |t.log| && t.log[j].Answered? :: t.log[j].request == n.open[from]
    ensures PendingIsOpen(t)
  {
    forall a | a in t.pending
      ensures t.open[a] != n.open[from]
    {
      assert n.log[n.open[a]] == Asked(a, n.pending[a].requested, n.pending[a].challenge);
      assert n.log[n.open[from]] == Asked(from, n.pending[from].requested, n.pending[from].challenge);
    }
  }

  lemma ReceivingIsSafe(ed: Ed25519, n: Node, from: Address, message: GossipMessage, challenge: Challenge,
                        clock: Instant, now: Millis, victim: Address)
    requires Safe(n) && n.open.Keys == n.pending.Keys && (MustEvict(n, from) ==> IsOldest(n.pending, victim))
    ensures Safe(Receive(ed, n, from, message, challenge, clock, now, victim).0)
  {
    hide Safe, Ask, TakeRumors, Missing, Served, IsWellFormed, IsOldest, MustEvict;
    match message
    case Digest(entries) => AskingIsSafe(n, from, Missing(n.store, entries), challenge, clock, victim);
    case Request(_, _) =>
    case Rumors(rumors, answer) => TakingRumorsIsSafe(ed, n, from, rumors, answer, now);
  }

  lemma AfterIsSafe(ed: Ed25519, n: Node, event: NodeEvent)
    requires Safe(n) && Possible(n, event)
    ensures Safe(After(ed, n, event))
  {
    SafeIsOpen(n);
    hide Safe, Receive, Prune, Next, Enabled;
    match event
    case Message(from, message, challenge, clock, now, victim) =>
      ReceivingIsSafe(ed, n, from, message, challenge, clock, now, victim);
    case Maintenance(clock) => PruningIsSafe(n, clock);
    case Local(step) => OtherStoreIsSafe(n, Next(ed, n.store, step));
  }

  lemma OtherStoreIsSafe(n: Node, s: Store)
    requires Safe(n)
    ensures Safe(n.(store := s))
  {
    hide AnswersMatchRequests, AdoptionsMatchRequests;
  }

  lemma SafeIsOpen(n: Node)
    requires Safe(n)
    ensures n.open.Keys == n.pending.Keys
  {
  }

  lemma PruningIsSafe(n: Node, clock: Instant)
    requires Safe(n)
    ensures Safe(Prune(n, clock))
  {
    var t := Prune(n, clock);
    assert t.log == n.log && t.pending.Keys <= n.pending.Keys;
    PruningKeepsOpen(n, clock);
    hide AnswersMatchRequests, AdoptionsMatchRequests, Prune, PendingIsOpen;
    SubsetSize(t.pending.Keys, n.pending.Keys);
    assert |t.pending| == |t.pending.Keys| && |n.pending| == |n.pending.Keys|;
  }

  lemma PruningKeepsOpen(n: Node, clock: Instant)
    requires PendingIsOpen(n)
    ensures PendingIsOpen(Prune(n, clock))
  {
    var t := Prune(n, clock);
    forall a | a in t.pending
      ensures t.pending[a] == n.pending[a] && t.open[a] == n.open[a]
    {
      assert a in n.open;
    }
  }

  function Start(s: Store): Node {
    Node(s, map[], [], map[])
  }

  /** The nodes that some run of messages from anyone, maintenance and local steps leads to. */
  ghost predicate Reaches(ed: Ed25519, start: Node, events: seq<NodeEvent>, n: Node) {
    if events == [] then n == start
    else
      var last := events[|events| - 1];
      exists m: Node :: Reaches(ed, start, events[..|events| - 1], m) && m.open.Keys == m.pending.Keys
                        && Possible(m, last) && n == After(ed, m, last)
  }

  /** However peers behave and whatever the network drops, repeats, reorders or makes up, every lease
      adopted from gossip traces back to a request this node sent to that address, was asked for by
      name and came once, after the one correct answer to that request's challenge; each challenge is
      used up by the first answer; and the table of pending requests stays within its bound. */
  lemma {:induction false} GossipIsSafe(ed: Ed25519, s: Store, events: seq<NodeEvent>, n: Node)
    requires Reaches(ed, Start(s), events, n)
    ensures Safe(n)
  {
    if events != [] {
      var init, last := events[..|events| - 1], events[|events| - 1];
      var m: Node :| Reaches(ed, Start(s), init, m) && m.open.Keys == m.pending.Keys && Possible(m, last)
          && n == After(ed, m, last);
      GossipIsSafe(ed, s, init, m);
      AfterIsSafe(ed, m, last);
    }
  }

  lemma {:induction false} AdoptAllKeepsInv(ed: Ed25519, s: Store, rumors: seq<Rumor>, now: Millis)
    requires Inv(ed, s)
    ensures Inv(ed, AdoptAll(ed, s, rumors, now))
  {
    if rumors != [] {
      AdoptAllKeepsInv(ed, s, rumors[..|rumors| - 1], now);
      AdoptKeepsInv(ed, AdoptAll(ed, s, rumors[..|rumors| - 1], now), rumors[|rumors| - 1], now);
    }
  }

  /** The store behind the exchange keeps its own invariant. */
  lemma {:induction false} GossipKeepsStoreInv(ed: Ed25519, events: seq<NodeEvent>, n: Node)
    requires Reaches(ed, Start(EMPTY), events, n)
    ensures Inv(ed, n.store)
  {
    if events == [] {
      EmptyInv(ed);
    } else {
      var init, last := events[..|events| - 1], events[|events| - 1];
      var m: Node :| Reaches(ed, Start(EMPTY), init, m) && m.open.Keys == m.pending.Keys && Possible(m, last)
          && n == After(ed, m, last);
      GossipKeepsStoreInv(ed, init, m);
      hide Inv, Possible, After, Reaches;
      AfterKeepsStoreInv(ed, m, last);
    }
  }

  lemma AfterKeepsStoreInv(ed: Ed25519, n: Node, event: NodeEvent)
    requires Inv(ed, n.store) && n.open.Keys == n.pending.Keys
    ensures Inv(ed, After(ed, n, event).store)
  {
    hide Inv, AdoptAll, Next, Ask, Missing, Served, IsWellFormed, IsValidRumorResponse;
    match event
    case Message(from, message, challenge, clock, now, victim) =>
      hide Prune;
      if message.Rumors? {
        AdoptAllKeepsInv(ed, n.store, message.rumors, now);
      } else if message.Digest? {
        AskingKeepsStore(n, from, Missing(n.store, message.entries), challenge, clock, victim);
      }
    case Maintenance(_) =>
    case Local(step) => NextKeepsInv(ed, n.store, step);
  }

  lemma AskingKeepsStore(n: Node, from: Address, missing: seq<Domain>, challenge: Challenge, clock: Instant, victim: Address)
    ensures Ask(n, from, missing, challenge, clock, victim).store == n.store
  {
  }
}
