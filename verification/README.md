# BINDA, verified

BINDA is a peer-to-peer name registry: hosts register up to five domain names, keep them by probing a
node once a minute, and nodes spread the resulting signed leases by gossip. This project models the
parts of it that have laws worth proving, and proves them for all inputs, all runs and all iteration
orders of its hash maps.

The model has five parts.

* **The registry.** `Registry.dfy` gives the two overlapping tables (registrations and claims), the
  liveness table and the counters as a value, and says what each operation does to it.
  `RegistryStore.dfy` has the store itself: classes whose methods update those tables in place, with
  the loops, the sort and the truncation of the original, each proved to do to the tables what the
  function on values says. `Collision.dfy`, `FirstFive.dfy` and `Identity.dfy` hold the pieces: tokens
  and their arbitration, the ranking of claims, signed requests and leases.
* **Its laws.** `Sweeping.dfy` (one name at a time under arbitrary visiting orders),
  `Convergence.dfy` and `Rivals.dfy` (replicas that have heard the same), `Runs.dfy` (whatever clients
  and peers send), `Authority.dfy` (who stands behind a name, and what requests are answered),
  `Publish.dfy` (publishing leaves other names alone), `KeepAlive.dfy` (a name stays its owner's),
  `HostCap.dfy`, `ApiRuns.dfy`, `Capacity.dfy` and `Overflow.dfy` (how many names a host can hold),
  `Limits.dfy` and `LostName.dfy` (where the code does less than its documentation says, and exactly
  when).
* **Gossip.** `Gossip.dfy` is the exchange as atomic steps of one node against arbitrary peers and an
  arbitrary network; `GossipNode.dfy` the node whose tables the exchange updates, and a round
  between two honest nodes. `Contest.dfy` and `Network.dfy` follow one contested name through a network
  of such nodes.
* **The rate limiter.** `RateLimiter.dfy`, over exact arithmetic.
* **The codecs.** `Names.dfy` (dotted names, UTF-8, name validation), `NameReader.dfy` and
  `DnsMessages.dfy` (names with compression pointers, reverse-lookup queries and responses),
  `NativeCodec.dfy` and `NativeResponse.dfy` (the native lookup protocol), over `Bytes.dfy`.

Ed25519 is a record of functions that every statement leaves arbitrary. Clock readings, nonces,
challenges and the outcome of the reverse-DNS check are inputs of the steps. The order in which a hash
map is iterated is any order that lists its keys.

## Where the code and its documentation differ

The model follows the code. Each difference is stated as a theorem.

* README.md:19-20 promises that a name stays its owner's as long as the owner answers a probe within a
  minute. It does, whatever others ask and gossip, if the minute is counted from the date of the probe
  and the name is not published for, outranked or won (`KeepAlive.FreeForLife`). That date may be ten
  seconds before the probe's arrival: the name can go although the host has probed within the minute,
  and then the lost name goes on being counted (`LostNames.NameLapsesByProbeDate`). A sweep leaves a
  name with its holder if and only if the holder's claim is in force and fewer than five of its host's
  claims in force come before it (`Contests.SweepHoldsIff`).
* README.md:23-24 promises at most five live registrations per host. That is safe exactly when none of
  the host's own leases is heard from elsewhere, no probe is dated ahead of the node's clock, and that
  clock is never set back (`Overflow.CapHoldsIff`); leases of other hosts do no harm. A node that
  has heard five leases of a host, which are not counted, grants it up to five names more
  (`Overflow.FiveHeardAndMore`). A probe dated ahead, which the freshness check accepts, keeps leases
  alive longer than the host that they belong to: another client's request then makes the node forget
  the host's counter and give it back its names (`Overflow.ProbedAheadAndMore`). Ten names is the bound
  in all runs (`Capacity.HeldAtMostTen`), and each of the three ways reaches it (`Overflow.TenByGossip`,
  `Overflow.TenByProbingAhead`, `Overflow.TenBySettingBack`).
* README.md:33-36 promises that every replica retains the same first five claims of a host. Replicas
  that have heard the same leases do, under the same tokens, if and only if each of the host's first
  five names was heard under one token (`Convergence.KeptAlikeIff`): adoption overwrites a host's
  earlier claim on a name, so that of two leases of one host on one name the last one heard counts
  (`Rivals.LastHeardHolds`, `Rivals.RenewalsDisagree`). They agree on who holds every name, moreover, if
  and only if every name that several hosts keep has a contestant that withstands all the others
  (`Convergence.ReplicasAgreeIff`). Two contestants under different tokens always have one
  (`Convergence.AtMostTwoRivalsDecide`); three have unless the middle token's parity differs from both
  others' (`Rivals.ThreeRivalsConvergeIff`), and such leases exist (`Rivals.ThreeRivalsDiverge`).
* README.md:48-49 promises that gossip exchanges the state. It does not bring replicas to have heard the
  same: a node asks only for names that it does not know or holds under an earlier issue time
  (crates/binda/src/node.rs:230-241). Two nodes that hold one name for different hosts, and ask each
  other, come to agree if and only if the issue times differ and the token issued later wins
  (`Networks.NodesAgreeIff`). Otherwise no holder ever changes, whatever rounds, requests and sweeps
  follow while the leases stay in force (`Networks.StandOff`), and a node new to the name keeps to what
  it hears first (`Networks.FirstHeardIsKept`). A holder that the other's lease cannot win over stays
  also when rounds interleave and messages are delayed, lost or repeated (`Networks.HolderStays`). Two
  replicas that stay split are exhibited (`Networks.ReplicasStaySplit`).
* Publishing records updates the registration's copy of the lease but only signs the claim table's
  copy again, over records it does not have. The next sweep then drops the claim and the name, exactly
  unless the new signature also covers the old records (`Limits.PublishedNameSurvivesIff`,
  `LostNames.PublishingLosesTheName`).
* crates/binda-core/src/api.rs:83 expects every live registrant to have probe evidence. Liveness is
  recorded per host, evidence per owner key, so the handler stops there exactly when this key itself
  never probed (`Limits.GrantPanicsIffKeyNeverProbed`), which a second key of a host that has probed
  brings about; the name stays entered without a lease, and counted (`LostNames.SecondKeyPanics`).
* README.md:44-47 describes rounds of random proposals. The paths modelled here settle a contest with
  a rule computed from the two tokens (crates/binda-core/src/collision.rs:107-123), so that the outcome
  is fixed by their order and parities (`Collision.NegotiateIsSymmetric`).
* The reader of compressed names takes labels of up to 191 bytes, pointers in any direction and names
  of any length, where sections 2.3.4 and 4.1.4 of RFC 1035 allow 63 octets, prior occurrences and 255
  octets; what it reads beyond them is stated exactly (`NameReader.ReadIsNameIff`), as is what the
  parser of responses accepts (`DnsMessages.ParsesExactlyTheAccepted`).
* `ANCOUNT` is truncated to 16 bits, so a response is framed correctly exactly up to 65535 answers
  (`NativeResponses.ResponseFraming`).

## Model

| member | source | states |
|---|---|---|
| Tokens.OrderingKeyIsTimeThenNonce | crates/binda-core/src/token.rs:35-40 | The 16 key bytes compare by issue time first and nonce second, and determine the token. |
| Tokens.PrecedesIsTotal | crates/binda-core/src/token.rs:35-40 | Distinct tokens are ordered one way only. |
| Collision.ConditionIsParityAgreement | crates/binda-core/src/collision.rs:107-117 | The fold over both tokens says "higher wins" exactly when the two tokens, taken separately, have the same parity. |
| Collision.NegotiateIsSymmetric | crates/binda-core/src/collision.rs:76-123 | Negotiation picks one of the two tokens, the same from either side; for different tokens exactly one withstands the other, read off order and parities. |
| Collision.ChampionIffParityChangesAtMostOnce | crates/binda-core/src/collision.rs:76-123 | Among any number of distinct tokens one withstands all the others if and only if, in token order, no token lies between two of the opposite parity. |
| Collision.ChampionIsUnique | crates/binda-core/src/collision.rs:121-123 | At most one token withstands all the others. |
| Collision.TwoTokensHaveAChampion | crates/binda-core/src/collision.rs:121-123 | Of two tokens, the winner of their negotiation withstands both. |
| Collision.ThreeTokensLackAChampionIff | crates/binda-core/src/collision.rs:76-123 | Three ordered tokens have no undisplaceable one exactly when the middle one's parity differs from both. |
| Identity.ClientKeyDeterminesIdentity | crates/binda-core/src/client.rs:40-46 | The key string determines the verifying key and the hostname, also when the hostname contains `@` or hexadecimal digits. |
| Identity.ClientKeyReads | crates/binda-core/src/client.rs:40-70 | The key string is the key's bytes in two lower-case hexadecimal digits each, an at sign, and the hostname as it is. |
| Identity.HostIsTheCore | crates/binda-core/src/client.rs:48-57 | The host a hostname counts for is its text without surrounding whitespace, without the dots that then end it, in small letters; neither case nor a trailing dot makes another host. |
| FirstFiveClaims.OutranksIsTotal | crates/binda-core/src/store.rs:296-301 | The sort order of claims (token key, then domain) is strict and total. |
| FirstFiveClaims.FirstFiveSize | crates/binda-core/src/store.rs:296-304 | "Fewer than five claims ahead" keeps exactly five claims, or all if there are fewer. |
| FirstFiveClaims.FirstFiveIncremental | crates/binda-core/src/store.rs:290-304 | Adding a claim to the five kept so far keeps the same five as adding it to everything ever filed. |
| FirstFiveClaims.RetainedIdempotent | crates/binda-core/src/store.rs:290-304 | Cutting claims down twice at one instant is cutting them down once. |
| SortedClaims.TruncatedIsFirstFive | crates/binda-core/src/store.rs:296-304 | Sorting and truncating leaves exactly the claims with fewer than five ahead. |
| SortedClaims.Sort | crates/binda-core/src/store.rs:296-301 | The sorted list has the same claims, each before the next. |
| RegistryStores.LivenessTracker.RecordProbe | crates/binda-core/src/liveness.rs:94-109 | Every client of the probing host is live exactly until a minute after the probe; no other host's liveness changes. |
| RegistryStores.LivenessTracker.ExpiredClients | crates/binda-core/src/liveness.rs:153-160 | Lists each host out of the window once and no other. |
| RegistryStores.LivenessTracker.ForgetClientByKey | crates/binda-core/src/liveness.rs:101-149 | No client of the host is live at any time, and its count starts again from zero; other hosts keep their liveness and counts. |
| RegistryStores.RegistryStore.ProbeWithEvidence | crates/binda-core/src/store.rs:63-73 | Records the sighting under the host and the evidence under the owner key. |
| RegistryStores.RegistryStore.ReconcileQuota | crates/binda-core/src/store.rs:290-317 | The whole of incremental truncation: the host's claims become its first five in force, its leased registrations go, and each winner is installed or loses to the holder, name by name. |
| RegistryStores.RegistryStore.CutClaims | crates/binda-core/src/store.rs:294-304 | Filtering by authority and lease, sorting and truncating in place leaves the retained claims, listed once each. |
| RegistryStores.RegistryStore.InstallWinners | crates/binda-core/src/store.rs:307-316 | Each name ends as one negotiation with its own winner decides, whatever the loop did for other names. |
| RegistryStores.RegistryStore.ReclaimStale | crates/binda-core/src/store.rs:271-283 | Expired hosts lose names, sightings and counters; then every host of the claim table is reconciled once, in some order. |
| RegistryStores.RegistryStore.RegisterName | crates/binda-core/src/store.rs:86-124 | Refuses hosts that are not live; otherwise sweeps, and grants an unleased, counted registration if the name is free and the host may register. |
| RegistryStores.RegistryStore.SetRecordsOf | crates/binda-core/src/store.rs:152-165 | Replaces the records exactly when the caller's key holds the name. |
| RegistryStores.RegistryStore.AttachRumorTo | crates/binda-core/src/store.rs:169-182 | Files and reconciles a lease exactly when key and token match the registration. |
| Capacity.AttachingGivesNobodyTheName | crates/binda-core/src/store.rs:167-182 | After attaching any lease to any store, a name is registered only if it was, under the same key and token. |
| RegistryStores.RegistryStore.RefreshProbeEvidence | crates/binda-core/src/store.rs:186-203 | Every lease of the owner key, in both tables, and no other, takes the new probe. |
| RegistryStores.RegistryStore.AttachRecordEvidenceTo | crates/binda-core/src/store.rs:205-229 | The registration's lease takes records and signature; the claim table's copies take the signature and keep their records. |
| Publishing.PublishingTouchesOneName | crates/binda-core/src/store.rs:152-229 | Publishing for a name changes no registration and no claim on any other name, in either table, and no sighting, counter or evidence. |
| Publishing.PublishingServesTheRecords | crates/binda-core/src/store.rs:152-229 | On the name itself the owner's registration and its lease take the records and their signature, the owner's claims the signature alone, and nobody else's anything. |
| Publishing.OtherNamesOutlivePublishing | crates/binda-core/src/api.rs:112-142 | In any run, a name that is safely held when anybody publishes for another one is held exactly as before, and safely held after a sweep in any order. |
| RegistryStores.RegistryStore.Adopt | crates/binda-core/src/store.rs:237-253 | Accepts exactly the authorized leases that are live, files them and reconciles the host. |
| Authority.AuthorizedIffSigned | crates/binda-core/src/gossip.rs:62-112 | A lease is authorized if and only if its key, by the answers of the signature library, has signed for its own name, its probe and its records, or there are no records and no evidence for any, and the key string is that key's. |
| Authority.LeasesAreSigned | crates/binda-core/src/store.rs:237-253 | In every run every claim and every attached lease is so signed, and stands at its own name and host. |
| Authority.GossipedLeasesAreSigned | crates/binda/src/node.rs:203-341 | The same in every run of messages, whatever peers send. |
| Authority.NoLeaseWithoutSignature | crates/binda-core/src/gossip.rs:82-96 | A name that a key has never signed for is never leased or claimed under that key, in any run, gossip included. |
| RegistryStores.RegistryStore.ServeProbe | crates/binda-core/src/api.rs:36-62 | An authenticated probe refreshes sighting, evidence and leases; any other leaves the store alone. |
| Authority.ProbesAreAcknowledgedIff | crates/binda-core/src/api.rs:36-62 | A probe is acknowledged if and only if it is dated within ten seconds of its arrival and its key has signed it; otherwise nothing changes. |
| RegistryStores.RegistryStore.ServeRegister | crates/binda-core/src/api.rs:64-110 | The request as one step, refusals and the failing `expect` included. |
| Authority.NamesAreGrantedIff | crates/binda-core/src/api.rs:64-110 | A name is granted if and only if the request is so dated and signed, the host's reverse DNS was confirmed, the host was seen within a minute, and after the sweep the name is free and the host counts fewer than five. |
| Authority.EveryNameHasAnOrigin | crates/binda-core/src/api.rs:64-110 | Whatever is registered or claimed in a run, host, name, token and key, goes back to one step: a confirmed host's fresh, signed request for that name, or a live, signed lease that was heard. |
| RegistryStores.RegistryStore.ServeSetRecords | crates/binda-core/src/api.rs:112-142 | The request as one step: records and their evidence for the owner, refusal for anyone else. |
| Authority.RecordsAreSetIff | crates/binda-core/src/api.rs:112-142 | Records are set if and only if the request is so dated and signed and its key and hostname hold the name; they are then what the name serves, and otherwise nothing changes. |
| Authority.RefusedForWhatIsWrong | crates/binda-core/src/client_api.rs:108-135 | The reason of a refusal is what is first wrong with the request. |
| Sweeping.SweepAt | crates/binda-core/src/store.rs:271-317 | A sweep of the whole store acts on each name by itself: reconciling the hosts in turn with their retained claims on it. |
| Sweeping.PrevailingWins | crates/binda-core/src/store.rs:307-316 | Once its turn has come, the contestant that withstands all others holds the name, in any order. |
| Sweeping.SweepFixedPoint | crates/binda-core/src/store.rs:271-317 | Two sweeps at one instant, in any orders, reach one store, and further sweeps leave it alone, if every contested name has a contestant that withstands the others; hosts and leases may expire at that instant. |
| Sweeping.OrderIrrelevantIffDecided | crates/binda-core/src/store.rs:278-316 | For a settled name the visiting order is irrelevant if and only if it is uncontested or one contestant withstands all others. |
| Sweeping.PrevailsIffParity | crates/binda-core/src/collision.rs:107-123 | With different tokens, somebody prevails exactly when the tokens' parities change at most once in token order. |
| Sweeping.TwoContestantsDecide | crates/binda-core/src/store.rs:307-316 | Two contestants with different tokens always decide a name. |
| Sweeping.PrevailsIsUnique | crates/binda-core/src/store.rs:307-316 | At most one contestant withstands all the others. |
| Sweeping.NothingExpiresTwice | crates/binda-core/src/store.rs:271-277 | After a sweep no host is expired at that instant. |
| Convergence.KeptAlikeIff | README.md:33-36 | Whatever leases in force are heard, all replicas that hear just these, in any order, with any repetitions and sweeps, retain the same names of a host under the same tokens if and only if each of the host's first five names, ranked by its earliest lease, was heard under one token. |
| Convergence.ReplicasAgreeIff | README.md:33-36 | All such replicas, after one sweep each, have the same claims under the same tokens and the same holder of every name if and only if that holds for every host and every contested name has a contestant that withstands the others. |
| Convergence.IncrementalIsBatch | crates/binda-core/src/store.rs:237-304 | After any sequence of adoptions and sweeps with leases in force, if each first name was heard under one token, the incrementally cut claim table has the names and tokens of the five least of everything ever heard, per host, and the very leases if no host was heard with two on one name. |
| Convergence.ReplicasConverge | README.md:33-36 | Two replicas that heard the same leases, each first name under one token, agree after one sweep each, whatever order, repetition, earlier sweeps and iteration orders; and hold the very same registrations if no host was heard with two leases on one name. |
| Convergence.ConvergesIffDecided | README.md:33-36 | Whatever was heard, the outcome of one replica's closing sweep is independent of iteration order if and only if every name among its claims is uncontested or has a contestant that withstands the others. |
| Convergence.AtMostTwoRivalsDecide | crates/binda-core/src/collision.rs:119-123 | At most two hosts per name, with different tokens, suffice for every name to be decided. |
| Rivals.LastHeardHolds | crates/binda-core/src/store.rs:247-250 | Of two leases of one host on one name, under different tokens, the one heard last is claimed and holds the name. |
| Rivals.RenewalsDisagree | crates/binda-core/src/store.rs:247-250 | So replicas that hear such two leases need not agree, even on that host's claims. |
| Runs.RunKeepsInv | crates/binda-core/src/store.rs:86-317 | In every run, gossip included: attached leases are authorized and agree with their registrations; unleased names are at most the counter, which is at most five; leased names are among the host's claims, at most five. |
| Runs.NothingStaleSurvives | crates/binda-core/src/store.rs:263-283 | After a sweep in any run each registration has an authorized, live lease, or its host was seen within the window. |
| Runs.NoPromotion | README.md:35-36 | A claim that is not held never comes back, as claim or leased registration, until that host and name are submitted again. |
| Runs.SubmitKeepsInv | crates/binda-core/src/store.rs:169-182 | Filing any lease that names its owner and reconciling keeps the invariant. |
| Runs.RefreshKeepsInv | crates/binda-core/src/store.rs:186-203 | A probe refresh keeps leases authorized, because the key string determines the verifying key. |
| Runs.PublishKeepsInv | crates/binda-core/src/store.rs:205-229 | Publishing signed records keeps the registration's lease authorized and in agreement. |
| Overflow.CapHoldsIff | README.md:23-24 | For every host, set of hosts whose leases may be heard, lead by which probes may be dated ahead, and amount by which the clock may be set back: five names are never exceeded, in any run, if and only if the host is not among those heard and both the lead and the amount are zero. |
| HostCap.CapOfUnheard | crates/binda-core/src/store.rs:86-124 | In runs with a clock that does not go back and no probe dated ahead, a host none of whose own leases is heard holds at most its counter, which is at most five, its unleased names and all its claims counted together. |
| HostCap.RunKeepsCap | crates/binda-core/src/api.rs:36-142 | The inductive invariant behind it: names taken are counted, and no lease was probed later than its host was seen. |
| ApiRuns.TotalCap | crates/binda-core/src/api.rs:36-142 | When clients alone drive a node, moreover, whoever claims a name holds it and no name is claimed by two hosts. |
| ApiRuns.RunKeepsApi | crates/binda-core/src/api.rs:36-142 | The inductive invariant behind that: every claim is held under the claim's token. |
| Capacity.HeldAtMostTen | crates/binda-core/src/store.rs:86-317 | In every run a host holds at most its counter plus its claims, at most ten names. |
| Capacity.GrantedNameIsLeasedIff | crates/binda-core/src/api.rs:80-101 | In any run a granted name is held by the host and key that asked, under the very token in the reply, issued at that moment, and it is leased exactly when that key's probe is within the window and fewer than five claims of the host come before it. |
| Capacity.RunKeepsEvidenceSigned | crates/binda-core/src/api.rs:36-62 | Stored probe evidence is always what its owner signed. |
| Overflow.FiveHeardAndMore | crates/binda-core/src/store.rs:237-253 | A node that has heard five leases of a host grants it, on request, any number up to five of names more: five and that many are held. |
| Overflow.ProbedAheadAndMore | crates/binda-core/src/client_api.rs:108-112 | Without gossip: after a probe dated ahead of the clock, or of the clock once set back, five names are held and none counted once another client's request has swept, and up to five more are granted. |
| Overflow.TenByGossip | README.md:23-24 | For every host a run of the first kind, that reaches ten names. |
| Overflow.TenByProbingAhead | README.md:23-24 | For every host a run of the second kind, with a probe dated one millisecond ahead, that reaches ten names. |
| Overflow.TenBySettingBack | README.md:23-24 | For every host a run with no probe dated ahead and the clock set back by one millisecond, that reaches ten names. |
| Limits.EvidenceIffProbed | crates/binda-core/src/store.rs:63-77 | Evidence for a key is present in a run exactly if that key's probe was acknowledged. |
| Limits.GrantPanicsIffKeyNeverProbed | crates/binda-core/src/api.rs:80-83 | A granted registration stops the handler if and only if this owner key never probed. |
| LostNames.SecondKeyPanics | crates/binda-core/src/api.rs:80-83 | After one client of a host has probed, a request by a second key of that host stops the handler, and leaves the name entered, unleased and counted. |
| LostNames.PanicIsReached | crates/binda-core/src/api.rs:80-83 | Such a probe and request exist for every host. |
| Limits.PublishedNameSurvivesIff | crates/binda-core/src/store.rs:205-229 | A safely held name survives publication and a sweep if and only if the new signature also covers the old records. |
| Limits.PublishingChangesCostTheName | crates/binda-core/src/store.rs:205-229 | With signatures that cover one list of records, publishing costs the name exactly when it changes the records. |
| LostNames.PublishingLosesTheName | crates/binda-core/src/api.rs:112-142 | Probe, register and publish, all acknowledged at one instant: the name is held, and gone after the sweep at that instant unless the signature covers the empty list too. |
| LostNames.NameLapsesByProbeDate | crates/binda-core/src/store.rs:271-304 | After one acknowledged probe and registration, a sweep within a minute of the probe's arrival leaves the name if and only if it comes within a minute of the date the probe bears; either way the host is live and the name counted. |
| LostNames.OpeningHolds | crates/binda-core/src/api.rs:36-110 | After one acknowledged probe and registration from the empty store the name is safely held, so the premise of the two statements on publishing is met in a run. |
| KeepAlive.FreeForLife | README.md:19-20 | Over any run of anybody's probes, publications, requests and leases, and of sweeps, a name stays with its holder, under the same token, as long as each sweep falls within a minute of the date of the key's last probe, no more than four names of the host come before it, no lease heard wins it, and its owner does not publish for it. |
| KeepAlive.FirstNameIsForLife | README.md:19-20 | In particular a name obtained by one acknowledged probe and one acknowledged request. |
| Limits.ThreeTokensInACircle | crates/binda-core/src/collision.rs:119-123 | Three concrete tokens that beat one another in a circle. |
| Rivals.ThreeRivalsConvergeIff | README.md:33-36 | A replica that hears just three leases of three hosts on one name, in any order and with any sweeps in between, ends up independent of iteration order if and only if the middle token's parity is that of one of the others. |
| Rivals.ThreeRivalsDiverge | crates/binda-core/src/store.rs:307-316 | Three authorized leases, heard in a run, and two closing sweeps that leave different registrations. |
| Gossip.UniqueDomains | crates/binda-core/src/gossip.rs:213-216 | The scan with a set answers whether all domains differ. |
| Gossip.ChallengeHasOneAnswer | crates/binda-core/src/gossip.rs:140-146 | A challenge has exactly one right answer: of its two tokens the one that is not earlier, or not later, as the condition says, by time and then nonce. |
| GossipNodes.GossipNode.CheckWellFormed | crates/binda-core/src/gossip.rs:186-198 | Accepts exactly messages within their bounds and without duplicates. |
| HonestRound.NoExcess | crates/binda-core/src/gossip.rs:186-216 | A message of more than 4096 entries, or two of one name, does nothing and gets no reply; and whatever comes from whomever, a reply is never like that. |
| GossipNodes.GossipNode.CheckRumorResponse | crates/binda-core/src/gossip.rs:204-211 | Accepts exactly responses that cover requested domains once each. |
| GossipNodes.GossipNode.MakeRoom | crates/binda/src/node.rs:252-263 | A full table loses its oldest entry and nothing else, and only for a new address. |
| GossipNodes.GossipNode.FindMissing | crates/binda/src/node.rs:230-241 | Lists the announced names unknown here or known under an earlier token, in order. |
| GossipNodes.GossipNode.HandleRumors | crates/binda/src/node.rs:304-340 | Consumes the pending entry first, then adopts all or nothing. |
| GossipNodes.GossipNode.ReceiveMessage | crates/binda/src/node.rs:203-341 | One received message as one atomic step of the node. |
| Gossip.GossipIsSafe | crates/binda/src/node.rs:223-341 | With arbitrary peers and network: each adoption traces back to a request to that address, after the one correct answer, for a domain asked for, at most once; no challenge is used twice; the pending table stays within its bound. |
| Gossip.GossipKeepsStoreInv | crates/binda/src/node.rs:223-341 | The store behind the exchange keeps the invariant of all runs. |
| HonestRound.HonestRoundCompletes | crates/binda/src/node.rs:172-341 | Two honest nodes of at most 4096 registrations, each message handled by the node it is sent to: the announcing node replies with the one right answer and with exactly the leases it holds on names that the asking node lacks or knows under an earlier issue time, and the asking node takes them in, each one still live being in force. |
| HonestRound.AcceptedIsKeptUnlessOutranked | crates/binda-core/src/store.rs:237-304 | An accepted lease is among its host's claims afterwards unless five of them come before it. |
| Contests.SweepHoldsIff | crates/binda-core/src/store.rs:271-317 | For a name whose holder withstands every other claim on it: a sweep in any order leaves it with the holder if and only if the holder's claim is in force and among its host's first five in force. |
| Contests.SubmitHere | crates/binda-core/src/store.rs:237-317 | Taking in a rival's lease leaves the name with the one of the two that wins the negotiation, with every other claim on it still withstood. |
| Networks.RoundIsPulled | crates/binda/src/node.rs:223-341 | What the messages of an honest round, each handled by the node it is sent to, do to the asking node's store, as one function of the two stores. |
| Networks.RoundHeeds | crates/binda/src/node.rs:230-241 | In a round the asking node's holder of a name that two hosts contest changes exactly if it did not know the name, or the announced lease was issued later and wins. |
| Networks.OpinionsFollow | crates/binda/src/node.rs:166-341 | Over any run of a network's client requests, sweeps and rounds that leaves the contest alone, who holds the name at each node is given by the rounds and the two tokens; the full stores refine that. |
| Networks.NodesAgreeIff | README.md:48-49 | Two nodes hold the name for different hosts and each asks the other at least once, in any run of any network: they end up holding it for the same host if and only if the issue times differ and the later-issued token wins, that is, the tokens have equal parity. |
| Networks.StandOff | crates/binda/src/node.rs:230-241 | Otherwise every node that holds the name goes on holding it for the same host, in any run. |
| Networks.HolderStays | crates/binda/src/node.rs:203-341 | The same for one node message by message: under arbitrary messages, delays, repetitions, prunings and requests that bring no third contestant, a holder whom the other's lease cannot win over stays the holder. |
| Networks.FirstHeardIsKept | crates/binda/src/node.rs:230-241 | Then a node that did not know the name holds it ever after for the host it first hears of. |
| Networks.ReplicasStaySplit | README.md:33-36 | Two authorized leases in force, of two hosts on one name, each heard by one node: after a round each way the two nodes differ, and after whatever follows. |
| RateLimiting.RateLimiter.AllowAt | crates/binda-core/src/rate_limit.rs:58-80 | Evicts a stalest key exactly when a new key meets a full table, then decides by the key's bucket; the number of keys stays within the limit, or within one if the limit is zero. |
| RateLimiting.RateLimiter.EvictLeastRecentlySeen | crates/binda-core/src/rate_limit.rs:92-101 | Removes one key with the earliest last request. |
| RateLimiting.RateLimiter.PruneOlderThan | crates/binda-core/src/rate_limit.rs:58-90 | Whatever key asks next at whatever time: one seen within the age is decided as before the pruning, any other as one with a full bucket. |
| TokenBucket.AllAdmittedIffWindowsFit | crates/binda-core/src/rate_limit.rs:68-80 | All requests of a trace are admitted if and only if every window holds at most the capacity plus what is refilled over it. |
| TokenBucket.AdmittedWindowsFit | crates/binda-core/src/rate_limit.rs:68-80 | In any trace the admitted requests of any window, plus the tokens left, obey that bound. |
| RateLimiting.PruningIsUnobservable | crates/binda-core/src/rate_limit.rs:58-90 | If an idle key has refilled by the time it may be dropped, pruning at any times changes no decision. |
| RateLimiting.PruningIsUnobservableIff | crates/binda-core/src/rate_limit.rs:58-90 | Pruning at a given age is never observable if and only if age times refill is at least the capacity. |
| RateLimiting.NodePruningIsUnobservable | crates/binda/src/node.rs:37-46 | So it is not observable with the node's own constants. |
| RateLimiting.KeysAreIndependent | crates/binda-core/src/rate_limit.rs:58-80 | A key's request is decided by that key's own earlier requests alone. |
| RateLimiting.FewKeysAreRoomy | crates/binda-core/src/rate_limit.rs:59-61 | In a trace with no more keys than the limit no new key meets a full table. |
| RateLimiting.Replay | crates/binda-core/src/rate_limit.rs:58-90 | In such traces the limiter itself, driven through its methods, is in the state and makes the decisions that the statements about traces are about. |
| NameReader.ReadName | crates/binda-core/src/fcrdns.rs:185-218 | The loop, with its jump counter and saved end, computes the recursive reading, and terminates on every buffer. |
| NameReader.ReadsExactlyTheNames | crates/binda-core/src/fcrdns.rs:185-218 | It succeeds exactly on what its own grammar spells with at most 32 pointers (labels of 1 to 191 bytes, pointers anywhere), and returns the labels and the end. |
| NameReader.NamesAreRead | crates/binda-core/src/fcrdns.rs:182-218 | Every name of sections 2.3.4 and 4.1.4 of RFC 1035 with at most 32 pointers is read as it stands. |
| NameReader.StraysExactlyWhere | crates/binda-core/src/fcrdns.rs:191-214 | What is read departs from the spelling of section 4.1.4 if and only if an octet met on the way is a length above 63 or a pointer that does not point back. |
| NameReader.ReadIsNameIff | crates/binda-core/src/fcrdns.rs:185-218 | A successful reading is of a name of the standard if and only if no octet met on the way is one of those and the whole takes at most 255 octets. |
| NameReader.DerivationIsUnique | crates/binda-core/src/fcrdns.rs:185-218 | A position spells at most one name. |
| NameReader.EndsInside | crates/binda-core/src/fcrdns.rs:185-218 | On success the end lies after the start and inside the message. |
| NameReader.CyclesAreRefused | crates/binda-core/src/fcrdns.rs:192-206 | A start from which pointers lead into a cycle yields no name. |
| DnsMessages.EncodeQuery | crates/binda-core/src/fcrdns.rs:162-180 | The loop writes the header, the nonempty labels behind truncated length octets, and the question. |
| DnsMessages.QueryAsksOneQuestion | crates/binda-core/src/fcrdns.rs:162-180 | Around the name a query has its identifier, the flag for recursion and no other, one question and no records, and the type asked for in class IN at its end. |
| DnsMessages.QueryReadsBackIff | crates/binda-core/src/fcrdns.rs:162-218 | A query's name reads back, label by label and ending where its type starts, if and only if no label exceeds 191 bytes. |
| DnsMessages.ReadInvertsEncode | crates/binda-core/src/fcrdns.rs:162-218 | For names with nonempty labels within that limit, reading undoes encoding. |
| DnsMessages.ParseResponse | crates/binda-core/src/fcrdns.rs:255-301 | The loops over questions and answers compute the recursive reading. |
| DnsMessages.ParsesExactlyTheAccepted | crates/binda-core/src/fcrdns.rs:255-301 | The parser returns some answers if and only if they are those of the records that lie in the message, by counts, names and lengths alone; classes, the four octets after a question and the end of a PTR name play no part. |
| DnsMessages.WellFormedResponsesAreRead | crates/binda-core/src/fcrdns.rs:255-301 | So every well-formed successful response, in the sense of section 4.1 of RFC 1035, is read as its answers, however its names are compressed. |
| DnsMessages.AcceptedResponsesAreOurs | crates/binda-core/src/fcrdns.rs:255-301 | Answers are only returned under the query's identifier, without error, and as many as announced. |
| Labels.JoinSplit | crates/binda-core/src/domain.rs:66-68 | Joining a name's labels gives the name. |
| Labels.SplitJoin | crates/binda-core/src/domain.rs:66-68 | Splitting joined labels gives the pieces of each, so only dots inside labels are forgotten. |
| Labels.SplitJoinDotFree | crates/binda-core/src/domain.rs:66-68 | Labels without dots survive joining and splitting. |
| Utf8.JoinIsUtf8 | crates/binda-core/src/dns.rs:131-141 | A dotted text is UTF-8 exactly when each of its labels is. |
| Utf8.Utf8Iff | crates/binda-core/src/dns.rs:131-141 | A byte string passes as UTF-8 if and only if it encodes some characters as section 3 of RFC 3629 says. |
| DomainNames.NewDomainDecides | crates/binda-core/src/domain.rs:46-64 | Acceptance, and each error with its offset, in terms of the bytes alone: no unprintable character anywhere, dots separating nonempty labels. |
| DomainNames.UnprintableCharsAre | crates/binda-core/src/domain.rs:52-56 | The characters that are refused are U+0000 to U+0020 and U+007F to U+009F. |
| NativeCodec.EncodeDomainLabels | crates/binda-core/src/dns.rs:150-157 | Appends the labels behind 4-byte lengths and the terminating zero. |
| NativeCodec.ParseQuery | crates/binda-core/src/dns.rs:113-148 | The loop computes the recursive parse, with each error in its order. |
| NativeCodec.ParsesExactlyTheQueries | crates/binda-core/src/dns.rs:113-148 | A message parses as a query exactly when its bytes spell that query, whatever follows. |
| NativeCodec.RefusesExactlyTheFaulty | crates/binda-core/src/dns.rs:113-148 | A message is refused with an error if and only if that is what is wrong with it: no header, not one question, labels that run out of the message or of UTF-8 after labels that do not, an incomplete question, or labels that make no name. |
| NativeCodec.LabelsReadBack | crates/binda-core/src/dns.rs:126-157 | Encoded labels are read back, whatever surrounds them. |
| NativeCodec.LabelsAreEncoded | crates/binda-core/src/dns.rs:126-157 | Whatever is read as labels is the encoding of those labels. |
| NativeCodec.EncodingIsPrefixFree | crates/binda-core/src/dns.rs:150-157 | No encoded name is a prefix of another. |
| NativeCodec.ParsedNameIsSendable | crates/binda-core/src/dns.rs:126-157 | The labels of a parsed name fit the wire, also where a wire label contained dots. |
| NativeResponses.BuildResponse | crates/binda-core/src/dns.rs:203-254 | The loops build header, echoed question and the answers that can be encoded. |
| NativeResponses.HeaderTellsTheOutcome | crates/binda-core/src/dns.rs:203-240 | The header of any response: the query's identifier; response, standard query, authoritative and no other flag; code 3 if and only if the name does not exist and 0 otherwise; one question, the answers' number in 16 bits, no other records. |
| NativeResponses.ResponseParsesAsItsQuery | crates/binda-core/src/dns.rs:203-254 | For every byte string that parses as a query, any response to it parses as the same query. |
| NativeResponses.ResponseFraming | crates/binda-core/src/dns.rs:203-254 | A reader of the length fields finds the answers in order, as many as ANCOUNT can count, and is at the end of the message if and only if there are fewer than 65536. |
| NativeResponses.AnswersTellTheRecords | crates/binda-core/src/dns.rs:219-237 | Exactly the records that can be encoded are answered, in order, each by an answer with its name, type, time to live and meaning. |
| NativeResponses.EncodedIffCanEncode | crates/binda-core/src/dns.rs:159-194 | A record can be encoded exactly when its address reads, or its target is a printable name with nonempty labels, or it is text. |
| NativeResponses.RdataConveys | crates/binda-core/src/dns.rs:159-194 | Encoded data reads back as the record's address, name, preference and name, or text. |
| NativeResponses.ExchangeIsSaid | crates/binda-core/src/dns.rs:175-182 | The preference and exchange of a mail exchange value are the number before its first space and what follows, or else 0 and the whole value. |
| NativeResponses.EncodeTxt | crates/binda-core/src/dns.rs:186-192 | The chunk loop writes chunks of at most 255 bytes behind their lengths. |
| NativeResponses.TxtRoundTrip | crates/binda-core/src/dns.rs:186-192 | The chunks concatenate back to the value. |
| NativeResponses.TxtIsShortest | crates/binda-core/src/dns.rs:186-192 | No character strings that concatenate to the value take fewer bytes. |

## Left out

- Convergence.ReplicasConverge: for leases in force until the closing sweep; what lapses in between is covered by Sweeping.SweepFixedPoint alone.
- Networks.OpinionsFollow: a round is one step, in which neither store changes between digest, request and answer (Networks.HolderStays does without that); the two leases are in force whenever a node sweeps or takes part in a round, no more than four names of either host come before the contested one, and no third host contests it.
- Runs.RunKeepsInv: runs go on after `Panicked`, where the task of the original has stopped, so they include more than can happen.
- GossipNodes.GossipNode.AdoptRumors: one clock reading serves all leases of a message, where the source reads the clock for each; the same holds for the several readings inside one request or sweep.
- RateLimiting.PruningIsUnobservable: over real numbers; rounding of 64-bit floating point is not modelled, and the claim is for traces that never meet a full table.
- NativeResponses.ResponseFraming: for record data below 4 GiB, whose length its 4-byte field can hold.
- Ed25519: a record of arbitrary functions for parsing keys, parsing signatures and verifying; the signed texts are constructors, so two requests never share one text.
- Each section that holds a lock is one atomic step; sockets, tasks, the wiring of the limiters and argument parsing are not modelled.
- JSON and TOML encoding, the time service, the peer list, the resolver's own query format and the client demo.
- Reverse-DNS decisions: whether a hostname forward-confirms is an input of the register step; only the messages of those lookups are modelled.
- `Negotiation`, `RoundProposal` and `resolve_collision`: not on any path of the node.
- Reading IPv4 and IPv6 addresses and numbers from text: arbitrary functions.
- `build_error_response` and `record_matches_qtype`: single expressions.
