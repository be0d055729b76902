# Goblin name authority: a verified model

The name authority hands out payment names on a domain, lets their owners release them, and
runs a marketplace in which a seller lodges a signed offer for a name and the buyer claims the
name with a payment proof. This project models that program and proves what its registry and
its offer/claim protocol keep. `dafny verify dfyconfig.toml` checks everything.

## How the model is laid out

**Two grains of the same handlers.** `Protocol` writes each handler once, as a program whose
steps are the program's own atomic actions: every acquisition of the database lock is one
step, every await on the chain node is one step, and the claim transaction is one step. A
request in flight is its program point together with the values it has captured so far, such
as its `now` and the offer row it read.

- *Interleaved grain* (`Interleaving`, `AnyRun`, `Provenance`, `Races`). Any number of requests arrive and
  advance in any order; the wall clock may jump either way between steps; rate limits,
  authentication and replay checks are dropped, which only adds runs. One invariant, `Sound`,
  is proved by induction over all runs, and the theorems of `AnyRun` follow from it. Each
  committed change of the names table is logged, and the log is replayed independently.
  `Provenance` traces rows in hand, node answers, registrations, transfers and releases back
  to moments of the run.
  `Races` gives, for every choice of names, keys and offers, the runs in which three
  guarantees that look true of the program are broken (`Runs` has the tools for building
  runs); `RaceLimits` says when they hold.
- *Serialized grain* (`Serialized`, `Effects`, `SerialRuns`, `Claims`, `AntiChurn`,
  `ProcessGates`). One request at a time runs through the gates of the process and then
  through its program to the end (`Solo` has one lemma a program point). `Serialized.SerializedIsInterleaved` shows that these runs
  are among the interleaved ones, so what holds there holds here. `Handlers.Authority` is the
  running process in the source's imperative form: a class over the mutable tables
  (`Stores.Store`) and the two in-memory maps (`RateLimit.Limiter`), with one method a handler,
  each proved to answer and to leave the state exactly as the serialized specification says.
  A request reads each clock where the program does: five monotone or wall-clock readings of
  its own and the handler's `now`.

**Independent readings.** `Spelling`, `Credentials`, `Listings` and `Payments` say what the
character rules, an accepted authorization header, a lodged row and an accepted payment mean,
in terms of character codes, tag positions, message bytes and endpoint answers, and prove the
checks equivalent to that. `Decisions` has every request as a table of conditions and answers
in those terms, and proves that the gate and the handlers' step programs decide just so. The
theorems about payments, late claims and offers are stated in these terms too.

**Time windows.** `RateLimit` has the limiter, the cooldown and the replay set as methods that
prune their maps in place; `RateHistory` compares them with histories that never forget,
`Replay` states the single use of an auth event across the wall clock and the monotone clock,
and `ProcessGates` lifts both to whole serialized runs.

**Supporting parts.** `Names` and `Domain` (validity, look-alike folding, reserved terms),
`Proof` (the 73-byte message, hex, amounts, signatures), `Node` (confirmations and failover),
`Auth` (NIP-98, section "Nostr event"), `Tables` (the three SQL tables, every statement's
effect, and the schema's constraints), `Api` (parsed requests, replies, offer tags).

## Where the program falls short of what it says

- The replay set is said to make an auth event single-use within the freshness window
  (`src/ratelimit.rs:9-10`). The age test includes -5, the set's test is strict, and the two
  tests read their clocks one after the other. With the clocks in step and at most `slack`
  nanoseconds between the two tests of a request, an event can be used again exactly when its
  first use came more than four seconds, less the slack, ahead of its stamp
  (`Replay.ReplayableIff`; in serialized runs, `ProcessGates.AuthEventReusableIff`). With no
  delay at all these are the events accepted at age -5 (`Replay.ReplayableIffAgeMinusFive`).
- The limiter's global cleanup is said to bound memory (`src/ratelimit.rs:54`). It drops every
  key with the window of the call that happens to trigger it, so a read on a map of more than
  50,000 keys can erase a running cooldown: `RateHistory.SweepForgetsCooldown` is such a run of
  calls, and `Shortfalls.SweepLetsChurnThrough` a run of the whole process from its start in
  which a key registers a name nine minutes too early. `RateHistory.MemoryIsExactIff`,
  `ProcessGates.BudgetIsExactIff` and `AntiChurn.NoChurnIff` say exactly when this happens. It
  cannot happen where no configured window is shorter than the one at stake, nor while the map
  stays below 50,000 keys (`AntiChurn.NoChurnByConfiguration`, `AntiChurn.NoChurnOnSmallMap`,
  `ProcessGates.ShortestWindowCeiling`, `ProcessGates.SmallMapCeiling`).
- A price of 2^63 or more is accepted at lodging (`Shortfalls.HugePriceIsLodged`) and can never
  be claimed (`AnyRun.HugePriceNeverClaimed`).
- An offer's expiry must lie strictly after the lodging time (`src/handlers/transfer.rs:191`),
  while the configuration's comment (`src/config.rs:58`) also allows that very second. The
  model follows the code (`Shortfalls.ExpiryThisSecondRefused`).
- A release by a past owner can take the name from its next owner, two live offers for one
  name can coexist, and `consumed` can be overwritten by `revoked`, when requests overlap
  (`Races`; exactly when they can, `RaceLimits`). None of them can happen in a serialized run.

## Model

| member | source | states |
|---|---|---|
| AnyRun.EveryRunIsSound | src/handlers/transfer.rs:352-413 | after any interleaving: the schema's constraints hold, every name is good, every offer row is what its signed event says and keeps its death record in order, every receipt fits its offer and only consumed or revoked offers have one, every row in hand can have become the stored one, and the log of committed changes replays to the tables |
| Provenance.RowInHandWasStored | src/handlers/transfer.rs:457-462 | every offer row a request in flight holds is, whole, the stored row of some moment of the run |
| Provenance.StatusAutomaton | src/handlers/transfer.rs:304-332 | in any interleaving, an offer is later live only if it is live now and expired only if it is live or expired now; a sold one is consumed or revoked, and once revoked stays so |
| Provenance.AtMostFourChanges | src/handlers/transfer.rs:304-332 | in any interleaving, an offer changes status at most four times |
| Races.FourChangesHappen | src/handlers/transfer.rs:325-332 | a run in which an offer changes status four times |
| Interleaving.NextGood | src/handlers/transfer.rs:457-566 | one step of any handler, from any good tables and any good captured state, keeps the tables good, lets no row return to live or become expired but from live, changes no death record once set, lowers an offer's standing at every status change, and logs exactly the change it made |
| Interleaving.FlipGood | src/handlers/transfer.rs:325-332 | the revocation's update that filters on the id alone never revives a row and never touches its death record, whatever the row has become since it was read |
| Interleaving.CommitStep | src/handlers/transfer.rs:352-413 | the claim transaction, run on a possibly stale offer row, either changes nothing or makes one lawful transfer: seller owned the name, buyer owned none, offer id and excess are new, and the payment is backed |
| AnyRun.LogRebuildsNames | src/handlers/transfer.rs:361-378 | replaying the committed registrations, releases and claims gives the owner of every name |
| AnyRun.OwnerStep | src/handlers/registry.rs:175-181 | ownership starts only by a registration, ends only by a release, and changes hands only by a claim whose stored, genuine offer has the owner before as seller and the owner after as buyer |
| Provenance.RegisteredByAsker | src/handlers/registry.rs:119-135 | in any interleaving, a registration puts down the authenticated key of a request that named this key and this name |
| AnyRun.OwnershipChain | src/handlers/transfer.rs:361-378 | over any stretch of the log without a release of the name, a new owner at the end bought it in the stretch from whoever owned it at that moment |
| AnyRun.ActiveNamesConserved | src/handlers/registry.rs:175-181 | active names are registrations less releases; transfers neither make nor lose one |
| AnyRun.DurableSingleUse | src/db.rs:52-61 | no two transfers share a kernel excess, even as decoded bytes; every transfers row agrees with its offer's name, seller, buyer and price |
| AnyRun.ReceiptEntry | src/handlers/transfer.rs:380-403 | every transfers row was written by exactly one committed claim, backed by its payment |
| AnyRun.ConsumedHasReceipt | src/handlers/transfer.rs:405-412 | a consumed offer has its transfers row, now and in every later state, even if a racing revocation overwrites the status |
| AnyRun.PaymentWitness | src/handlers/transfer.rs:509-537 | every transfers row rests on a proof whose recipient and sender, each with the key of its own address, signed one message of amount, excess and sender key; paid to the offer's address, for exactly the price in the event's last price tag, below 2^63; and on a kernel that the first endpoint to answer reported at the recorded height, deep enough below its tip |
| Provenance.TransferViewWasGiven | src/handlers/transfer.rs:523-536 | the node answers behind a transfer are ones that some step of the run was given |
| AnyRun.OffersList | src/handlers/transfer.rs:145-223 | every stored offer is what the last tags of its signed event say, column by column |
| AnyRun.HugePriceNeverClaimed | src/handlers/transfer.rs:518-520 | an offer whose signed price is 2^63 or more is never consumed and never has a transfers row |
| Shortfalls.HugePriceIsLodged | src/handlers/transfer.rs:207-223 | any well-formed offer with a signed price of 2^63 or more is lodged in some run, as a negative price |
| Shortfalls.LodgingWindow | src/handlers/transfer.rs:189-193 | an event that makes a good offer at some time makes one at exactly the times strictly before its expiration and within the maximum time to live of it |
| Shortfalls.ExpiryThisSecondRefused | src/handlers/transfer.rs:191 | an offer expiring this very second is refused, and one expiring in the next is taken |
| Shortfalls.SweepLetsChurnThrough | src/ratelimit.rs:54-57 | a run from the start of the process, with the default windows, in which a key registers a name while its cooldown should still be running |
| AnyRun.WriteOnceDeathRecord | src/db.rs:232-244 | in any two states of a run: terms are immutable, no row returns to live, and end height and time of death are written at most once, empty while live and set once expired or revoked |
| AnyRun.DeathTimeAlwaysKnown | src/handlers/transfer.rs:487-499 | whatever row a step of a reachable world judges has its death time if it is expired or revoked, so the gate's verdict is the same whatever the fallback were |
| AnyRun.LateClaimInEveryRun | src/handlers/transfer.rs:478-545 | in any interleaving, every transfer was claimed by the offer's expiration, or within the grace time of a recorded death at a known height, with the kernel reported at or below that height by the first endpoint to answer |
| Provenance.ClaimWasJudgedOnStoredRow | src/handlers/transfer.rs:478-545 | every transfer was committed by an action of the run and judged on the offer row as stored at some moment before: live and by its expiration, or dead with a record that let it through by grace and height |
| Provenance.ClaimWasMinedInTime | src/handlers/transfer.rs:537-545 | a transfer judged on a dead row rests on a kernel that the first endpoint to answer reported at or below the height of that death |
| Provenance.EndHeightWasReported | src/handlers/transfer.rs:99-109 | every stored end height is the tip that the first endpoint to name one named to some step of the run |
| AnyRun.IndexAgreement | src/db.rs:126-148 | in every reachable state `lookup` and `name_of` are inverse to each other |
| AnyRun.TableNamesAreGood | src/handlers/registry.rs:136-149 | every name ever in the table is valid and not reserved |
| AnyRun.BrandNeverHandedOut | src/names.rs:134-152 | no name in any reachable table reads like one of the operator's domain labels |
| Races.StaleReleaseTakesName | src/handlers/registry.rs:254-259 | a run, for any name and keys, in which a release checked for a past owner takes the name from the present one |
| Races.TwoLiveOffers | src/handlers/transfer.rs:199-223 | a run, for any two offers of one name, in which both end up live |
| Races.RevokedOverConsumed | src/handlers/transfer.rs:325-332 | a run, for any payable late claim, in which a revocation overwrites `consumed` while the transfers row and the new owner stay |
| RaceLimits.ConsumedIsFinalIff | src/handlers/transfer.rs:325-332 | in any interleaving, a consumed offer can still be overwritten exactly when a revocation that read it as expired is in flight |
| RaceLimits.StaleReleaseNeedsHandover | src/handlers/registry.rs:254-259 | a release can meet another owner than it checked only if in between the name was released or sold on to that owner |
| Provenance.ReleaseByPastOwner | src/handlers/registry.rs:254-262 | in any interleaving, every release comes from a key that owned the name at some earlier moment |
| Provenance.ReleaseOfOthersName | src/handlers/registry.rs:254-262 | a release that ended another key's ownership came after that earlier moment and a release of the name, or a sale of it to that key, in between |
| RaceLimits.ReleaseHitsOtherIff | src/handlers/registry.rs:256-259 | the release update frees another key's name exactly when that key is the holder by then |
| RaceLimits.InsertKeepsExclusiveIff | src/handlers/transfer.rs:199-223 | at the insert, live offers stay apart by name and address exactly if the two lodge checks hold at that moment |
| Protocol.StepsCountDown | src/handlers/transfer.rs:457-566 | every step of every handler brings it nearer to its end, so each handler finishes whatever the others do |
| Serialized.SerializedIsInterleaved | src/handlers/transfer.rs:457-566 | every serialized run leaves the tables and the log of some interleaved run |
| Decisions.EveryRequestDecided | src/handlers/transfer.rs:416-595 | every request passes the gate, answers, and leaves the tables, the replay set and the armed cooldown as its decision table says |
| Decisions.GateDecided | src/handlers/transfer.rs:421-440 | rate limit by the route's own budget, then the header for the route's verb, path and body, then first use, then for a registration the cooldown; the verdict's key is the signer's |
| Decisions.SeenDecided | src/ratelimit.rs:11-21 | the replay set changes only for authenticated requests, forgets exactly what is too old, and holds this event |
| Decisions.OnlyTheSigner | src/auth.rs:36-49 | a key is authorized only by its own signed event of kind 27235, in season and made for this request |
| Decisions.AvailabilityDecided | src/handlers/registry.rs:29-55 | malformed, reserved, taken or available, in this order |
| Decisions.RegisterDecided | src/handlers/registry.rs:109-215 | each refusal with its condition, in order, or the new row |
| Decisions.RegisteredForSelf | src/handlers/registry.rs:129-135 | a created name goes to the key that authenticated, and no other key comes by a name |
| Decisions.UnregisterDecided | src/handlers/registry.rs:231-289 | not found, not the owner, or the row with its release time |
| Decisions.LodgeDecided | src/handlers/transfer.rs:136-246 | each refusal with its condition, in order, or the row that the event's tags make up |
| Decisions.ReadDecided | src/handlers/transfer.rs:258-269 | the settled row's event and status, with the expiry written down |
| Decisions.RevokeDecided | src/handlers/transfer.rs:298-338 | each refusal with its condition, in order, or the row with its death record |
| Decisions.ClaimDecided | src/handlers/transfer.rs:442-594 | each refusal with its condition, in order, the recorded answer, or the sale with all three rows |
| Decisions.UpsertDecided | src/handlers/registry.rs:175-215 | the upsert on any table: which refusal, or the one row written |
| Decisions.CommitDecided | src/handlers/transfer.rs:352-413 | the claim transaction on any table: which refusal, or the three rows written |
| Effects.RegisterEffect | src/handlers/registry.rs:151-215 | a registration creates the name exactly when nobody holds it and the key holds none, and otherwise changes nothing |
| Effects.UnregisterEffect | src/handlers/registry.rs:254-289 | a release succeeds exactly for the current owner, ends that hold only, and arms the owner's cooldown |
| Effects.LodgeEffect | src/handlers/transfer.rs:195-246 | an offer is taken in exactly when the seller owns the name, no offer for the name or the address is effectively live, and the id is new |
| Effects.SettleEffect | src/handlers/transfer.rs:99-109 | continuing after lazy settlement is continuing on a table with the overdue row written down as expired |
| Effects.ReadEffect | src/handlers/transfer.rs:258-269 | a read settles the offer it shows and nothing else |
| Effects.RevokeEffect | src/handlers/transfer.rs:298-338 | a revocation succeeds exactly for the seller of an offer not consumed; a live one gets the tip and the time, an expired one keeps its record, a revoked one is left alone |
| Effects.ClaimEffect | src/handlers/transfer.rs:457-594 | a claim is answered from the receipt if the offer is consumed; otherwise it is a sale exactly when every one of its conditions holds, and else a refusal that changes nothing beyond the settlement |
| SerialRuns.EffectOf | src/handlers/transfer.rs:416-595 | every served request of any kind does one of: change names only, add one live offer, settle one, revoke one, sell one; and which request can do which |
| SerialRuns.LateClaimSafety | src/handlers/transfer.rs:478-545 | every completed transfer was claimed by the expiration if its offer never died, or else within the grace time of a death at a known height, with the kernel reported at or below it by the first endpoint to answer |
| SerialRuns.SettlementInvisible | src/handlers/transfer.rs:99-109 | writing an expiry down changes no offer's effective status, then or later |
| SerialRuns.ReadReportsEffective | src/handlers/transfer.rs:258-269 | a public read reports the effective status |
| SerialRuns.LodgeCountsEffective | src/db.rs:164-194 | the two lodge checks count exactly the effectively live offers |
| SerialRuns.AutomatonStep | src/handlers/transfer.rs:275-340 | every served request is a step of the automaton over effective status: new offers start live, an existing one moves only by its seller's revocation or by a successful claim |
| SerialRuns.OneEffectivelyLiveOffer | src/handlers/transfer.rs:199-210 | with a clock that does not run backwards, at every later instant no two effectively live offers share a name or a proof address |
| SerialRuns.StatusOnlyDescends | src/handlers/transfer.rs:304-332 | stored status only moves down live, expired, revoked, consumed, and a consumed row is frozen |
| SerialRuns.AtMostThreeChanges | src/handlers/transfer.rs:304-332 | an offer changes status at most three times in any run |
| SerialRuns.ConsumedExactlyWhenSold | src/handlers/transfer.rs:405-412 | an offer is consumed exactly when its transfers row exists |
| SerialRuns.ConsumedIsFinal | src/handlers/transfer.rs:405-412 | a sold offer's row and its transfers row never change again |
| Claims.ClaimMovesOneName | src/handlers/transfer.rs:352-413 | a successful claim moves one name from the seller to the authenticated buyer, adds one transfers row, consumes one offer, keeps the number of active names, and touches nothing else |
| Claims.FailedClaimChangesNothing | src/handlers/transfer.rs:457-594 | any other answer to a claim leaves all three tables as they were, apart from the settlement of that offer |
| Claims.IdempotentRetry | src/handlers/transfer.rs:464-476 | after a sale, in every later state, an admitted claim of that offer with the same excess gets the same success body, with any other excess a conflict, and no table changes |
| AntiChurn.ArmedIffNameLost | src/handlers/transfer.rs:568-570 | a request arms a key's cooldown exactly when that key has a name before it and none after it |
| AntiChurn.NoChurn | src/handlers/registry.rs:97-107 | after a key gives up its name, by release or by sale, no registration by it passes until the cooldown has elapsed, whatever is served in between, if no sweep takes the cooldown |
| AntiChurn.NoChurnIff | src/handlers/registry.rs:101-107 | a registration that gets as far as the cooldown check is stopped by it exactly when every sweep since the name was given up spared the key |
| AntiChurn.NoChurnByConfiguration | src/handlers/registry.rs:97-107 | with both rate windows at least the cooldown, no registration by a key that gave up its name passes before the cooldown has elapsed, whatever is served in between |
| AntiChurn.NoChurnOnSmallMap | src/handlers/registry.rs:97-107 | the same in any configuration while the map stays below 50,000 keys |
| AntiChurn.ClaimIgnoresCooldowns | src/handlers/transfer.rs:551-560 | a claim is answered the same whatever cooldowns are running |
| AntiChurn.BucketsApart | src/ratelimit.rs:26-27 | no client address can reach a cooldown key through a rate-limit bucket |
| AntiChurn.AvailabilityIsExact | src/handlers/registry.rs:29-55 | for a key without a name whose registration is admitted, the name is reported available exactly when that registration would create it |
| ProcessGates.LimiterIsExact | src/ratelimit.rs:44-79 | in a serialized run that spares the budget, a request passes the limiter exactly when fewer than the ceiling of that client's earlier admitted requests on the bucket lie in the window |
| ProcessGates.CeilingHolds | src/ratelimit.rs:44-79 | in such a run no client gets more than the ceiling through in any half-open interval of one window |
| ProcessGates.ShortestWindowCeiling | src/ratelimit.rs:61-78 | the ceiling holds in every run for a bucket whose window is no longer than the other |
| ProcessGates.SmallMapCeiling | src/ratelimit.rs:44-59 | the ceiling holds for every bucket while the map stays below 50,000 keys |
| ProcessGates.BudgetIsExactIff | src/ratelimit.rs:44-59 | the process remembers a client's budget exactly throughout a run, if and only if no request's sweep takes an admission the budget still counts |
| ProcessGates.AuthEventWorksOnce | src/handlers/transfer.rs:427-440 | with the clocks in step, an auth event used late enough for the delay a request may have between its two tests authorizes no later request, whatever is served in between |
| ProcessGates.AuthEventReusableIff | src/auth.rs:43-49 | a use of an auth event can be followed by a second use, by a request that starts after the first is answered, exactly when it came more than four seconds, less the allowed delay, ahead of the event's stamp and was answered while the event was fresh |
| RateHistory.LimiterRefinesHistory | src/ratelimit.rs:26-59 | in any run of mixed calls, every answer of the pruning map on a key is the answer of a history that never forgets, if no sweep takes a hit the key still counts |
| RateHistory.MemoryIsExactIff | src/ratelimit.rs:44-59 | throughout a run the map remembers of a key what the full history does, if and only if no sweep takes a hit the key still counts |
| RateHistory.AtMostMaxPerWindow | src/ratelimit.rs:44-53 | a limited key admits at most `max` calls in any half-open interval of window length |
| RateHistory.RetainTwice | src/ratelimit.rs:49 | pruning early and again later is pruning later |
| RateHistory.RetainCounts | src/ratelimit.rs:49-50 | what pruning leaves is as many hits as lie in the window |
| RateHistory.SweepSeenIff | src/ratelimit.rs:54-57 | a call on another key changes what a key remembers exactly when it sweeps and the key has a hit in its own window but none in the sweeping call's |
| RateHistory.LongWindowSpares | src/ratelimit.rs:54-57 | a sweep with a window at least the key's takes nothing the key counts |
| RateHistory.SmallMapSpares | src/ratelimit.rs:55 | no call on a map of fewer than 50,000 keys takes anything another key counts |
| RateHistory.SafeRuns | src/ratelimit.rs:44-59 | the map remembers a key exactly in runs whose limiter windows are at least the key's, and in runs on small maps |
| RateHistory.SweepForgetsCooldown | src/ratelimit.rs:54-57 | a run of 50,001 calls with the default windows whose last, an admitted read, ends a name-change cooldown nine minutes early |
| RateLimit.BucketKeyInjective | src/ratelimit.rs:45 | a key determines its colon-free bucket and its client, whatever the client string holds |
| RateLimit.Limiter.RetainHits | src/ratelimit.rs:49 | the retain loop keeps exactly the recent hits, in order |
| RateLimit.Limiter.Allow | src/ratelimit.rs:44-59 | verdict and new map of the limiter, cleanup included |
| RateLimit.Limiter.CooldownActive | src/ratelimit.rs:26-35 | verdict and pruned map of the cooldown check |
| RateLimit.Limiter.RecordOp | src/ratelimit.rs:38-41 | the operation's time is appended to its key |
| RateLimit.Limiter.AuthEventFresh | src/ratelimit.rs:11-21 | first use or replay, and the new replay set |
| Replay.IdRemembered | src/ratelimit.rs:15-20 | an accepted event id stays in the set until a full window has passed |
| Replay.AcceptancesFarApart | src/ratelimit.rs:11-21 | two acceptances of one event id are at least the maximum age plus five seconds apart |
| Replay.AcceptedOnce | src/auth.rs:43-49 | with the clocks in step and a bounded delay between the two tests, an event accepted late enough is accepted once in any run |
| Replay.ReplayableIff | src/auth.rs:43-49 | an accepted event can be accepted again exactly if its use came more than four seconds, less the delay allowed between the two tests, ahead of its stamp |
| Replay.ReplayableIffAgeMinusFive | src/ratelimit.rs:13-18 | when the two tests coincide, an accepted event can be accepted again exactly if it was accepted at age -5 |
| Auth.CheckNip98 | src/auth.rs:40-90 | the one-pass tag scan with its early returns decides what the specification by last relevant tags decides |
| Credentials.AcceptedIff | src/auth.rs:15-91 | a header is accepted, for the event's own key and id, exactly if the event is signed, of kind 27235 and in season, its last valued `u` tag is the address up to trailing slashes, its last valued `method` tag the verb, and its last `payload` tag the body's hash, or has no value on an empty body |
| Credentials.RefusedBecause | src/auth.rs:25-88 | every refusal names the first thing missing |
| Credentials.SaysIff | src/auth.rs:51-74 | the scan's result is the value of the tag at the last relevant position |
| Auth.LastTagWins | src/auth.rs:51-74 | the last relevant tag determines the outcome, where a scan that needs values passes over tags without one and the others let such a tag reset |
| Auth.NoTagNoValue | src/auth.rs:51-74 | without a relevant tag there is no value |
| Auth.AgeWrapIsInvisible | src/auth.rs:44-49 | the wrapped 64-bit age and the true age pass or fail together |
| Api.ExtractOfferTags | src/handlers/transfer.rs:50-81 | the loop over six locals returns all six last values, or nothing if one is missing or was reset |
| Listings.ListedIff | src/handlers/transfer.rs:145-193 | the event checks build a row exactly from a signed kind-3402 event of the asking key whose last tags give name, domain, buyer, price, address and expiration in form and in time |
| Listings.UnlistedBecause | src/handlers/transfer.rs:150-165 | the key mismatch is answered exactly for a signed offer of another key |
| Node.FirstOkMeaning | src/node.rs:127-158 | failover answers with the first endpoint that answers, and fails exactly when none does, with the last endpoint's error |
| Node.QueryKernel | src/node.rs:127-139 | the kernel loop computes the failover answer |
| Node.QueryTip | src/node.rs:141-158 | the tip loop computes the failover answer |
| Node.ConfirmationDepth | src/node.rs:109-114 | confirmations are at least one, count the blocks from the kernel to the tip inclusive exactly when the kernel is not above the tip and the sum does not wrap, and two or more bound the kernel's height |
| Node.DeepKernelHasHeight | src/node.rs:95-121 | needing two confirmations or more forces an endpoint to name a height and a tip that far above it |
| Payments.ConfirmedIff | src/handlers/transfer.rs:523-537 | the node check passes with a given height column exactly if the first endpoint to answer reports the kernel at that height and deep enough |
| Payments.TipColumnIff | src/handlers/transfer.rs:103-106 | the stored tip is the first one that an endpoint names, and absent exactly without one |
| Proof.BuildPaymentProofMessage | src/proof.rs:58-72 | the message is 73 bytes and exists exactly for an excess of 33 hex-encoded bytes |
| Payments.MessageIff | src/proof.rs:58-72 | the message is the 73 bytes of which the first 8 are the amount, the next 33 the excess and the last 32 the sender key |
| Payments.SignedIff | src/proof.rs:131-151 | the signature check passes exactly if both addresses give keys and both 64-byte signatures are good for one such message |
| Proof.MessageInjective | src/proof.rs:58-72 | the message determines amount, excess bytes and sender, and the excess string when lower-cased |
| Proof.AmountRoundTrip | src/proof.rs:51-53 | the big-endian amount decodes to itself over the whole u64 range |
| Proof.LowerHexInjective | src/proof.rs:118 | two lower-case spellings of the same bytes are equal (section 8 of RFC 4648) |
| Proof.PriceRoundTrip | src/handlers/transfer.rs:518-520 | a stored price passes the amount check exactly for the signed amount, and only below 2^63 |
| Proof.DecodeGrinAddress | src/proof.rs:30-39 | a decoded address is 32 bytes under the prefix grin or tgrin |
| Names.FoldConcat | src/names.rs:105-120 | folding distributes over concatenation |
| Names.FoldIdempotent | src/names.rs:105-120 | folding is idempotent |
| Names.ReservedIsFoldClass | src/names.rs:125-132 | a name is reserved exactly when it folds onto the fold of some reserved term |
| Names.SpellingDoesNotMatter | src/names.rs:101-104 | folding a name, or slipping separators into it, never changes whether it is reserved |
| Spelling.ValidNameIff | src/names.rs:84-99 | a valid name is within the bounds, over the alphabet, with a letter or digit at both ends |
| Spelling.FoldTable | src/names.rs:105-120 | which characters fold to what, one by one |
| Spelling.Hex64Iff | src/names.rs:154-159 | keys are 64 hex digits without capitals, offer ids 64 hex digits |
| Spelling.HexDecodeIff | src/proof.rs:63 | decoding pairs up digits by their ASCII codes |
| Spelling.UrlOkIff | src/auth.rs:57-62 | two addresses match exactly if they differ in trailing slashes only |
| Spelling.EqIgnoreAsciiCaseIff | src/auth.rs:64-68 | two words match exactly if they differ in ASCII case only |
| Spelling.LowerTable | src/handlers/registry.rs:119-120 | which characters lower-casing changes, by their codes |
| Domain.SplitInvertsJoin | src/names.rs:140-145 | splitting on dots inverts joining with dots |
| Domain.TrailingDotsDoNotMatter | src/names.rs:142-144 | trimming trailing dots changes nothing once empty labels are dropped |
| Domain.ReservedLabels | src/names.rs:139-152 | exactly the non-empty labels but the last, or the single label, are reserved, lower-cased |
| Domain.BrandIsReserved | src/names.rs:134-152 | every look-alike of a domain label is reserved |
| Tables.LookupInvertsNameOf | src/db.rs:126-148 | under the partial unique index the two lookups are inverse |
| Tables.NameStatementsKeepConstraints | src/db.rs:26-29 | the register upsert and the release keep the primary key and the partial unique index |
| Tables.InsertKeepsConstraints | src/db.rs:34-35 | lodging keeps the offers' primary key and the rest of the schema's constraints |
| Tables.OfferUpdatesKeepConstraints | src/db.rs:232-244 | both offer updates, guarded and unguarded, keep them too |
| Tables.ClaimKeepsConstraints | src/db.rs:26-61 | the claim transaction keeps every constraint of the schema |
| Stores.Store.Upsert | src/handlers/registry.rs:175-181 | the upsert writes exactly when it reports success, and keeps one active name a key |
| Stores.Store.Release | src/handlers/registry.rs:256-259 | the release update ends the active hold on the name, if any |
| Stores.Store.MarkDead | src/db.rs:232-244 | only a live row gets the new status, height and time |
| Stores.Store.Insert | src/db.rs:199-226 | a fresh offer is added, and a known id is refused without a change |
| Stores.Store.FindName | src/db.rs:139-148 | the active name of the key, if it has one |
| Stores.Store.RunClaimTxn | src/handlers/transfer.rs:352-413 | three statements, any of which may fail: all of them take effect or the tables are as they were |
| Handlers.Authority.Admit | src/handlers/transfer.rs:421-440 | rate limit, authentication, replay set and cooldown, in the source's order, as the gate specification has them |
| Handlers.Authority.Availability | src/handlers/registry.rs:17-56 | reply and state are those of the serialized specification |
| Handlers.Authority.Register | src/handlers/registry.rs:64-216 | reply and state are those of the serialized specification |
| Handlers.Authority.Unregister | src/handlers/registry.rs:218-291 | reply and state are those of the serialized specification, the armed cooldown included |
| Handlers.Authority.LodgeOffer | src/handlers/transfer.rs:112-247 | reply and state are those of the serialized specification |
| Handlers.Authority.SettleExpiry | src/handlers/transfer.rs:99-109 | an overdue row is written down as expired with the tip, and the row returned is the stored one |
| Handlers.Authority.ReadOffer | src/handlers/transfer.rs:250-272 | reply and state are those of the serialized specification |
| Handlers.Authority.RevokeOffer | src/handlers/transfer.rs:275-340 | reply and state are those of the serialized specification |
| Handlers.Authority.Claim | src/handlers/transfer.rs:416-595 | reply and state are those of the serialized specification, the seller's armed cooldown included |

## Left out

- HTTP routing, status codes, headers and JSON parsing: a request arrives parsed, and a body that does not parse is a case of it.
- Schnorr and ed25519 verification (section 5.1.7 of RFC 8032), SHA-256, base64, bech32 (BIP 173, section "Bech32"), whitespace trimming and integer parsing: functions supplied with the configuration, about which nothing is assumed.
- Prelude.Lower: lower-cases only where the result can be an ASCII character; the program's Unicode lower-casing of other characters yields non-ASCII text, which every validity check refuses either way.
- SQLite I/O errors, WAL and the "db error" replies: every statement takes effect or hits a constraint; results the program ignores are infallible. An upsert that hits both constraints may report either, chosen by an input.
- Interleavings of the in-memory maps: `Limiter` methods are atomic, as their locks make them, and `RateHistory` and `Replay` take calls in clock order; two threads that read the clock in one order and lock in the other are not modelled.
- Restart: the maps live for one process, and tables start empty.
- RateHistory.LimiterRefinesHistory: holds while no sweep takes a hit the key still counts; `RateHistory.MemoryIsExactIff` shows that the condition is exact.
- ProcessGates.LimiterIsExact: the same condition, exact by `ProcessGates.BudgetIsExactIff`.
- ProcessGates.CeilingHolds: the same condition.
- AntiChurn.NoChurn: the same condition for the cooldown, exact by `AntiChurn.NoChurnIff`.
- Overflow panics of debug builds: the two u64 additions (`+ 1` confirmations, `+ 5` seconds) wrap as in a release build. Times in the tables, and the sums and differences made with them, are unbounded integers.
- An empty name when the minimum length is 0, which the configuration refuses at start-up (`src/config.rs:184`): the model calls it invalid.
- The network side of the node client: each endpoint is an arbitrary answer to both calls, fixed for one query.
- `src/handlers/wellknown.rs` and `src/handlers/profile.rs`: they only read the tables. Their requests spend the "read" budget and can trigger a sweep; on the rate map each acts as a `ToAvailability` request from the same client does, so for that map a run with such requests is a run of the model.
- `src/config.rs` loading, `src/handlers/misc.rs`, deployment files and scripts: no state or property of their own.
