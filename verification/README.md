# ContextLock: protocol engines, modelled and proved

Dafny 4.11 models of the stateful cores of ContextLock, and proofs of what they promise over every
input and every interleaving. Verify with `dafny verify dfyconfig.toml`.

## What is modelled

**Local bridge** (`packages/bridge`). `CanonicalJson` models the canonical serializer (ECMAScript
number layout, JSON string escapes of section 7 of RFC 8259 with well-formed `JSON.stringify`,
property order with integer-like keys first) and a reader for its output; `CanonicalMeaning` proves
the round trip and when two values share a text. `SignedRequest` has the signing input, the payload
hash and the operation vocabularies. `BridgePolicy` is the decision of every handler, `LedgerDigest`
what the digest shown to a Ledger determines, `BridgeRuns` the daemon as a step system whose steps are
the stretches between `await`s, and `Bridge` the class whose methods are those steps. `BridgeEffects`
proves which accepted requests have their effect, `BridgeSessions` and `BridgeMonotone` two more
properties of whole runs.

**Artifact pinning** (`packages/adapter-sdk`). `Artifact` models the stable sort by
`localeCompare` (any total preorder: different paths may tie) and the length-prefixed encoding, whose
path prefix counts UTF-16 units while the bytes are UTF-8. The decoder that makes it uniquely readable
is part of the proof. `Ordering` holds the sorting theory, `Texts` the text and UTF-8 theory
(section 3 of RFC 3629).

**Event log** (`apps/agent-runtime/src/checkpoint.ts`). `EventLog` has the log as a class over its
insertion-ordered entries, its exact refinement of "have I seen this recently", the identity of an
event, and the cursor.

**Quota ledger and build pipeline** (`apps/studio`). `Quota` is reserve, settle and release in any
order by any number of callers. `BuildRuns` is the pipeline as a step system: any number of builds, any
number of `runBuild` handlers suspended at any of their `await`s, and between any two stretches whatever
else the server takes: other builds, design stages, edits, approvals, abandonments, simulations a user
asks for, restarts. What calls out of the process answer, whether they throw and what the clock reads
are arbitrary. `BuildLife` follows one build through such a run; `Pipeline` is the class whose methods
are the steps, with its loops.

**Broker and event stream** (`apps/broker`, `apps/studio/src/events.ts`). `RequestStates` is the
declared transition table; `BrokerRuns` the issuance handler interleaved at its three `await`s, and its
refinement of that table; `BrokerIssuance` idempotency, replays and nonces; `BrokerMinting` what a
capability goes back to, and the order of the rows; `Broker` the class. `EventStream` is the
persisted-then-broadcast bus with the identity of listener sets and resumable clients; `EventBus` the
class.

## Reading the model

- Text is a sequence of UTF-16 code units. Hashing and writing turn lone surrogates into U+FFFD, and
  the results say where that matters. Numbers of JSON are finite decimals; -0 and 0 are one number,
  as `JSON.stringify` writes them.
- SHA-256, HMAC (section 2 of RFC 2104), the EIP-712 digest and struct hash are parameters. A theorem
  that needs one to be injective says so. A bridge signature is the bytes it decodes to.
- Random codes, ids and nonces are parameters, new where the theorem says so. The clock is a parameter;
  one synchronous stretch reads it once, except in the simulation pass, which reads it per scenario.
- Each class keeps its tables in fields and each of its methods is proved equal to one step of the run
  system beside it, so that the theorems about runs are theorems about sequences of method calls.

## What the proofs found

- Pairwise distinct paths do not make the artifact hash independent of file order: two different paths
  that `localeCompare` ties do not (`TiedPairDiffers`). `OrderFreeExact` and `ReverseCheckOfDistinct` give
  the exact condition.
- A block number and a hash are any strings. While the blocks have no colon, or the lower-cased hashes have
  none, an event identity tells two logs apart; a collision takes a colon in a block and one in a hash
  (`EventIdInjective`, `EventIdInjectiveOfHashes`, `EventIdCollision`). One
  event shares its identity with another log exactly when its lower-cased hash has a colon, or its block has
  one with only lower case after it (`EventIdUniqueExactly`).
- The pass ceiling counts a pass only once it has a row, so one pass beyond
  `maxMandatoryPassesPerBuild` starts, records one scenario and is truncated unless it planned only one
  (`PassRecords`).
- The digest shown to a Ledger is taken over plain `JSON.stringify`, which keeps the order of properties,
  and drops those that are undefined where the payload hash reads null. So one signed request can be approved
  under two digests (`LedgerDigestNotFixed`); two payloads of one signed request share the digest, and the
  decision, exactly when they agree once undefined is trimmed away, property order included
  (`LedgerDecisionExact`).
- Nonces increase in the order they are drawn; the rows are in that order exactly when the signatures are
  answered in the order of the draws (`RowsInNonceOrderExactly`), and there are runs where they are not
  (`OutOfOrder`). A request whose evaluator or signer throws stays PENDING for good, and replays report it so
  (`ReplayOfFirst`).
- A client that resumes after an id that does not exist yet is sent later events with smaller ids
  (`StreamExact` says when, `SmallerIsSent` is such a run). A second call of one unsubscribe silences the other clients of its build
  (`SecondUnsubscribeSilences`) exactly when they have come to listen through another set
  (`SecondUnsubscribeExactly`).
- An abandonment that arrives while a build runs does not stop it. Unless something else writes the status of
  the build afterwards, it survives exactly when it arrives while
  the sandbox is being destroyed, or the handler then throws without its reviewer having hit a limit
  (`AbandonmentSurvives`); a build can be abandoned and end COMPLETED (`AbandonmentLost`), or stay ABANDONED
  (`AbandonmentKept`).
- An edit leaves the approval in place. A completed build is of the saved Blueprint that was approved exactly
  when nothing saved a new current one between the approval and the start (`CompletedBlueprintIsApproved`);
  there are runs in which it is another (`UnapprovedIsCompleted`).
- Nothing refuses a second `runBuild` of a build that is running. Then the first can complete the build under
  the revision of the second, which has earned nothing (`SecondBuildMisleads`). COMPLETED is always earned by
  some revision; it is that of the row exactly when no start of the build was accepted after the start of the
  latest revision that returned ok (`CompletedIsEarned`, `RowRevisionExactly`), and so whenever the last start
  found no handler of the build (`AloneNamesItsRevision`).
- The empty idempotency key is never looked up, but it is stored: its second use throws at the insertion
  instead of giving the build of the first (`Pipeline.StudioPipeline.CreateBuild`).

## Model

| member | source | states |
|---|---|---|
| `Texts.TakeUnitsOfUtf8` | packages/adapter-sdk/src/artifact.ts:38-39 | Reading as many UTF-16 units as the length prefix says out of UTF-8 bytes gives back exactly the encoded text (lone surrogates as U+FFFD) and exactly the bytes after it |
| `Texts.Utf8Exact` | packages/adapter-sdk/src/artifact.ts:38-40 | Two texts have the same UTF-8 bytes if and only if they differ at most in lone surrogates |
| `CanonicalJson.ReadBack` | packages/bridge/src/protocol.ts:141 | What `JSON.stringify` writes for a value without `undefined` is read back as that value, whatever delimiter follows |
| `CanonicalMeaning.CanonicalRoundTrip` | packages/bridge/src/protocol.ts:134-142 | Parsing `canonical(v)` gives the normal form of `v`: keys sorted, integer-like keys first as JavaScript orders them, `undefined` as null |
| `CanonicalMeaning.WalkTwice` | packages/bridge/src/protocol.ts:135-140 | The normal form of a normal form is itself |
| `CanonicalMeaning.CanonicalExact` | packages/bridge/src/protocol.ts:134-142 | Two values have the same canonical text if and only if they mean the same: same scalars, same lists, same property maps, with `undefined` meaning null |
| `CanonicalMeaning.HashInputExact` | packages/bridge/src/protocol.ts:144-145 | The same holds of the UTF-8 bytes that are hashed: the text never contains a lone surrogate |
| `SignedRequest.SigningInputFixesFields` | packages/bridge/src/protocol.ts:154-166 | Signing inputs are equal if and only if all ten fields of the requests are |
| `SignedRequest.OneSignatureOneRequest` | packages/bridge/src/protocol.ts:168-182 | With a MAC injective per key, a signature that verifies for a request verifies for another if and only if it is the same request |
| `SignedRequest.PayloadHashExact` | packages/bridge/src/protocol.ts:144-145 | With an injective SHA-256, two payloads have one hash if and only if they mean the same |
| `SignedRequest.OperationOfName` | packages/bridge/src/protocol.ts:57-79 | Each operation of the vocabulary is recognised by its own name |
| `SignedRequest.VocabulariesDisjoint` | packages/bridge/src/protocol.ts:87-110 | No operation of the vocabulary is in the list of operations that do not exist |
| `BridgePolicy.DecideOfWalk` | packages/bridge/src/bridge.ts:199-416 | Every decision on a payload is the decision on its normal form |
| `BridgePolicy.SignedRequestFixesDecision` | packages/bridge/src/bridge.ts:184-188 | With an injective payload hash, two payloads accepted under the same hash take the same decision, suspend for the same question and request the same effect, up to the Ledger digest |
| `LedgerDigest.DigestInputExact` | packages/bridge/src/bridge.ts:413 | The text, and the bytes, that the Ledger digest is taken over agree for two payloads if and only if the payloads agree once undefined is trimmed away, property order included |
| `LedgerDigest.DigestInputOfPlain` | packages/bridge/src/bridge.ts:413 | For payloads without undefined, as a JSON parser returns them: if and only if they are identical |
| `LedgerDigest.LedgerDecisionExact` | packages/bridge/src/bridge.ts:387-416 | Two payloads under one payload hash that go to the Ledger lead to the same decision, digest included, if and only if they agree once undefined is trimmed away |
| `LedgerDigest.LedgerDigestNotFixed` | packages/bridge/src/bridge.ts:387-416 | Under any permissions that allow an action type: a payload naming it and the same with its two properties swapped (named by no array index) share the canonical text, and are both approved, under different digests |
| `BridgeRuns.EffectsAccounted` | packages/bridge/src/bridge.ts:199-416 | In every interleaving each effect is the one named by the payload of one earlier accepted request of a session that permits it, after the URL check, hash or human answer it needs (hash equal to the approved one, yes above the ceiling); no request causes its effect twice; accepted requests have distinct (bridgeId, nonce) |
| `BridgeEffects.EffectExactly` | packages/bridge/src/bridge.ts:199-416 | In every interleaving an accepted request has its effect if and only if its session permits the operation, the project and all that the payload names, the machine has the device or folder it needs, and the URL check, hash or person it needs has answered so: nothing permitted and answered is dropped |
| `BridgeRuns.StateOnlyGrows` | packages/bridge/src/bridge.ts:118-195 | Over every run accepted requests and notes are only added, sessions keep their user, project, key and permissions, and nonce sets only grow |
| `BridgeRuns.DenyAllDoesNothing` | packages/bridge/src/bridge.ts:29-38 | No effect of any run belongs to a session paired with DENY_ALL |
| `BridgeRuns.SignatureAcceptedOnce` | packages/bridge/src/bridge.ts:160-195 | Over every run, once a session has accepted a signature it never accepts a message carrying that signature again, whatever the message claims |
| `BridgeRuns.InvStep` | packages/bridge/src/bridge.ts:118-416 | Every single step keeps the bookkeeping above: sessions and nonce sets have the same keys, suspended handlers are those of accepted requests and have done nothing yet |
| `BridgeSessions.SessionsAccounted` | packages/bridge/src/bridge.ts:118-195 | Over every run a pairing code opens at most one session, each session is for the user and project its code was created for, and after a revocation no request of that session is accepted |
| `BridgeMonotone.PermissionsMonotone` | packages/bridge/src/bridge.ts:29-416 | With the same messages, answers and clock, every effect of a run under some permissions is an effect of the same request in the run under componentwise larger ones (URL check monotone in the hosts), and the same requests are accepted |
| `Bridge.LocalBridge.constructor` | packages/bridge/src/bridge.ts:105-111 | A new bridge has no pairings, sessions or nonces |
| `Bridge.LocalBridge.CreatePairingCode` | packages/bridge/src/bridge.ts:118-123 | Records an unused code for the user and project, and changes nothing else |
| `Bridge.LocalBridge.OpenSession` | packages/bridge/src/bridge.ts:125-147 | Unknown, used and expired codes open nothing; otherwise the code is used up and a session for its user and project begins with an empty nonce set |
| `Bridge.LocalBridge.RevokeSession` | packages/bridge/src/bridge.ts:149-152 | Stamps the session if it exists, and changes nothing else |
| `Bridge.LocalBridge.Check` | packages/bridge/src/bridge.ts:160-195 | The first of the checks that fails, in the order they are made |
| `Bridge.LocalBridge.Spend` | packages/bridge/src/bridge.ts:190-192 | Spends exactly one nonce of one session |
| `Bridge.LocalBridge.Authenticate` | packages/bridge/src/bridge.ts:160-195 | A refusal changes nothing; an acceptance is of a live session and an unseen nonce, and spends it |
| `Bridge.LocalBridge.Move` | packages/bridge/src/bridge.ts:251-416 | Carries out one move of a handler: refuse, throw, act once, or suspend |
| `Bridge.LocalBridge.Dispatch` | packages/bridge/src/bridge.ts:218-241 | An accepted request goes to the handler of its operation under the permissions of its own session |
| `Bridge.LocalBridge.HandleRequest` | packages/bridge/src/bridge.ts:199-242 | A request up to its first `await` is one step of the run, with the answer that step gives, and keeps everything runs keep |
| `Bridge.LocalBridge.UrlAnswered` | packages/bridge/src/bridge.ts:265-270 | Resumes the handler that was waiting for the URL check, with the URL the check returned |
| `Bridge.LocalBridge.HashAnswered` | packages/bridge/src/bridge.ts:354-362 | A deploy is performed if and only if the file hashes to the approved hash |
| `Bridge.LocalBridge.PersonAnswered` | packages/bridge/src/bridge.ts:398-415 | An approval goes to the device if and only if the person said yes and a device is attached |
| `Artifact.ArtifactHash` | packages/adapter-sdk/src/artifact.ts:34-43 | The loop over the sorted files feeds exactly the frames of the files in that order; no files is EMPTY |
| `Artifact.ReadFrames` | packages/adapter-sdk/src/artifact.ts:38-42 | The encoding is uniquely decodable: a reader gets back every path and content, in order, up to lone surrogates |
| `Artifact.FramesExact` | packages/adapter-sdk/src/artifact.ts:38-42 | Two file sequences feed the same bytes if and only if they agree up to lone surrogates |
| `Ordering.SortExact` | packages/adapter-sdk/src/artifact.ts:38 | Two arrangements of the same members sort alike if and only if each class of tied members comes in the same order in both |
| `Ordering.SortUnique` | packages/adapter-sdk/src/artifact.ts:38 | Where no two different members tie, the sorted arrangement is unique |
| `Artifact.PermutationExact` | packages/adapter-sdk/src/artifact.ts:34-43 | Two arrangements of the same files encode alike if and only if files whose paths tie come in the same order in both |
| `Artifact.OrderFreeExact` | packages/adapter-sdk/src/artifact.ts:34-43 | Every arrangement of a list of files encodes to the same bytes if and only if no two of its files with tying paths differ |
| `Artifact.ReverseCheckExact` | packages/adapter-sdk/src/testkit.ts:243-249 | The reverse check passes if and only if every list of files with tying paths reads the same both ways |
| `Artifact.ReverseCheckOfDistinct` | packages/adapter-sdk/src/testkit.ts:243-249 | When no two files are the same as encoded (after lone surrogates become U+FFFD), the reverse check passes if and only if no two paths tie under `localeCompare` |
| `Artifact.TiedPairDiffers` | packages/adapter-sdk/src/testkit.ts:243-249 | Two files whose paths tie and that are encoded differently: the two orders give different bytes, and the check reports them |
| `Artifact.PinExact` | packages/adapter-sdk/src/artifact.ts:61-76 | Well-formed files verify against a pin if and only if they are the pinned files in an order that keeps files with tying paths in theirs |
| `Artifact.PinFixesFiles` | packages/adapter-sdk/src/artifact.ts:61-76 | When no two different pinned files tie: if and only if they are the pinned files, in any order |
| `EventLog.ProcessedEventLog.Admit` | apps/agent-runtime/src/checkpoint.ts:83-88 | Admits exactly what the log, after its eviction, does not hold; the new log is that eviction with the new entry appended |
| `EventLog.ProcessedEventLog.Evict` | apps/agent-runtime/src/checkpoint.ts:98-108 | Keeps the entries within the window, and of those the last `maxEntries` |
| `EventLog.ProcessedEventLog.DropStale` | apps/agent-runtime/src/checkpoint.ts:99-101 | The walk that deletes as it goes removes exactly the entries outside the window |
| `EventLog.ProcessedEventLog.DropOldest` | apps/agent-runtime/src/checkpoint.ts:103-107 | The loop drops the oldest entries until `maxEntries` are left, or none |
| `EventLog.SuffixOfAdmissions` | apps/agent-runtime/src/checkpoint.ts:77-109 | With a clock that does not go back, the log is always a time-ordered suffix of the admissions, of distinct ids, of at most `maxEntries` + 1 entries |
| `EventLog.EvictsPrefix` | apps/agent-runtime/src/checkpoint.ts:98-108 | With such a clock every eviction removes a prefix of the log |
| `EventLog.AdmitExact` | apps/agent-runtime/src/checkpoint.ts:83-88 | An event is refused if and only if it is among the last `maxEntries` admissions and within the window, whatever was evicted before |
| `EventLog.AdmittedTwice` | apps/agent-runtime/src/checkpoint.ts:77-109 | Between two admissions of one id lies more than the window, or at least `maxEntries` other admissions |
| `EventLog.AgreesWithUnbounded` | apps/agent-runtime/src/checkpoint.ts:77-109 | The bounded log answers every call like an unbounded list of admissions if and only if no call finds its event within the window but beyond the last `maxEntries` |
| `EventLog.FewEnough` | apps/agent-runtime/src/checkpoint.ts:77-109 | In particular while every window holds at most `maxEntries` admissions |
| `EventLog.EventIdExact` | apps/agent-runtime/src/checkpoint.ts:112-113 | Two events share an identity if and only if chain, log index and the text of block and lower-cased hash together agree |
| `EventLog.EventIdInjective` | apps/agent-runtime/src/checkpoint.ts:112-113 | For block numbers without a colon, whatever the hashes are: if and only if chain, block, log index and lower-cased hash agree |
| `EventLog.EventIdInjectiveOfHashes` | apps/agent-runtime/src/checkpoint.ts:112-113 | For lower-cased hashes without a colon, whatever the block numbers are: likewise |
| `EventLog.EventIdUniqueExactly` | apps/agent-runtime/src/checkpoint.ts:112-113 | One event shares its identity with some other log if and only if its lower-cased hash has a colon, or its block has a colon with only lower case after it; of `toLowerCase` it is used that it is idempotent and that a colon separates what it does |
| `EventLog.EventIdUnique` | apps/agent-runtime/src/checkpoint.ts:112-113 | For a block number in lower case: no other log shares the identity if and only if neither the block nor the lower-cased hash has a colon |
| `EventLog.EventIdCollision` | apps/agent-runtime/src/checkpoint.ts:112-113 | A block number is any string; two different events, one with a colon in its block, that share an identity |
| `EventLog.CursorOnlyAdvances` | apps/agent-runtime/src/checkpoint.ts:52-68 | Over any attempts the cursor keeps its agent and deployment, never goes back, and lies at or below a head that was announced as final |
| `Quota.QuotaManager.Reserve` | apps/studio/src/quota.ts:134-157 | Grants if and only if all three totals stay within their limits; a refusal names a limit that would be passed and changes nothing |
| `Quota.QuotaManager.Settle` | apps/studio/src/quota.ts:160-190 | Each total moves by what the call used, less what the reservation still held |
| `Quota.QuotaManager.Release` | apps/studio/src/quota.ts:193-195 | Only the state of that reservation changes |
| `Quota.TotalAfter` | apps/studio/src/quota.ts:272-294 | How far each operation moves each total of each build, whatever rows it names |
| `Quota.TotalsBounded` | apps/studio/src/quota.ts:134-195 | In any interleaving, settled plus held is at most the limit plus the overruns since the last granted reservation |
| `Quota.OverrunIsFelt` | apps/studio/src/quota.ts:160-190 | The bound is met: an overrun adds itself in full |
| `Quota.NeverExceeds` | apps/studio/src/quota.ts:134-195 | While every settlement stays within what its reservation still held, no total passes its limit |
| `Quota.OverrunOfOwnUse` | apps/studio/src/pipeline.ts:840-868 | When ids are used as `callModel` uses them, an overrun is measured against the whole reservation |
| `Quota.CallModelNeverExceeds` | apps/studio/src/pipeline.ts:840-868 | So if no call uses more than it reserved, no limit is ever passed |
| `Quota.RequestsNeverExceed` | apps/studio/src/quota.ts:134-157 | The number of model requests never passes its limit while each call reports at most one |
| `BuildRuns.CompletedIsEarned` | apps/studio/src/pipeline.ts:528-802 | At every moment of every interleaving, a completed build was approved, and a revision of it has all files written and matching its Blueprint, a clean last suite, and a non-empty mandatory pass within its ceiling that recorded every planned scenario once, in order, all passed, with no honesty flag. The start of that revision is named, and the row names that revision if and only if no start of the build was accepted after it |
| `BuildRuns.ReturnsOkExactly` | apps/studio/src/pipeline.ts:560-776 | A handler that returns says ok if and only if its own revision has earned it, whatever other handlers and calls do meanwhile |
| `BuildRuns.SlotReleased` | apps/studio/src/pipeline.ts:777-801 | A build whose current revision has no handler any more is not RUNNING unless it was never built; in every run a build without handlers holds no sandbox; over its whole life it is repaired at most `autoRepairLoops` times |
| `BuildRuns.CeilingsHold` | apps/studio/src/quota.ts:209-267 | Over every run no revision holds more files than the ceiling, no build has more than one mandatory pass over its ceiling, and no user is charged more scenarios than the allowance |
| `BuildRuns.MoveKeeps` | apps/studio/src/pipeline.ts:544-801 | Every stretch between two `await`s, whatever was answered: it adds rows of its own build and revision only, moves the status only as the source allows, and leaves the handler at a point where everything that COMPLETED will need of the steps so far holds |
| `BuildRuns.InvStep` | apps/studio/src/pipeline.ts:114-802 | Every step of every call keeps that for all builds: rows, handlers, sandboxes and keys belong to builds and to revisions they have had |
| `BuildLife.HandlerEnds` | apps/studio/src/pipeline.ts:590-614 | The repair loop ends, and with it the handler: in any run it resumes at most as often as its remaining files, repairs and calls say, whatever else happens |
| `BuildLife.PassRecords` | apps/studio/src/quota.ts:209-232 | How much of a mandatory pass is recorded while time does not run out: all below the pass ceiling, one scenario at it, none beyond, and exactly when that is everything planned |
| `BuildLife.AbandonmentSurvives` | apps/studio/src/pipeline.ts:478-801 | An abandonment accepted while a build runs, with nobody else writing its status, is still there at the end if and only if it came while the sandbox was being destroyed, or the handler threw and its reviewer had not hit a limit |
| `BuildLife.AbandonmentKept` | apps/studio/src/pipeline.ts:478-801 | A run in which it survives |
| `BuildLife.AbandonmentLost` | apps/studio/src/pipeline.ts:478-801 | A run in which an abandoned build ends COMPLETED |
| `BuildLife.SecondBuildMisleads` | apps/studio/src/pipeline.ts:528-541 | A run with two handlers of one build at once: the row is COMPLETED at a revision that has earned nothing |
| `BuildLife.RowRevisionExactly` | apps/studio/src/pipeline.ts:528-541 | Every completed build has a latest revision whose handler came to return ok, and its start is named; the handler of the revision in the row has come to return ok if and only if no start of the build was accepted after that one |
| `BuildLife.AloneNamesItsRevision` | apps/studio/src/pipeline.ts:528-541 | When the last start of a completed build found no handler of it, the row names a revision that returned ok, whatever overlapped before |
| `BuildLife.OkEndsCompleted` | apps/studio/src/pipeline.ts:478-801 | A handler that comes to return ok makes its build COMPLETED and ready for export, and from then to the end of the handler the build stays COMPLETED, whoever tries to abandon it |
| `BuildLife.CompletedBlueprintIsApproved` | apps/studio/src/pipeline.ts:1125-1141 | The saved Blueprint of a completed build (the design with the save it came from) is the one that was current when it was approved if and only if nothing saved a new current one between the approval and the start |
| `BuildLife.UnapprovedIsCompleted` | apps/studio/src/pipeline.ts:1125-1141 | A run in which one Blueprint is approved and the build is COMPLETED of another design |
| `Pipeline.StudioPipeline.CreateBuild` | apps/studio/src/pipeline.ts:114-142 | A used idempotency key gives the build it was used for and changes nothing, except that the empty key is not looked up and its second insertion throws; otherwise a build the quotas allow starts at INTAKE, RUNNING, unapproved, and one they refuse leaves no row |
| `Pipeline.StudioPipeline.SaveDesign` | apps/studio/src/pipeline.ts:362-372 | A redesign saves revision 1 again, and is current unless an edit has a higher revision |
| `Pipeline.StudioPipeline.FinishDesign` | apps/studio/src/pipeline.ts:411-427 | Only a buildable Blueprint reaches the approval stage |
| `Pipeline.StudioPipeline.EditBlueprint` | apps/studio/src/pipeline.ts:1131-1147 | An edit becomes the current Blueprint, one revision on, and leaves the row with its approval alone |
| `Pipeline.StudioPipeline.Approve` | apps/studio/src/pipeline.ts:440-468 | Granted if and only if the build is at the approval stage and every CRITICAL the model raised is acknowledged |
| `Pipeline.StudioPipeline.Abandon` | apps/studio/src/pipeline.ts:478-487 | Possible if and only if the build is neither completed nor abandoned |
| `Pipeline.StudioPipeline.ReconcileOrphanedBuilds` | apps/studio/src/pipeline.ts:509-526 | Exactly the RUNNING builds become ABANDONED |
| `Pipeline.StudioPipeline.StartBuild` | apps/studio/src/pipeline.ts:528-547 | Unknown, unapproved and undesigned builds change nothing; otherwise a new revision is RUNNING and a handler of it holds the Blueprint that is current now |
| `Pipeline.StudioPipeline.SandboxAnswered` | apps/studio/src/pipeline.ts:545-565 | Without a sandbox the build is FAILED and nothing is held; with one the first file is written, within the ceiling and the time |
| `Pipeline.StudioPipeline.FileWritten` | apps/studio/src/pipeline.ts:562-571 | The path is recorded under its build and revision before the next is written |
| `Pipeline.StudioPipeline.LinkAnswered` | apps/studio/src/pipeline.ts:573-590 | Artifacts that do not match the Blueprint end the build for review; matching ones are tested |
| `Pipeline.StudioPipeline.CompileAnswered` | apps/studio/src/pipeline.ts:804-812 | A failed compilation is one failed row and no run of the tests |
| `Pipeline.StudioPipeline.TestsAnswered` | apps/studio/src/pipeline.ts:814-826 | The run is one row, failed exactly if its exit code is not 0 |
| `Pipeline.StudioPipeline.SuiteRan` | apps/studio/src/pipeline.ts:593-617 | A failure is repaired while the build has repairs left, and is for review otherwise |
| `Pipeline.StudioPipeline.RunPass` | apps/studio/src/pipeline.ts:637-673 | The loop records scenarios in order up to the first that a ceiling or the clock stops; `truncated` is planned minus recorded |
| `Pipeline.StudioPipeline.FinalGate` | apps/studio/src/pipeline.ts:733-776 | COMPLETED if and only if everything planned was recorded and passed and no honesty flag is set; the reviewer is not asked |
| `Pipeline.StudioPipeline.ReviewerAnswered` | apps/studio/src/pipeline.ts:698-718 | A reviewer that fails, or hits its limit, leaves the verdict to the gate |
| `Pipeline.StudioPipeline.SandboxDestroyed` | apps/studio/src/pipeline.ts:794-801 | The handler is over and the pipeline holds no sandbox of the build |
| `Pipeline.StudioPipeline.ResumeBuild` | apps/studio/src/pipeline.ts:544-801 | Every resumption is one step of the run, and keeps everything runs keep |
| `Pipeline.StudioPipeline.RunUserSimulations` | apps/studio/src/pipeline.ts:1090-1116 | Records for the user exactly what was asked and declared, or the part the allowance leaves room for, and never adds a mandatory pass |
| `Pipeline.StudioPipeline.Serve` | apps/studio/src/pipeline.ts:114-1147 | Any call, and any answer to any handler, is one step of the run |
| `Pipeline.StudioPipeline.RunBuild` | apps/studio/src/pipeline.ts:528-802 | From its call to its end, with any calls in between but design stages of this build, another `runBuild` of it and restarts: it ends; the build is then not RUNNING, and COMPLETED if and only if ok was returned, and then earned at this revision |
| `RequestStates.RefusedNeverExecutes` | apps/broker/src/state-machine.ts:37-60 | On no path of the declared transitions does an executable state come after DENIED or ESCALATION_REQUIRED |
| `RequestStates.ExecutesOnlyAuthorized` | apps/broker/src/state-machine.ts:37-60 | Every path to an executable state passes through AUTHORIZED |
| `RequestStates.PathsFall` | apps/broker/src/state-machine.ts:37-60 | Every transition lowers a rank, so paths are bounded and never return |
| `RequestStates.TerminalExact` | apps/broker/src/state-machine.ts:77-79 | A state is terminal if and only if nothing may follow it |
| `BrokerRuns.InvStep` | apps/broker/src/broker.ts:102-349 | Every step of every handler keeps: one row per key, every row owned by a request, and for each request status, reason, audit trail, authorizations and capabilities that are exactly those of how far its call has got |
| `BrokerRuns.RequestsRefineStates` | apps/broker/src/broker.ts:181-322 | In every interleaving the states seen of a request form a run of the declared transitions from RECEIVED, and its status is that of the last |
| `BrokerRuns.CapabilityNeedsAllow` | apps/broker/src/broker.ts:266-322 | A capability row exists only for a request with an ALLOW authorization of its own; its trail is exactly received, identity validated, evaluation requested, authorization observed, minted; it was never refused |
| `BrokerRuns.RefusedHasNoCapability` | apps/broker/src/broker.ts:268-279 | A request seen denied or escalated has no capability and is never seen executable |
| `BrokerMinting.MintedIsEvaluated` | apps/broker/src/broker.ts:227-299 | Two moments: if at one the evaluator has been asked about a request and at a later one a capability exists for it, then in between it answered ALLOW, and the capability agrees field by field with what was asked at the first moment and with that answer; its request hash is the one sent then |
| `BrokerIssuance.OncePerKey` | apps/broker/src/broker.ts:103-111 | A key has at most one request, a request at most one authorization and one capability, the latter exactly when it is ALLOWED |
| `BrokerIssuance.OneCapabilityPerKey` | apps/broker/src/broker.ts:103-111 | No two capability rows are for the same key |
| `BrokerIssuance.LaterRun` | apps/broker/src/broker.ts:102-349 | Nothing recorded is lost, a key keeps its request, a request keeps what it asks for, its identity, its evaluation and its capability, and a finished request never moves again |
| `BrokerIssuance.ReplayOnlyReports` | apps/broker/src/broker.ts:103-111 | A replay adds one audit entry and changes nothing else, and answers with the row of the first call |
| `BrokerIssuance.ReplaysAgree` | apps/broker/src/broker.ts:351-367 | Once the first call has finished, every later call under its key, whatever else it asks, gets the status, reason, authorization and sources it ended with |
| `BrokerIssuance.ReplayOfFirst` | apps/broker/src/broker.ts:102-338 | A first call that returned is repeated exactly; one that threw is reported FAILED when its identity failed and PENDING otherwise |
| `BrokerIssuance.NoncesIncrease` | apps/broker/src/broker.ts:340-343 | With a clock that does not go back, nonces strictly increase in the order they are drawn, and each capability has one of its own |
| `BrokerIssuance.MintedAreDistinct` | apps/broker/src/broker.ts:281-299 | No two minted capabilities share a nonce or an authorization |
| `BrokerIssuance.SignatureAlwaysMints` | apps/broker/src/broker.ts:301-322 | With an injective digest a call that gets its signature always mints: the insertion never conflicts |
| `BrokerMinting.RowsInNonceOrderExactly` | apps/broker/src/broker.ts:281-314 | With a clock that does not go back, the capability rows of a run are in the order of their nonces if and only if no signature overtakes that of a request whose nonce was drawn before |
| `BrokerMinting.RowOrder` | apps/broker/src/broker.ts:281-314 | Of two rows the first was signed first, and it has the smaller nonce if and only if it was also drawn first |
| `BrokerMinting.OutOfOrder` | apps/broker/src/broker.ts:281-314 | Any two requests that pass the checks have a run whose second nonce is inserted first |
| `Broker.Broker.Vet` | apps/broker/src/broker.ts:116-175 | The first check that fails before anything is inserted, in order |
| `Broker.Broker.CreateRequest` | apps/broker/src/broker.ts:102-204 | The lookup, the checks and the insertion up to the identity lookup are one step of the run |
| `Broker.Broker.IdentityAnswered` | apps/broker/src/broker.ts:202-248 | A failed lookup fails the request; a resolved one asks the evaluator about exactly this request |
| `Broker.Broker.EvaluationAnswered` | apps/broker/src/broker.ts:250-299 | A used authorization id or a throw leaves the request as it was; a refusal is recorded and returned; an ALLOW draws a nonce and goes to be signed |
| `Broker.Broker.DrawNonce` | apps/broker/src/broker.ts:340-343 | The nonce drawn and the counter after it |
| `Broker.Broker.SignatureAnswered` | apps/broker/src/broker.ts:301-338 | Mints, or leaves the request as it was when the signer or the insertion throws |
| `Broker.Broker.GetRequest` | apps/broker/src/broker.ts:351-367 | The status, reason, first authorization row and sources of the request, if there is one |
| `EventStream.TargetsExact` | apps/studio/src/events.ts:63-94 | An event is handed to exactly the open connections of its build |
| `EventStream.StreamExact` | apps/studio/src/api.ts:549-561 | A client has received what was persisted before it connected and after the event it named, then everything since, in order and once; and that is the history after that event if and only if no later event of the build has an id at or below it |
| `EventStream.SmallerIsSent` | apps/studio/src/api.ts:549-561 | For any event with a positive id and any id at or above it: a run in which a client that asked for what comes after the latter is sent the former, which is not in the history it asked for |
| `EventStream.StreamComplete` | apps/studio/src/api.ts:549-561 | A client that asked from the start, or from an event that existed when it connected, has at every moment exactly the history after it |
| `EventStream.ReconnectionsMissNothing` | apps/studio/src/api.ts:549-566 | Across any number of disconnections and reconnections from the last event it got, however much of each connection was lost on the way, what a client has got is, put together, a beginning of the history of its build, without gaps or repetitions, and all of it once it has caught up |
| `EventStream.ResumedIsWhole` | apps/studio/src/events.ts:97-113 | A history up to any moment followed by the history after its last event is the whole history |
| `EventStream.SecondUnsubscribeSilences` | apps/studio/src/events.ts:86-94 | Each unsubscribe must be called once: a second call silences a client that connected since |
| `EventStream.SecondUnsubscribeExactly` | apps/studio/src/events.ts:86-94 | In every run: a second unsubscribe of a closed connection changes nothing if and only if its build has no listeners or still has the set that was joined; otherwise it silences all listeners of the build |
| `EventBus.StudioEventBus.EmitEvent` | apps/studio/src/events.ts:63-84 | The event is persisted, then handed to every listener of its build; one that throws takes nothing from the others |
| `EventBus.StudioEventBus.Deliver` | apps/studio/src/events.ts:76-83 | The loop hands the event to each listener exactly once |
| `EventBus.StudioEventBus.ReadHistory` | apps/studio/src/events.ts:97-113 | The persisted events of the build after the one named, oldest first |
| `EventBus.StudioEventBus.AddListener` | apps/studio/src/events.ts:86-89 | Joins the set of the build, or a new set |
| `EventBus.StudioEventBus.OpenConnection` | apps/studio/src/api.ts:549-561 | Replay and subscription are one step |
| `EventBus.StudioEventBus.CloseConnection` | apps/studio/src/events.ts:90-93 | Leaves the set that was joined; an empty set is forgotten |

## Left out

- The cryptography itself, the randomness of codes and ids, and `Buffer.from(…, "hex")`: signature strings are not claimed to be unique.
- SQLite, Fastify, sockets, Docker, model calls, URL resolution and the chain: atomic updates, oracles or steps.
- The JSON reader accepts what `JSON.stringify` writes, without whitespace; a general parser is not part of this model.
- Objects with symbol keys, `toJSON`, dates, `BigInt`, functions, `NaN` and the infinities are not JSON values here; payloads are values a JSON parser can return, plus `undefined`.
- Allow-lists are sets, as they are only searched; session and pairing records are held by value, so a caller that mutates a returned record is not modelled.
- Result fields the bridge returns to the hosted side (sanitized status, API bodies) and the texts of error details.
- The URL check: an arbitrary function of the URL and the session's hosts, monotone where the theorem says so.
- `createHash` fed in several calls is modelled as one text of bytes, which is what it hashes.
- `ProcessedEventLog.size`, `assertExternalStore`, and exactly-once across restarts: the log is in memory, and the results hold per instance.
- Numbers beyond the safe integers, and chain ids or log indices that are not integers.
- `assertCanCreateBuild`, the usage snapshot, cost estimates and warnings: single queries and reports. Whether a build may be created is a parameter.
- What the design stages make of a prompt: `assembleBlueprint` and the registry. What they save, the statuses their model calls leave and where they end are steps; a Blueprint is what deterministic code makes of it.
- `renderProject`, the artifact validator, the simulation engine, the security score and the honesty scan are deterministic: their results, and whether they throw, belong to the Blueprint. What the reviewer says never enters the gate.
- Which of two sandboxes of one build is destroyed when two handlers of it run at once: the pipeline keeps its sandboxes by build, and so does the model.
- Two runs of one build get different pass ids because their revisions differ; the base-36 time in the id is kept as a number.
- The broker's other read-only endpoints, and the signature and calldata that the first call returns beside its record.
- `assertTransition` and the states after CAPABILITY_ISSUED: the broker never enters them.
- Listeners that emit or unsubscribe while an event is being delivered, and the order in which listeners of one build are called.
- The runtime health checks, gateways, configuration, organization, strategy, export, scripts and frontend: tables and one-branch checks.
