# GhostCacher: a verified model

GhostCacher hashes the stable part of an LLM prompt into a cache key, keeps a map from key to the
GPU pod that has the prefix warm, and guards the warming of a cold prefix with a lock in Redis. This
project models that logic in Dafny and proves what it guarantees, and under which conditions.
`dafny verify dfyconfig.toml` checks everything.

## What is modelled

| file | subject |
|---|---|
| `Seqs.dfy`, `Sorting.dfy`, `Text.dfy`, `Markers.dfy` | mapping and filtering; sorting; whitespace, trimming, words, string order; splitting on `[SOURCE:` |
| `Canonical.dfy`, `Idempotence.dfy`, `Sources.dfy` | the canonical form of a block: exactly what it identifies, and when it is idempotent; documents made of identified sources |
| `ClientText.dfy`, `Clients.dfy` | whitespace and string order in JavaScript and Python; the TypeScript and Python canonical forms compared with the sidecar's |
| `Hasher.dfy`, `Composite.dfy`, `Policy.dfy` | block digests, the streaming cache key, the document chain, token estimates; the documented key formula; lifetime policies |
| `Redis.dfy`, `Backoff.dfy`, `Protocol.dfy`, `Outcomes.dfy` | Redis commands, the waiting schedule, the request protocol as a state machine, and where each outcome of a command leads |
| `Affinity.dfy`, `GhostLock.dfy`, `Deadlines.dfy`, `HitCounts.dfy`, `ColdRouting.dfy` | theorems over all runs of that machine |
| `ControlPlane.dfy` | the Redis client's methods as a class, and how long a wait takes |
| `EndToEnd.dfy` | hasher and protocol composed: what a hit means for a prompt |
| `Witnesses.dfy`, `TextWitnesses.dfy` | concrete runs and texts on which stronger claims fail |
| `Json.dfy`, `Extraction.dfy`, `BlockContents.dfy`, `RequestKeys.dfy` | which part of a request is volatile, and what each block holds; exactly when two bodies share a key |
| `Provider.dfy`, `CachePoint.dfy` | the body rewrites; where the Bedrock cache point lands |
| `Registry.dfy` | the control plane's pod registry and its health sweep |

**Runs.** A run is a sequence of states and actions. Each request is a program counter that stands
just before a Redis command; one action performs one command of one request, so requests interleave
between any two commands, and `lookup` is three separate steps (GET, EXPIRE, SET). Time passes in
milliseconds, keys expire lazily. Faults are explicit: a command that never reaches Redis, a command
whose reply is lost, eviction of any key, and a request that is dropped. A theorem about `IsRun`
allows all of them; `QuietRun(run, key)` excludes errors, evictions and expiry for one key, whatever
befalls the others. The witness runs are fault-free, hence quiet for every key (`FaultFreeRun`,
`Witnesses.FaultFreeIsQuiet`), and mostly calm: no waiter gives up (`CalmRun`). Theorems apply to every
prefix of a run, so a fault after the moment they speak of does not matter. The writer id stored beside
a cache entry and the owner id in a lock are bookkeeping of the model; Redis holds the entry and "1".

**The hash.** SHA-256 (FIPS 180-4, section 6.2) with hex output is any function from text to 64
lowercase hex digits. It is never assumed injective; as texts outnumber digests, some pair collides
under every such function. Where keys coincide and contents do not, the lemmas return a collision
between a text hashed for the one and a text hashed for the other (`Hasher.KeysCollide`): the joined
digests, or a tagged block. The theorems hold for every such function, in particular for SHA-256 of
the UTF-8 encoding. The state of a running hasher is the text fed to it so far.

## Where the code and its documentation differ

The model follows the code.

- The comment at sidecar/src/hasher.rs:37 promises lowercased source ids; no code does that.
- The unit test at sidecar/src/hasher.rs:183-194 writes `[ SOURCE:` with a space, which is not the
  marker the code splits on, so nothing is reordered there.
- Sections are sorted on raw text before whitespace is collapsed, so order and whitespace do not
  matter only for documents whose ids are distinct (`Sources.DocumentInvariance`); a repeated id is
  enough to break it (`TextWitnesses.DuplicateIdsDrift`). `Canonical.DocumentExact` is the exact rule
  for all documents. For the same reason canonicalising a document twice can differ from once
  (`TextWitnesses.SecondPassSwaps`, `Idempotence.DocumentIdempotentExactly`).
- dashboard/client.py:69 puts no line break between a preamble and the first source, and Python takes
  U+001C to U+001F for whitespace, so the Python client's canonical text differs from the sidecar's
  exactly when a preamble runs straight into a marker or one of those occurs
  (`Clients.PythonAgreesExactly`, `TextWitnesses.PythonJoinsPreamble`).
- dashboard/client.ts:77 sorts by UTF-16 code units, and JavaScript takes U+FEFF for whitespace and
  U+0085 not. The TypeScript client's canonical text differs from the sidecar's exactly when one of the
  two occurs or code units order the sections differently (`Clients.TypeScriptAgreesExactly`,
  `TextWitnesses.TypeScriptSwaps`).
- The comment at sidecar/src/hasher.rs:98 speaks of characters; the estimate counts bytes
  (`Hasher.EstimateBounds`, `Hasher.ByteLenBounds`).
- sidecar/src/hasher.rs:7-8 says that a change to an upstream block invalidates all downstream hashes.
  It changes the key, but `h_doc` depends on the documents alone and `h_tools` on the last tools block
  (`Hasher.HashPromptBlocks`).
- The repository's README.md:116 says the system prompt is hashed. An Anthropic system prompt given as
  an array of blocks is not (sidecar/src/interceptor.rs:278), nor are OpenAI messages of roles other
  than the four known ones (sidecar/src/interceptor.rs:340): `RequestKeys.SystemArrayUnseen`,
  `RequestKeys.OtherRolesUnseen`.
- The repository's README.md:118 and README.md:168 say that a hit is routed to the pod that holds the
  prefix and a miss to the least-loaded pod. The code records that pod's id but forwards elsewhere: a
  miss to its sidecar's configured `default_pod_ip` (sidecar/src/interceptor.rs:383), a hit to the
  writer's (sidecar/src/interceptor.rs:114). That address is 127.0.0.1 unless configured
  (sidecar/src/config.rs:98). The theorems about pod choice are therefore about the id recorded
  (`Affinity.DestinationIsConfigured`, `Affinity.OneAddressForAll`, `Witnesses.RecordedNotRouted`).
- sidecar/src/provider.rs:122-123 promises the Bedrock cache point at the stable prefix boundary. A
  block index is used as a message index, so it may land elsewhere: on the volatile last turn when a
  tool result follows it (`CachePoint.ToolResultMissed`). `CachePoint.CachePointExactly` says when it
  lands on the last stable message; with system and tool messages first, that is in conversations of at
  most two turns (`CachePoint.CachePointPlaced`).
- The repository's README.md:144 and sidecar/src/hasher.rs:26 give the key as H(H_sys sep H_tools sep
  H_doc). Every block's digest is fed instead, so this holds exactly for prompts with at most one block
  of each kind, in that order (`Composite.FormulaExactly`).
- sidecar/src/redis_client.rs:77-80 counts a hit by writing back the entry read before. Overlapping
  lookups lose hits (`Witnesses.HitLost`), and a lookup that straddles a warm write puts the old entry
  back (`Witnesses.StaleEntryReturns`). `HitCounts.HitCountExact` is the exact rule; the score of
  README.md:484 in the repository multiplies by that count.
- The repository's README.md:135 and README.md:477 give document entries four hours. A hit's plain
  SET clears the deadline, so the bound holds exactly until the first hit
  (`Deadlines.OutlivesDeadlineExactly`, `Witnesses.OutlivesFourHours`).
- The repository's README.md:151-154 says only one pod performs the prefill. There is no second lookup
  after the lock is taken, so a prefix can be warmed twice (`Witnesses.WarmedTwice`). A warm write finds
  the prefix already warm exactly when another write landed between the request's missed GET and its
  turning cold, or, once a waiter has given up while another request was warming, after that
  (`GhostLock.RedundantWarmExactly`, `Witnesses.GivingUpWarmsAgain`). Two requests have been warming a
  key at once exactly if a waiter for it gave up while another request was warming it
  (`GhostLock.OneWarmerExactly`, `Witnesses.ExhaustionBreaksExclusion`). Such a waiter's DEL can then
  remove a third request's lock (`GhostLock.ReleasesOwnExactly`, `Witnesses.DeletesAnothersLock`).
- The sliding policy of sidecar/src/interceptor.rs:374 is unreachable, so EXPIRE is never sent
  (`Policy.InferredPolicy`, `Deadlines.TouchingNever`).

## Model

| member | source | states |
|---|---|---|
| Text.WhiteSpaceIs | sidecar/src/hasher.rs:64 | whitespace is exactly the 25 characters with the Unicode property |
| Text.TokensSep | sidecar/src/hasher.rs:64 | splitting on whitespace is a homomorphism over any whitespace separator |
| Text.TokensJoin | sidecar/src/hasher.rs:64-68 | words joined by single spaces split back into the same words |
| Sorting.SortSorts | sidecar/src/hasher.rs:54 | the sort leaves a vector in order, for every total preorder |
| Sorting.SortUnique | sidecar/src/hasher.rs:54 | under a total order all permutations of a vector sort to the same vector |
| Sorting.FirstOfLeast | sidecar/src/redis_client.rs:204 | the sort is stable at the front: of several least elements the first comes first |
| Markers.SplitUnsplit | sidecar/src/hasher.rs:46-47 | marker-free parts survive being written out around markers and split again |
| Markers.UnsplitSplit | sidecar/src/hasher.rs:46-52 | splitting a document loses nothing and leaves marker-free parts |
| Canonical.DocumentNormalForm | sidecar/src/hasher.rs:39-65 | a canonical document is the words of its preamble, then of its sections in raw order, on one line |
| Canonical.CanonicalSplits | sidecar/src/hasher.rs:43-64 | splitting a canonical document gives back the original's words section by section: normalising creates and loses no marker |
| Canonical.DocumentExact | sidecar/src/hasher.rs:39-65 | for all documents: same canonical form if and only if preambles and, in raw order, sections agree up to whitespace |
| Canonical.PlainExact | sidecar/src/hasher.rs:66-69 | other kinds: same canonical form if and only if the texts agree up to whitespace |
| Canonical.PlainIdempotent | sidecar/src/hasher.rs:66-69 | canonicalising twice is canonicalising once, for every text of the other kinds |
| Idempotence.DocumentIdempotentExactly | sidecar/src/hasher.rs:43-65 | for all documents: idempotent if and only if the collapsed sections of the input, taken in the order of their raw text, are in order as they stand |
| TextWitnesses.SecondPassSwaps | sidecar/src/hasher.rs:43-65 | a document whose first pass puts b before a and whose second puts a before b |
| Sources.DocumentInvariance | sidecar/src/hasher.rs:33-65 | well-formed documents: same canonical form if and only if same preamble words and same sources by id and body words, in any order |
| Sources.DocumentIdempotent | sidecar/src/hasher.rs:43-65 | canonicalising a document with distinct ids twice is canonicalising it once |
| TextWitnesses.DuplicateIdsDrift | sidecar/src/hasher.rs:36-54 | two documents with equal words and one id used twice whose canonical forms differ |
| Clients.TypeScriptAgreesExactly | dashboard/client.ts:70-83 | on every kind and text the TypeScript form equals the sidecar's if and only if neither U+0085 nor U+FEFF occurs and, for a document, sorting by UTF-16 code units leaves the sections' words in place |
| Clients.TypeScriptAgrees | dashboard/client.ts:70-83 | it does for every text without those two that has no character beyond the basic plane, or none between the surrogates and its end |
| TextWitnesses.TypeScriptSwaps | dashboard/client.ts:74-77 | a document whose two sections come in different order by code units and by code points |
| Clients.PythonAgreesExactly | dashboard/client.py:62-70 | on every kind and text the Python form equals the sidecar's if and only if none of U+001C to U+001F occurs and, for a document, no preamble runs straight into a marker |
| TextWitnesses.PythonJoinsPreamble | dashboard/client.py:62-70 | a document on which the Python form has one word where the sidecar's has two |
| Hasher.HashPromptBlocks | sidecar/src/hasher.rs:112-162 | one streaming pass yields the one-shot key, the last system and tools digests, the document chain and the summed token estimate |
| Hasher.DigestIs | sidecar/src/hasher.rs:80-96 | a block's digest is the hash of `SYS:`, `TOOLS:` or `DOC:` and its canonical text |
| Hasher.BlockFeeds | sidecar/src/hasher.rs:122-136 | a user block feeds nothing to the key, any other its digest |
| Hasher.KeyIs | sidecar/src/hasher.rs:117-136 | the key is the hash of what the blocks feed in order, with NUL GC NUL between any two that feed something |
| Hasher.SectionDigestsAre | sidecar/src/hasher.rs:138-150 | the last system and tools block decide their digests; each further document's digest is hashed onto the chain so far, behind NUL GC NUL |
| Hasher.TaggedInjective | sidecar/src/hasher.rs:80-96 | no two kinds and canonical texts share a tagged hash input |
| Hasher.Join64Injective | sidecar/src/hasher.rs:131-134 | the separated list of digests can be read back from the text fed to the hasher |
| Hasher.KeyExactness | sidecar/src/hasher.rs:80-162 | prompts with equal stable forms share a key; sharing a key without that means that a text hashed for the one collides with a text hashed for the other |
| Composite.FormulaExactly | sidecar/src/hasher.rs:26-27 | the key is H(H_sys sep H_tools sep H_doc) if the stable blocks are at most one of each kind in that order; on any other prompt only if texts hashed for it, or its joined section digests, collide |
| Hasher.DocChainExact | sidecar/src/hasher.rs:140-148 | equal document chains over any numbers of documents mean equal canonical document lists, or a collision between texts hashed for the two chains |
| Hasher.EstimateBounds | sidecar/src/hasher.rs:98-128 | the summed estimate of n blocks with T bytes is at least T/3.8 and less than T/3.8 + n; for one block, T/3.8 rounded up |
| Hasher.ByteLenBy | sidecar/src/hasher.rs:100-102 | bytes add up over concatenation, and a character has one to four by its code point |
| Hasher.ByteLenBounds | sidecar/src/hasher.rs:100-102 | a text has between one and four bytes a character, exactly one if it is ASCII |
| Policy.InferredPolicy | sidecar/src/interceptor.rs:364-375 | four hours if there is a document, infinite if not, never sliding |
| Policy.KeyDeterminesPolicy | sidecar/src/interceptor.rs:366-375 | prompts with equal keys get the same policy, or texts hashed for the two collide |
| Backoff.TotalWaitClosed | sidecar/src/redis_client.rs:155-164 | the total of n sleeps is base * (2^min(n,7) - 1 + 64 * max(0, n-7)), for every n and base |
| ControlPlane.RedisControlPlane.Lookup | sidecar/src/redis_client.rs:57-88 | on a hit returns and stores the entry with one more hit and the time of this one, all else unchanged, without a deadline; on a miss changes nothing |
| ControlPlane.RedisControlPlane.Write | sidecar/src/redis_client.rs:92-109 | the entry is stored under its prefix hash with its policy's deadline and readable at once; a zero lifetime is refused |
| ControlPlane.RedisControlPlane.TryAcquireGhostLock | sidecar/src/redis_client.rs:121-141 | succeeds exactly if the lock is absent, which is then the caller's for 30 s; a held lock is left alone |
| ControlPlane.RedisControlPlane.ReleaseGhostLock | sidecar/src/redis_client.rs:144-150 | removes the lock and nothing else, whoever holds it |
| ControlPlane.RedisControlPlane.AwaitGhostLockRelease | sidecar/src/redis_client.rs:154-176 | the loop computes the specified wait against any behaviour of other clients during its sleeps |
| ControlPlane.RedisControlPlane.ListPodLoads | sidecar/src/redis_client.rs:189-206 | lists exactly the scanned pods with their loads, in order of load, least first |
| ControlPlane.LookupIsSteps | sidecar/src/redis_client.rs:57-88 | uninterrupted, the protocol's separate steps have the effect and outcome of lookup |
| ControlPlane.AwaitIsSteps | sidecar/src/redis_client.rs:154-176 | a request's waiting steps in the protocol leave the store, the time and the outcome that the waiting method does, whatever others do while it sleeps |
| ControlPlane.WaitIsCompetitive | sidecar/src/redis_client.rs:154-176 | a lock that vanishes x ms into the wait is noticed by 2x + 50 ms (x <= 6350) or x + 3200 ms (x <= 9550), never before x; later than that the waiter gives up at 9550 ms |
| Outcomes.TurnsColdExactly | sidecar/src/interceptor.rs:119-153 | a request turns cold exactly if it takes the free lock, its eighth probe still finds it, its lookup after the wait misses, or its lookup or probe reports an error |
| Outcomes.TurnsToLockExactly | sidecar/src/interceptor.rs:119-124 | it turns to the lock exactly if its first GET is answered and finds nothing |
| Outcomes.TurnedAway | sidecar/src/interceptor.rs:121-131 | without the lock, or without an answer about it, it sleeps 50 ms before its first probe |
| Outcomes.Probes | sidecar/src/redis_client.rs:154-175 | at most eight probes; the sleep before the next doubles up to 3200 ms; a free lock leads to the second lookup |
| Outcomes.HitsExactly | sidecar/src/redis_client.rs:77-87 | it hits exactly if its lookup's SET is answered, with the entry read, one hit more and the time of this one, which is what the store then holds |
| Outcomes.WarmsThenReleases | sidecar/src/interceptor.rs:179-201 | a warm task writes the whole entry and then deletes the lock, whatever either command reports |
| Outcomes.OtherKeysUntouched | sidecar/src/redis_client.rs:57-150 | a request's command changes nothing under other keys |
| Affinity.InvAlways | sidecar/src/interceptor.rs:99-201 | in every run every stored, carried or returned entry is its writer's, under its own key and with its writer's pod |
| Affinity.HitIsSound | sidecar/src/interceptor.rs:99-201 | in every run a hit returns an entry for the key asked for, with the pod id recorded for an earlier request with that key, which had written it; the hit is forwarded to that request's configured address |
| Affinity.CreationTime | sidecar/src/interceptor.rs:183-194 | in every run the creation time of an entry stored, or returned by a hit, is the clock at which its writer wrote it |
| Affinity.LastHitTime | sidecar/src/redis_client.rs:77-82 | in every run a stored entry's last hit time is the clock of its last hit, or of its writing if there was none since |
| Affinity.DestinationIsConfigured | sidecar/src/interceptor.rs:163-167 | in every run a request is forwarded to the configured address of the request that warmed its prefix: another's for a hit, its own for a miss |
| Affinity.OneAddressForAll | sidecar/src/interceptor.rs:377-396 | sidecars with one configured address forward everything there, whatever entries and loads say |
| Witnesses.RecordedNotRouted | sidecar/src/interceptor.rs:377-392 | a run in which the one pod reporting is recorded and the request is forwarded to the configured address |
| GhostLock.LockGoneMeansEntry | sidecar/src/interceptor.rs:179-201 | in every run in which the key's entry and lock are not evicted and do not expire and its warm writes reach Redis, whatever else fails (quiet runs among them, `QuietKeeps`), a lock once held and now gone has left a cache entry |
| GhostLock.WaiterHits | sidecar/src/redis_client.rs:166-173 | in every quiet run a waiter that sees the lock gone ends on a hit and never on the cold route |
| GhostLock.MutualExclusion | sidecar/src/interceptor.rs:119-148 | in every quiet run, until a waiter for a key gives up, the key's lock is present exactly while some request holds it, and no two do |
| GhostLock.ExclusionExactly | sidecar/src/interceptor.rs:119-148 | in every quiet run and at every moment, a key has never had two holders, counting dropped requests whose lock is still stored, if and only if no waiter for it has given up |
| GhostLock.OneWarmerExactly | sidecar/src/interceptor.rs:119-201 | in every quiet run and at every moment, no two requests have been warming a key at once if and only if no waiter for it gave up while another request was warming it |
| GhostLock.OnlyTheHolderReleases | sidecar/src/interceptor.rs:196-200 | in every quiet run, until a waiter for the key gives up, a DEL removes the deleter's own lock |
| GhostLock.ReleasesOwnExactly | sidecar/src/interceptor.rs:196-200 | in every quiet run a DEL removes the deleter's own lock if and only if the deleter took it by SET NX and nobody has removed it since |
| Witnesses.DeletesAnothersLock | sidecar/src/redis_client.rs:144-150 | a run without faults in which an exhausted waiter's DEL removes a third request's lock |
| GhostLock.RedundantWarmExactly | sidecar/src/interceptor.rs:119-201 | in every quiet run a warm write finds the prefix already warm if and only if another write landed between its request's missed GET and its turning cold, or after that; the latter only once a waiter has given up while another request was warming; until any waiter gives up, turning cold is the SET NX |
| Witnesses.GivingUpWarmsAgain | sidecar/src/interceptor.rs:129-141 | a run without faults in which holder and exhausted waiter write one after the other |
| Witnesses.WarmedTwice | sidecar/src/interceptor.rs:119-201 | a run without faults in which two requests warm the same prefix one after the other |
| Witnesses.ExhaustionBreaksExclusion | sidecar/src/redis_client.rs:157-160 | a run without faults in which two requests are warming one prefix at once |
| Deadlines.AcquisitionsSeparated | sidecar/src/redis_client.rs:121-150 | in every run, between two acquisitions of a lock it is deleted or evicted, or 30 s pass |
| Deadlines.GivesUpLate | sidecar/src/redis_client.rs:154-164 | in every run a waiter gives up at least 9550 ms after it was turned away |
| Deadlines.TouchingNever | sidecar/src/redis_client.rs:72-75 | in every run no EXPIRE is ever pending |
| Deadlines.EntryLives | sidecar/src/redis_client.rs:77-108 | unless evicted in between, a written entry never expires if its policy is infinite and is present for its full lifetime otherwise, in every interleaving |
| Deadlines.DeadlineSince | sidecar/src/redis_client.rs:82-104 | since the last write an entry keeps its deadline until the first hit's SET and has none after it |
| Deadlines.OutlivesDeadlineExactly | sidecar/src/redis_client.rs:77-83 | past four hours from the last write a document entry is still present if and only if a hit's SET has landed since |
| Witnesses.OutlivesFourHours | sidecar/src/redis_client.rs:82 | a run without faults in which a document entry is present a day after its only write |
| HitCounts.HitCountSound | sidecar/src/redis_client.rs:77-82 | in every run a stored hit count never exceeds the completed hit updates of its key |
| HitCounts.HitCountExact | sidecar/src/redis_client.rs:61-109 | since the last write the store holds that write's entry with exactly the updates made since if and only if no lookup has written back an outdated copy: one read before the write, or overtaken by another lookup's SET |
| HitCounts.NoOverlapNoLoss | sidecar/src/redis_client.rs:61-85 | no update is lost as long as lookups of the key overlap neither each other nor the write |
| Witnesses.StaleEntryReturns | sidecar/src/redis_client.rs:61-104 | a run without faults or overlapping lookups since a warm write in which a lookup that read before it leaves the old entry with two hits, one of them made since |
| Witnesses.HitLost | sidecar/src/redis_client.rs:61-82 | a run in which two overlapping lookups hit and the stored count is one |
| ColdRouting.ColdRouteFreshAndMinimal | sidecar/src/interceptor.rs:377-392 | in every run a cold request records the id of a pod that reported within 45 s before the scan and has the least load read, the first of several, or "default" when the scan fails or is empty, and is forwarded to its sidecar's configured address either way |
| EndToEnd.PromptsArrive | sidecar/src/interceptor.rs:79-97 | for any prompts there are runs in which any number of them has arrived, as the end-to-end theorems assume |
| EndToEnd.HitMeansSamePrefix | sidecar/src/interceptor.rs:89-201 | in every run a prompt that hits shares its stable form with the earlier prompt whose pod id and address it gets, or texts hashed for the two prompts collide; the entry counts the earlier prompt's stable blocks and their token estimates |
| EndToEnd.PrefixStaysCached | sidecar/src/interceptor.rs:170-201 | unless evicted in between a prompt's written entry is there for good without a document and for four hours with one, or a text hashed for it collides with one hashed for a prompt that has arrived |
| EndToEnd.DriftKeepsKey | sidecar/src/hasher.rs:4-8 | whitespace drift, the order of sources in documents with distinct, closed ids, and the user's question do not change the key |
| Extraction.ExtractOpenAI | sidecar/src/interceptor.rs:318-362 | system and tool messages in order, then all turns but the last as one document, then the last as the user block |
| Extraction.ExtractAnthropic | sidecar/src/interceptor.rs:275-316 | a plain system prompt, the tools, all messages but the last as one document, then the last as the user block |
| BlockContents.OpenAIContents | sidecar/src/interceptor.rs:318-362 | system messages, and they only, make the system blocks, tool messages the tools blocks, in order; the turns but the last make the one document, the last turn the user block |
| BlockContents.AnthropicContents | sidecar/src/interceptor.rs:275-316 | a plain `system` makes the system block, `tools` the tools block, the messages but the last the document, the last message the user block |
| BlockContents.AnthropicOrder | sidecar/src/interceptor.rs:275-316 | at most one block of each kind, in that order |
| Extraction.MessagesPartitioned | sidecar/src/interceptor.rs:325-342 | every message is a head block, a turn or of another role; none is lost or counted twice |
| Extraction.OpenAILastTurnVolatile | sidecar/src/interceptor.rs:318-362 | conversations that differ only in the last user or assistant message have the same key |
| Extraction.AnthropicLastTurnVolatile | sidecar/src/interceptor.rs:275-316 | bodies that differ only in the last message have the same key |
| RequestKeys.AnthropicKeyExactly | sidecar/src/interceptor.rs:275-316 | two Anthropic bodies share a key if and only if a plain system prompt and the tools agree up to whitespace and the messages before the last canonically, or texts hashed for the two collide |
| RequestKeys.OpenAIKeyExactly | sidecar/src/interceptor.rs:318-362 | two OpenAI conversations share a key if and only if their system and tool messages and the turns before the last agree canonically, or texts hashed for the two collide |
| RequestKeys.SystemArrayUnseen | sidecar/src/interceptor.rs:278 | bodies that differ only in a system prompt given as an array share a key |
| RequestKeys.OtherRolesUnseen | sidecar/src/interceptor.rs:340 | a message of an unknown role changes no block |
| Provider.InjectAnthropic | sidecar/src/provider.rs:42-101 | the in-place rewrite yields the specified body |
| Provider.AnthropicKeepsMeaning | sidecar/src/provider.rs:42-101 | the text of the system prompt and of every message, all other fields, and the number and order of messages are unchanged |
| Provider.AnthropicSends | sidecar/src/provider.rs:57-98 | a plain system prompt and a plain last but one message are sent as one text block with an ephemeral cache control |
| Provider.BreakpointsAdded | sidecar/src/provider.rs:57-98 | exactly one breakpoint is added for a plain system prompt and one for a plain last but one message, none if nothing is cacheable |
| Provider.AnthropicIdempotent | sidecar/src/provider.rs:42-101 | rewriting twice is rewriting once |
| RequestKeys.SecondSidecarChangesNothing | sidecar/src/provider.rs:42-101 | rewriting again with the blocks extracted from the rewritten body changes nothing |
| Provider.InjectBodyRewrites | sidecar/src/provider.rs:42-101 | in bytes, for any serialisation that parses back: a body that parses comes out as its rewrite if something is cacheable, and every other body untouched |
| Provider.InjectBodyIdempotent | sidecar/src/provider.rs:42-101 | rewriting twice is rewriting once, in bytes |
| Provider.InjectOpenAI | sidecar/src/provider.rs:108-120 | only an absent `store` is set, every other field is kept, and it panics exactly on a body that is neither object nor null |
| Provider.OpenAIDetermined | sidecar/src/provider.rs:108-120 | that promise admits one result only |
| Provider.OpenAIIdempotent | sidecar/src/provider.rs:114-117 | a second pass goes through and changes nothing |
| Provider.InjectBedrock | sidecar/src/provider.rs:124-147 | only `performanceConfig` and the target message's `cachePoint` are written, and it panics exactly if the body or that message is neither object nor null |
| Provider.BedrockDetermined | sidecar/src/provider.rs:124-147 | that promise admits one result only |
| Provider.BedrockIdempotent | sidecar/src/provider.rs:124-147 | a second pass has the same target, goes through and changes nothing |
| CachePoint.CachePointExactly | sidecar/src/provider.rs:122-143 | for every list of messages the cache point lands on the last stable one if and only if there is none, or before it stand exactly one message other than system and tool if it is itself one of those and there are two turns or more, and none otherwise |
| CachePoint.ToolResultMissed | sidecar/src/provider.rs:135-140 | a tool result after an assistant turn: the point lands on the volatile turn before it |
| CachePoint.CachePointPlaced | sidecar/src/provider.rs:122-143 | in a conversation that opens with its system and tool messages the cache point lands on the last stable message if and only if there are at most two turns |
| Registry.PodRegistry.UpsertPod | control-plane/src/pod_registry.rs:66-89 | the pod's record, load and heartbeat are replaced, the last two for 45 s |
| Registry.PodRegistry.RemovePod | control-plane/src/pod_registry.rs:112-119 | the pod disappears from all three places and nothing else does |
| Registry.PodRegistry.EvictDeadPods | control-plane/src/pod_registry.rs:132-147 | exactly the pods whose recorded heartbeat is more than 45 s old disappear from all three places |
| Registry.PodRegistry.ListPods | control-plane/src/pod_registry.rs:92-103 | lists exactly the registered pods, least utilised first |
| Registry.PodRegistry.LeastLoadedPod | control-plane/src/pod_registry.rs:106-109 | a registered pod of least utilisation, or none exactly if none is registered |
| Registry.SilentPodLeaves | control-plane/src/pod_registry.rs:122-147 | with sweeps every 15 s a silent pod is gone within 60 s plus the clock skew |
| Registry.LivePodStays | control-plane/src/pod_registry.rs:132-145 | a sweep removes only pods silent for more than 45 s less the clock skew |

## Left out

- HTTP forwarding, routing, configuration, metrics, tracing and the TTFT estimate: plumbing with no property beyond one function.
- Bytes of SHA-256, hex, UTF-8 and JSON text: the hash and the serialiser are arbitrary functions.
- The native `gc_blocks` format (sidecar/src/interceptor.rs:260-264): deserialised as it stands, so every theorem about block lists applies to it directly.
- The clients' own prefix hashes (dashboard/client.ts:91-101, dashboard/client.py): they use other tags and truncated digests, so only the canonical text can be compared.
- JavaScript strings with unpaired surrogates: they are not Unicode texts and the other languages cannot hold them.
- Hasher.EstimateBounds: exact rationals instead of 64-bit floats; bodies are at most 50 MB, so the 32-bit sum cannot overflow.
- ColdRouting.ColdRouteFreshAndMinimal: loads are reals; the panic of sorting a NaN load is not modelled.
- Affinity.HitIsSound: one clock serves Redis and all sidecars; only the informative timestamps of an entry depend on a sidecar's own clock.
- ControlPlane.WaitIsCompetitive: Redis answers at once and the sleeps are exact, as a lower bound on real waits.
- Registry.SilentPodLeaves: a sweep is atomic and on time, and records always parse.
- Partial hits, the swap threshold and the configurable lock timeout: declared, but used by no step.
- The eviction engine and the flush handlers (control-plane/src/eviction.rs:55-98): nothing is ever selected or deleted there.
- KV-Relay (kv-relay/src/relay.rs:54-103): returns constants.
