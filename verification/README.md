# yaad-grove, modelled and proved in Dafny

yaad-grove is a community bot engine: it answers questions in group chats from a vault of documents,
for users who have consented, and it promises to forget those who withdraw. This project models the
parts of it whose promises span many functions or many concurrent steps, and proves those promises
for every input, every run or every interleaving. `dafny verify dfyconfig.toml` checks it all.

The modules, by what they are about:

- **Consent, withdrawal and erasure.** `Withdrawal` is the concurrent protocol: group turns and
  withdrawals of any number of users, over any chats and namespaces, as atomic steps that interleave in
  any way, with restarts. `Handler` is the group handler and the consent command as sequential code over
  the same state, each proved to be a run of that protocol. `Acl` is the gate, its rate limit and its
  nudges; `Conversation` the buffer and its selection.
- **Retention and the namespace record.** `Retention` is the window and schedule arithmetic,
  `Namespaces` the durable record, the start that writes it and the purge and erase that read it, and
  `Restarts` their interleaving over starts, failed saves and crashes.
- **Structured lookup.** `Normalize` makes lookup keys, `Structured` is the in-memory index, `Enumerate`
  the lookup tool over it, and `Graph`, `GraphOrder`, `Content` and `Ladybug` the graph backend with its
  content-hashed delta index. Both backends are proved against one plain scan of the documents, and the tool
  over either.
- **Rank fusion** (`Fusion`), over exact rationals.
- **Two text cores.** `Native`, `NativeLaws`, `NativeRoundTrip` and `NativeFragments` are the tolerant parser of
  tool calls written into an answer. `Telegram` is the renderer and its reader; `TelegramHtml`,
  `TelegramTokens`, `TelegramReader` and `TelegramLaws` prove what the two do to each other, and
  `TelegramMarkup` spells out what is written and read.
- **The spend meter** (`Budget`).

`LongMemory` holds what the first two parts share of long-term memory; `Options`, `Sorting` and `Text` are
shared helpers.

How the model stands for the code:

- Times are integers of nanoseconds, scores reals. Unicode tables, NFKC, lower-casing, JSON decoding, the
  hash, the embedder and the language model are parameters; a proof says which facts about one it uses
  (`Lawful`, `SpaceLaws`, `CollisionFree`, a fixed vector width).
- What a call into the outside returns (a read that fails, a save that fails after its rename, a delete
  that loses part) is a parameter of the method or step, so every outcome is covered.
- A map the code iterates is walked in any order. A library sort is one stable insertion sort; where the
  library's is not stable, the order is proved strict, so that there is only one sorted result.
- A transaction or an atomic rename is one step. Mutexes are the atomicity of steps; the read lock that
  long-term memory holds while it keeps a turn is modelled, as the withdrawal's count waits for it.

Results worth knowing before reading the table:

- A rate-limit Put outstanding when consent is turned off writes Granted back. `ForgetsIffNoStalePut` proves
  that this is the only way a full withdrawal is not lasting: the promise holds of a state if and only if the
  user has no such Put, and such a state is one message away (`StalePutIsReached`). The conversation buffer
  keeps its promise even then (`BufferForgets`).
- The doc comment of `PurgeCut` has whole windows deleted. That holds if and only if retention is a whole
  number of windows (`CutSplitsNoWindowIff`), which the program checks at its start, and times are from the
  epoch on; before it Go rounds windows up (`WindowStartPlaces`).
- A namespace dropped from the configuration is forgotten once a purge's cut passes the drop. What it still holds
  is then lost to withdrawal and purge exactly if some purge can cut between the drop and the record's time
  (`RecordedIffClear`). With one window for good, records of the drop's own window are safe (`OneWindow`); when
  starts may change the window, only those kept before the drop are (`AnyWindow`).
- A graph index whose first indexed documents had no chunks is made without an embedding column. An embedder's
  store then takes no chunk, and does not open again with an embedder. A store opened without an embedder over
  an index that has embeddings has no vector for a new chunk and stops the process at it. An index that had no
  failure but in its vector index reports an error and holds the new documents. `Ladybug.Store.Index` states
  exactly when each of these happens, and `SteadyRunHoldsLast` that none does in a run that embeds from its first
  index on.
- Two documents' ordinals share an id when a bar in a field's name lets them, and a document can then go missing
  from its field (`SharedOrdinalLosesDocument`). The graph answers ordered queries as the scan does for all
  values if and only if none share one (`ApartIffAnsweredAsScanned`); clashes can cancel out for some values.
- A chunk that both legs of a hybrid retrieval find is sure to be ahead of any that one finds if and only if legs
  hand over at most 60 chunks (`AgreementWinsIffAtMostSixty`).
- The tool-call parser strips each sentinel in one pass. It leaves none when every opening angle begins a
  sentinel or has a harmless character behind it (`NoSentinelShown`), and can leave one otherwise
  (`NestedSentinelSurvives`).
- The spend bound ceiling - 1 + k M is reached (`BoundIsReached`). Saves may fail, but a restart must not lose
  recorded spend that still counts, and that is exactly what the bound needs (`BoundedIffRestorable`); without it
  there is no bound at all (`UnsavedSpendIsUnbounded`).

## Model

| member | source | states |
|---|---|---|
| Acl.Gate.Check | internal/acl/acl.go:219-262 | Whoever declined is left alone with nothing changed; a nudge goes exactly to the unanswered, directed and not cooling; consent, direction and room in the allowance give every other decision; a failed Get or Put refuses, and only a served query is stored |
| Acl.Gate.DecideNudge | internal/acl/acl.go:140-160 | Nudges older than the cooldown are dropped from the map first; then the user is nudged and remembered, or left alone |
| Acl.Gate.SetConsent | internal/acl/authority.go:69-74 | Consent is replaced in one transaction; the rest of the record and every other user's stay |
| Acl.ServesPerWindow | internal/acl/acl.go:238-261 | However a user's non-overlapping Checks fall on a clock that does not go back, at most twice the allowance is served in any closed interval one rate window long |
| Acl.TwiceTheAllowanceIsServed | internal/acl/acl.go:249-261 | From any consented record whose window is over some run is served exactly twice its allowance in such an interval |
| Acl.NudgeRemembered | internal/acl/acl.go:140-160 | A nudge stays in the map until it is a cooldown old, when the times asked with do not go back in the order the map is locked |
| Acl.NudgedOnlyRecently | internal/acl/acl.go:140-160 | Whatever is in the map is a nudge that was sent, less than a cooldown ago by such times |
| Acl.NudgesAreApart | internal/acl/acl.go:140-160 | Two nudges to one user are at least a cooldown apart, when the times asked with do not go back in the order the map is locked: the clock is read before the lock, so overlapping Checks may differ |
| Conversation.Buffer.Append | internal/memory/memory.go:70-81 | The chat keeps the last `retain` turns; a disabled buffer nothing |
| Conversation.Buffer.Recent | internal/memory/memory.go:85-96 | The last k turns of the chat |
| Conversation.Buffer.PurgeLocked | internal/memory/memory.go:126-135 | The speaker's turns go and the others keep their order |
| Conversation.Buffer.Purge | internal/memory/memory.go:101-108 | One speaker is purged from one chat |
| Conversation.Buffer.PurgeUser | internal/memory/memory.go:114-123 | One speaker is purged from every chat |
| Conversation.RunKeeps | internal/memory/memory.go:70-135 | After any run of appends and purges every chat holds exactly "last retain on append, filter on purge" |
| Conversation.KeptIsStanding | internal/memory/memory.go:70-135 | What a run leaves was said in that chat, is in order, and was not purged since |
| Conversation.RecentTurnIsKept | internal/memory/memory.go:70-135 | A turn not purged since, with fewer than `retain` turns said after it, is still there, no further back than those |
| Conversation.Buffer.TakeFloor | internal/memory/select.go:60-68 | The floor is the last min(3, injectN, length) indices |
| Conversation.Buffer.RankOlder | internal/memory/select.go:70-85 | Exactly the scoring turns outside the floor, by score descending and oldest first inside a tie |
| Conversation.Buffer.Fill | internal/memory/select.go:86-95 | Filling from the ranking until the budget is spent makes a best selection |
| Conversation.Buffer.Choose | internal/memory/select.go:58-95 | The chosen indices are a best selection: the floor, then no omitted scoring turn better than a chosen one, and the budget full if any was omitted |
| Conversation.Buffer.Select | internal/memory/select.go:31-103 | Nothing when disabled, empty, without budget, or when the message is no reply and its sender has said nothing within the window; else a best selection emitted in conversation order |
| Conversation.ScoreCounts | internal/memory/select.go:105-135 | A turn scores one for every different word of the query longer than two bytes that it says too |
| Conversation.BestSelectionUnique | internal/memory/select.go:58-95 | That description leaves one selection only |
| Conversation.EmitIsSubsequence | internal/memory/select.go:96-103 | What is returned is exactly the chosen turns, each once, in the order they were said |
| Conversation.EmitEndsWithFloor | internal/memory/select.go:96-103 | It ends with the last min(3, injectN, length) turns, unchanged |
| Withdrawal.TraceInv | internal/runtime/handler.go:84-145 | In every state of every interleaving: outstanding Puts write Granted, keeps under way have the current count, records lie in recorded namespaces, and a running erase has only what it has still to delete or failed to |
| Withdrawal.EraseOutlivesOlderTurns | internal/core/longmemory.go:60-70 | Once an erase has tried every namespace, and ever after, restarts included, a turn that read its count before that erase counted has nothing kept but in namespaces the erase failed in |
| Withdrawal.WithdrawalForgets | internal/runtime/consent.go:65-85 | After a full withdrawal no store holds a record of the user until they grant again, if no Check of theirs was between Get and Put when consent went off |
| Withdrawal.StalePutKeepsAgain | internal/acl/acl.go:219-262 | With a Put outstanding some run fully withdraws and then keeps a record with no grant in between |
| Withdrawal.ForgetsIffNoStalePut | internal/acl/acl.go:219-262 | So that proviso is exact: the promise, restarts after the withdrawal included, holds of a state if and only if no Put of the user is outstanding |
| Withdrawal.StalePutIsReached | internal/acl/acl.go:219-262 | From any first state a consented user's one message reaches a state where that promise fails |
| Withdrawal.BufferForgets | internal/runtime/handler.go:408-415 | In every reachable state, for an unconsented user with no withdrawal between its consent write and its purge and no turn between admission and the end of its purge, no group's buffer holds a turn of theirs, stale Puts included |
| Handler.Instance.Check | internal/runtime/handler.go:86-95 | The gate's Get, decision and Put as the handler runs them are protocol steps; the record and the working reads and writes fix the decision and what is put |
| Handler.Instance.AnswerRemembering | internal/runtime/handler.go:210-218 | The message is buffered, and its answer behind it; an answered turn is kept and no other; each is a protocol step |
| Handler.Instance.Keep | internal/core/longmemory.go:125-146 | With the user and chat named and the count unchanged the stores gain exactly the message's record and, if that was kept, the answer's; otherwise nothing; as protocol steps under the read lock |
| Handler.Instance.PurgeIfWithdrawn | internal/runtime/handler.go:408-415 | Consent is read again and a withdrawn user's turns purged, as protocol steps |
| Handler.Instance.GroupTurn | internal/runtime/handler.go:84-161 | A whole group message is a run of the protocol, ending done. Without consent it changes nothing, and a user who declined gets no reply; a nudge goes only to the unanswered and directed. A consented message is buffered, with its answer right behind; a served answer is kept as both records and nothing else is stored |
| Handler.DecidedBy | internal/acl/acl.go:219-262 | What the gate decides of a message, by consent, direction, room and cooling alone |
| Handler.Instance.RemoveConsent | internal/runtime/consent.go:65-85 | The removal is a run of the protocol: consent off, buffer purged, count up, every namespace tried. No turn of the user is left in the buffer and no record of anyone else is lost; it is acknowledged as erased exactly when no recorded namespace failed, and then nothing of the user is left in any |
| Retention.WindowStartPlaces | internal/core/longmemory.go:158-160 | A window start is a boundary less than a window away, and not after t exactly from the epoch on or on a boundary |
| Retention.CutSplitsNoWindowIff | internal/runtime/purge.go:62-64 | The cut splits no window of turn times if and only if retention is a whole number of windows |
| Retention.CutIsNotLate | internal/runtime/purge.go:62-64 | The cut is at most now less retention exactly from the epoch on or on a boundary |
| Retention.UntilPurgeLands | internal/runtime/purge.go:53-55 | The wait is positive, ends one minute past a boundary, and is at most a window exactly from one minute past the epoch on or one minute past a boundary |
| Retention.EveryBoundaryIsPurged | internal/runtime/purge.go:26-48 | The schedule runs one minute past every boundary after the start |
| Retention.ExpiredRecordIsDeleted | internal/runtime/purge.go:26-64 | A record of time t is before some round's cut by t + retention + window + one minute |
| Namespaces.Record.Save | internal/namespaces/record.go:125-167 | A failed save leaves the old file, or the new one when it fails after the rename |
| Namespaces.Record.Configured | internal/namespaces/record.go:67-74 | Every named namespace becomes configured in memory, and on disk when the save works |
| Namespaces.Record.Drop | internal/namespaces/record.go:79-91 | The first drop time stays; a new one is saved or undone |
| Namespaces.Record.Names | internal/namespaces/record.go:94-103 | Exactly the recorded namespaces, ascending |
| Namespaces.Record.Forget | internal/namespaces/record.go:107-120 | The namespace leaves memory and disk together, or comes back in memory |
| Namespaces.Purge | internal/runtime/purge.go:90-107 | Deletes before the cut, and forgets the namespace only after a delete that worked and a cut not before its drop |
| Namespaces.RunPurge | internal/runtime/purge.go:26-48 | Whatever each attempt comes to, the rounds fall on the schedule, every namespace holds just what its deletes so far leave, and the record has lost exactly the namespaces some round deleted past their drop and forgot |
| Namespaces.ExpiredRecordsAreGone | internal/runtime/purge.go:26-64 | With working deletes a round no later than t + retention + window + one minute leaves nothing of time t or before, for good |
| Namespaces.UnexpiredRecordsStay | internal/runtime/purge.go:26-107 | And no purge deletes a record that has not expired when it runs, whatever its attempts come to |
| Namespaces.NewLongMemory | cmd/yaad-grove/longmemory.go:177-226 | A start that succeeds has every configured namespace recorded as such and every other one dropped, since now or since the start that first did, with a purge for each; one that fails took no namespace off the file |
| Namespaces.Memory.Withdraw | internal/core/longmemory.go:60-70 | The user's count goes up by one and no other's |
| Namespaces.Eraser.Erase | internal/runtime/erase.go:63-79 | Counts first, then tries every recorded namespace in order; nobody else loses a record, and when all worked nothing of the user is left in any |
| Restarts.HeldNamespacesAreRecorded | internal/namespaces/record.go:67-119 | Over any starts with changing settings, keeps, purges, failed saves and crashes, when every cut that passes a first drop passes what the namespace holds, a namespace that holds a record is in the file, the running record and the purges, and only an empty one is forgotten |
| Restarts.RecordedIffClear | internal/runtime/purge.go:90-107 | That condition is exact: at a first drop held namespaces stay recorded whatever follows if and only if no purge can cut between the drop and a record of the namespace |
| Restarts.OneWindow | internal/runtime/purge.go:62-64 | With one window for every start the condition is that each record's window began before the drop |
| Restarts.AnyWindow | cmd/yaad-grove/longmemory.go:71-79 | When starts may choose any window of an hour or more it is that each record was kept before the drop |
| Restarts.LossIsReached | internal/runtime/purge.go:90-107 | With any window the program accepts some run reaches a drop from which a held namespace can be forgotten: of a record kept at that very time, a boundary |
| Normalize.CollapseSeparators | internal/store/normalize.go:94-110 | The loop computes split-on-separators, join-with-space |
| Normalize.NormalizeKey | internal/store/normalize.go:72-87 | The loops compute the key: NFKC, fold, trim, collapse |
| Normalize.CollapsedIsCanonical | internal/store/normalize.go:94-122 | Collapsing is idempotent, leaves no separator but a space, and no bar ever |
| Normalize.SameKeyIffSameWords | internal/store/normalize.go:72-122 | Two spellings have the same key if and only if their folded forms have the same words between separators |
| Normalize.FoldedIs | internal/store/normalize.go:17-87 | Every named joiner and vowel mark vanishes, every named Arabic letter and digit becomes its canonical one, and no other character is changed but in letter case |
| Normalize.SpelledAlike | internal/store/normalize.go:17-87 | So spellings differing in a mark, or in a letter or digit with the same canonical form, have the same key |
| Normalize.WordsAre | internal/store/normalize.go:94-122 | Words are parted by just the spaces, hyphens, punctuation and symbols |
| Structured.BuildStructured | internal/store/memory.go:139-177 | The dimension index lists what a scan finds for every key and the alias map holds the last registration of every form |
| Structured.BuildOrdered | internal/store/memory.go:115-132 | Each field's entries are its carriers sorted ascending |
| Structured.Memory.Index | internal/store/memory.go:85-108 | A snapshot that answers for the new documents, or the old one when embedding fails |
| Structured.Memory.Enumerate | internal/store/memory.go:285-299 | A fresh copy of what a naive scan finds: each document once, in document order, whose declared values include the alias-resolved key |
| Structured.Memory.Ordered | internal/store/memory.go:327-362 | The first `limit` (all when not positive) documents carrying the field, sorted in the asked direction |
| Structured.WalkDescending | internal/store/memory.go:341-350 | The grouped reverse walk ends, and walks the groups last to first with each forwards |
| Structured.DescWalkSorts | internal/store/memory.go:327-362 | That walk is sorted by key descending with path ascending inside every tie |
| Structured.WalkIsDirectSort | internal/store/memory.go:327-362 | With distinct paths it equals a direct sort |
| Structured.CarriersSortStrictly | internal/store/memory.go:115-132 | With distinct paths the sorted entries are strictly ordered, so no other arrangement is sorted |
| Structured.SpellingsEnumerateAlike | internal/store/memory.go:285-299 | Spellings that differ only in separators and the like find the same documents |
| Structured.ScanFinds | internal/store/memory.go:153-175 | That scan finds a document exactly if one of its declared values has the key |
| Structured.AliasIs | internal/store/memory.go:143-152 | A surface form stands for the title of the last document with it as an alias |
| Structured.ScanListsCarriers | internal/store/memory.go:115-132 | The sorted scan lists exactly the documents carrying the field |
| Structured.ScanIsInOrder | internal/store/memory.go:115-132 | By the field's value in the asked direction, and by path where values are equal |
| Enumerate.KeepInPlace | internal/tools/enumerate.go:402-409 | The in-place filter keeps exactly the kept paths, in order |
| Enumerate.Intersect | internal/tools/enumerate.go:385-414 | Over either store: the first filter that alone finds nothing is reported; else the legs joined by path in the first one's order, touching no store |
| Enumerate.Ordered | internal/tools/enumerate.go:300-330 | Over either store: without filters its answer; with them its whole order, filtered, and cut last |
| Enumerate.JoinIsMatching | internal/tools/enumerate.go:385-414 | The join is the documents matching every filter, in document order |
| Enumerate.FacetedIsScanOfMatching | internal/tools/enumerate.go:300-330 | A sorted faceted lookup answers as though the store held only the matching documents, in whatever order the store gives its legs |
| Enumerate.AnswersWhenSomeMatchCarries | internal/tools/enumerate.go:287-330 | The answer is empty exactly when no matching document carries the field, whatever the cap |
| Enumerate.OrderedOver | internal/tools/enumerate.go:300-330 | Over either store holding the documents: the first filter matching no document is reported, and otherwise the matching documents are sorted, then cut; the graph's when no two ordinals share an id and the field has a name |
| Enumerate.MatchingOver | internal/tools/enumerate.go:385-414 | An unsorted lookup over either store finds exactly the documents matching every filter, in document order over the in-memory one |
| Graph.Rebuild | internal/store/ladybug_ops.go:123-191 | Six batches of staged rows leave tables that hold exactly what the documents declare |
| Graph.TablesAreUnique | internal/store/ladybug_ops.go:123-191 | The documents fix the tables |
| Graph.IdNamesValue | internal/store/ladybug_ops.go:161-171 | A value id names its dimension and its key, since no key holds a bar |
| Graph.NormalizedKeysHoldNoBar | internal/store/normalize.go:72-122 | No key the normaliser makes holds a bar |
| Graph.Enumerate | internal/store/ladybug_ops.go:337-374 | Exactly the documents a scan finds, each once |
| GraphOrder.Ordered | internal/store/ladybug_ops.go:381-418 | The matching edges by key in the direction and then path, capped; with no ordinal id shared exactly the sorted, capped scan; nothing for a blank field |
| GraphOrder.NoBarsKeepApart | internal/store/ladybug_ops.go:144-147 | Without bars in field names no two ordinals share an id |
| GraphOrder.ApartIffAnsweredAsScanned | internal/store/ladybug_ops.go:381-418 | Every ordered query answers as the scan does, whatever values the documents carry, if and only if no two ordinals share an id |
| GraphOrder.SharedOrdinalLosesDocument | internal/store/ladybug_ops.go:144-147 | Two documents whose paths and fields differ by where a bar falls share an ordinal id, and the query for the first one's field finds nothing |
| Content.KeyNamesChunk | internal/store/ladybug.go:190-193 | Without a NUL in a source the hashed content names the chunk |
| Ladybug.DeltaIsFresh | internal/store/ladybug.go:198-262 | Upserting what is missing and pruning what is gone leaves what a fresh index writes, each chunk with the embedding of its own text |
| Ladybug.UpsertChunks | internal/store/ladybug_ops.go:71-104 | The batches write every staged row, a later one over an earlier one of the same hash |
| Ladybug.Store.LoadDim | internal/store/ladybug.go:105-132 | The dimension is read back from the stored column; without one an embedder cannot be served |
| Ladybug.Store.Reopen | internal/store/ladybug.go:74-103 | A restart with or without an embedder over whatever is stored opens exactly if it needs no embeddings or has their column, and loses nothing |
| Ladybug.Store.Index | internal/store/ladybug.go:198-262 | Whatever is new, an index that works and fits is committed and then holds just its own documents: it fits when all its chunks are held, the table is still to be made, or the table has a column exactly if there is an embedder. Otherwise it fails, or takes the process with it, and holds what it held |
| Ladybug.WhenCommitted | internal/store/ladybug.go:198-298 | Exactly those indexes are committed, whether or not they have anything new, so documents gone from the vault are pruned |
| Ladybug.SteadyRunHoldsLast | internal/store/ladybug.go:198-298 | When the first index has something to embed and nothing fails or changes its embedder, the store holds the documents of the last index after every run |
| Ladybug.Store.Enumerate | internal/store/ladybug_ops.go:337-374 | Agrees with the scan of the held documents, as the memory backend does |
| Ladybug.Store.Ordered | internal/store/ladybug_ops.go:381-418 | What the query gives over the held documents, which is their sorted, capped scan as in the memory backend when no two ordinals share an id |
| Ladybug.ChunksAreMemorys | internal/store/ladybug_ops.go:71-117 | Both backends hold the same chunks with the same embeddings when the same embedder made them |
| Ladybug.RunAndRebuild | internal/store/ladybug.go:198-262 | After any run of indexes, faults, crashes and restarts the held documents are those the calls give, and one index of them into a new store works and makes the same chunks, embeddings and graph |
| Ladybug.HeldIsLastCommitted | internal/store/ladybug.go:198-262 | Those are the documents of the last index that was committed, and none before the first |
| Fusion.RrfFuse | internal/retrieval/planner.go:184-223 | Whatever order the map is walked in, the first k of the fused list: only found chunks, no chunk twice, and every found chunk when nothing is cut |
| Fusion.FusedIsFound | internal/retrieval/planner.go:184-223 | Sources without a NUL: a chunk is fused exactly if some leg found it |
| Fusion.FusedOnce | internal/retrieval/planner.go:184-223 | And no chunk is fused twice |
| Fusion.FusedIsUnique | internal/retrieval/planner.go:202-216 | That list is the only arrangement of the found chunks, each once, by score and then first seen |
| Fusion.FirstsAreDistinct | internal/retrieval/planner.go:184-200 | No key is fused twice and none is left out |
| Fusion.FoundByBothIsAhead | internal/retrieval/planner.go:184-223 | With two duplicate-free legs of at most 60, what both found is ahead of what one found |
| Fusion.ChunksInBothAreAhead | internal/retrieval/planner.go:184-223 | The same of the chunks themselves, where sources hold no NUL |
| Fusion.SixtyOneIsBehind | internal/retrieval/planner.go:32 | At 61 it is not: last in both legs comes behind first in one |
| Fusion.AgreementWinsIffAtMostSixty | internal/retrieval/planner.go:184-223 | So legs of up to d chunks always put agreement first if and only if d is at most 60 |
| Fusion.Hybrid | internal/retrieval/planner.go:134-159 | Fails only when both legs fail; otherwise the legs that did not are fused |
| Native.NativeIsLawful | internal/model/native.go:23-37 | The sentinels begin with their only opening angle, end with their only closing one, and are all different |
| Native.ParseNativeToolCalls | internal/model/native.go:51-82 | The loops compute the recursive parse, which the laws below are about |
| Native.StripToolSentinels | internal/model/native.go:187-192 | Each sentinel is stripped in one pass, in order |
| NativeLaws.NoSentinelSurvives | internal/model/native.go:51-97 | If every opening angle begins a sentinel, the text returned holds none |
| NativeLaws.OnlyStraysSurvive | internal/model/native.go:51-97 | If every opening angle begins a sentinel or has a harmless character behind it, every one in the text returned has such a character behind it |
| NativeLaws.NoSentinelShown | internal/model/native.go:51-97 | So that text holds no sentinel |
| NativeLaws.NativeHarmless | internal/model/native.go:23-37 | Harmless is any character but an angle, a bar, a blank and the first letter of the word before the separator |
| NativeLaws.AllStripped | internal/model/native.go:187-192 | Stripping a text whose opening angles begin a sentinel or are stray leaves none but the stray ones |
| NativeRoundTrip.CanonicalIsRead | internal/model/native.go:51-182 | Calls in canonical print behind a trimmed sentinel-free preamble are read back in order, and the text left is the preamble |
| NativeRoundTrip.NativeCanonicalIsRead | internal/model/native.go:10-36 | The same of the sentinels and the fence the model really writes |
| NativeRoundTrip.CallsOfAt | internal/model/native.go:125-136 | The i-th call read back has the i-th name and arguments and the id of its number |
| NativeRoundTrip.CallIdsAreDistinct | internal/model/native.go:125-136 | Different numbers give different ids |
| NativeRoundTrip.CallsAreNumbered | internal/model/native.go:125-136 | Whatever the answer, its calls are numbered from zero and every one has a name |
| NativeRoundTrip.BodyIsRead | internal/model/native.go:125-182 | A printed body parses to its name and arguments through fence, tag and newlines |
| NativeRoundTrip.NestedSentinelSurvives | internal/model/native.go:187-192 | A sentinel split around itself is left whole, so the hypothesis on angles is needed |
| NativeFragments.UnterminatedIsDropped | internal/model/native.go:73-83 | Behind a separator with no end sentinel after it nothing is shown and nothing is called, whatever stands there |
| NativeFragments.UnterminatedAlike | internal/model/native.go:73-83 | So two answers differing only in such an unfinished call are parsed alike |
| NativeFragments.UnterminatedLeavesPreamble | internal/model/native.go:67-97 | Behind a trimmed sentinel-free preamble and the call's opening tokens just the preamble is shown |
| NativeFragments.EitherEnds | internal/model/native.go:99-118 | The first of either end sentinel closes a call |
| NativeFragments.AnswerIsParsed | internal/model/native.go:51-84 | Any answer whose calls are all closed: the text around them is shown, stripped and trimmed, and the bodies that are calls are called in order, whatever stands between; a malformed one is dropped and stops nothing |
| NativeFragments.CutAnswerIsParsed | internal/model/native.go:51-84 | And when the last call is not closed, it leaves nothing and takes nothing from what is before it |
| NativeFragments.OtherTextIsKept | internal/model/native.go:86-97 | Text before a call that does not end in its opening tokens is kept but for the blanks at its end |
| NativeFragments.BodyIsCallIff | internal/model/native.go:125-182 | A body of a name, a newline and arguments is a call exactly if the name, bare of spaces and backticks, is not empty and the arguments are none or decode from their first brace on; and that call has them |
| NativeFragments.NameEnds | internal/model/native.go:142-154 | The name ends at the first newline, or at a brace before it that the arguments keep |
| NativeFragments.WithoutSeparator | internal/model/native.go:52-57 | Without a separator there is no call, and the text is left as it is unless a sentinel has to be stripped |
| Telegram.HtmlRenderer.RenderEntering | internal/transport/telegram/format.go:54-206 | What each node writes on the way in, and the lists it changes |
| Telegram.HtmlRenderer.RenderLeaving | internal/transport/telegram/format.go:54-206 | What each node writes on the way out |
| Telegram.HtmlRenderer.WriteChildText | internal/transport/telegram/format.go:212-218 | The immediate text children, escaped |
| Telegram.HtmlRenderer.WriteLines | internal/transport/telegram/format.go:221-227 | The lines, escaped |
| Telegram.HtmlRenderer.Walk | internal/transport/telegram/format.go:31-36 | A walk writes the node's text behind what was there |
| Telegram.ToTelegramHtml | internal/transport/telegram/format.go:31-36 | The walk's text, trimmed; what that text is the markup laws below spell out |
| Telegram.PlainFromHtml | internal/transport/telegram/format.go:335-400 | The loop computes the reader's run over the tokens |
| TelegramHtml.UnescapeEscape | internal/transport/telegram/format.go:54-70 | Reading what was escaped gives the text back |
| TelegramTokens.HtmlTokenizes | internal/transport/telegram/format.go:335-400 | A printed stream reads as itself with adjoining texts merged and newlines for carriage returns |
| TelegramTokens.TrimPrints | internal/transport/telegram/format.go:31-36 | Trimming the string trims the texts outside all tags |
| TelegramReader.EntitiesAreApart | internal/transport/telegram/format.go:335-400 | Whatever is read, the entities are not empty, in order, disjoint and within the text in UTF-16 units |
| TelegramReader.RunBehind | internal/transport/telegram/format.go:335-400 | Text put in front moves every offset by its UTF-16 length and changes nothing else |
| TelegramLaws.WriteIsComposed | internal/transport/telegram/format.go:54-206 | The renderer writes exactly the tree's styled text, tagged and escaped |
| TelegramLaws.PiecesRead | internal/transport/telegram/format.go:335-400 | Reading the tagged text gives its meaning: the text, each link's address behind it when they differ, an entity for each code and pre content |
| TelegramLaws.MarksCoverMonos | internal/transport/telegram/format.go:367-392 | In a tree's meaning: one mark for each code and pre content that is not empty, in order, covering just it |
| TelegramLaws.RenderedIsBalanced | internal/transport/telegram/format.go:54-206 | The rendered string's tags are balanced |
| TelegramLaws.RenderThenRead | internal/transport/telegram/format.go:335-400 | Rendering and reading back gives the tree's meaning but for space at its ends, with disjoint entities moved by what was trimmed in front |
| TelegramLaws.EntitiesCoverMonos | internal/transport/telegram/format.go:367-392 | The reader's own entities are one for each code and pre content that is not empty, in order, each covering just its content in the text read |
| TelegramMarkup.ListIsNumbered | internal/transport/telegram/format.go:164-189 | A list is written as its items in order, the k-th behind the list's number (1 for 0) and k, or a bullet, whatever lists stand around it and in its items |
| TelegramMarkup.ItemBegins | internal/transport/telegram/format.go:177-189 | So the k-th item of a numbered list begins with that number, a full stop and a space |
| TelegramMarkup.ItemCounts | internal/transport/telegram/format.go:177-189 | An item counts its own list on by one and leaves the lists around it as they were |
| TelegramMarkup.StyleWritten | internal/transport/telegram/format.go:82-163 | The bold, italic and blockquote tags around emphasis, headings and quotes |
| TelegramMarkup.LinkWritten | internal/transport/telegram/format.go:96-123 | A link or image is clickable exactly if its address is of the web, and otherwise its text alone |
| TelegramMarkup.CodeWritten | internal/transport/telegram/format.go:77-227 | Code is its text children in a code element and a code block its lines in a pre element |
| TelegramMarkup.FlowWritten | internal/transport/telegram/format.go:56-198 | Text with its line breaks, bare addresses, paragraphs in and outside lists, and rules |
| TelegramMarkup.EscapeIs | internal/transport/telegram/format.go:54-70 | The five reserved characters become their entities and no other changes |
| TelegramMarkup.LinkIsRead | internal/transport/telegram/format.go:380-397 | A link reads as its text and, unless that is it already, its address in parentheses behind it |
| TelegramMarkup.MonoIsRead | internal/transport/telegram/format.go:359-388 | A code or pre element with text in it is one entity of that kind, from where the text begins and as long as it, in UTF-16 units |
| TelegramMarkup.NewlinesAre | internal/transport/telegram/format.go:350-358 | A carriage return is read as a line break, together with the line feed behind it |
| Budget.Meter.New | internal/budget/budget.go:67-88 | A meter needs a positive ceiling and period and a readable store, and starts from the saved state |
| Budget.Meter.Roll | internal/budget/budget.go:133-138 | An elapsed period starts again at now with nothing spent, saved at best effort |
| Budget.Meter.Allow | internal/budget/budget.go:93-98 | Rolls, then allows below the ceiling |
| Budget.Meter.Record | internal/budget/budget.go:106-115 | Rolls, adds the tokens (none when negative) and saves |
| Budget.Meter.Remaining | internal/budget/budget.go:119-127 | Rolls, then what is left, never negative |
| Budget.Chat | internal/runtime/metered.go:36-56 | Refused without a call at the ceiling; otherwise a reply's input and output tokens are added to what is spent, and an error's are not |
| Budget.SpendIsBounded | internal/budget/budget.go:93-115 | In every interleaving with at most k calls of at most M tokens in flight, over rolls, failed saves and restarts, no period records more than ceiling - 1 + k M, when no restart loses recorded spend that still counts |
| Budget.SavedSpendIsBounded | internal/budget/budget.go:93-115 | So it is of every run in which every save works |
| Budget.BoundIsReached | internal/budget/budget.go:93-115 | Some run records exactly that much |
| Budget.BoundedIffRestorable | internal/budget/budget.go:67-88 | The condition on restarts is exact: from a state such a run reaches the bound goes on holding while saves work if and only if a restart there would lose no recorded spend that still counts |
| Budget.UnsavedSpendIsUnbounded | internal/budget/budget.go:106-138 | When saves fail, restarts let one call at a time record any amount in one period |

## Left out

- Handler.Instance.GroupTurn: runs alone; what other turns and withdrawals may do in between is what `Withdrawal` covers.
- Withdrawal.BufferForgets: a turn whose last consent read failed leaves the buffer as it is, as the code says, so it is an excuse; admin direct messages are outside it.
- Withdrawal.WithdrawalForgets: the withdrawal it speaks of is not cut short by a restart; one that is has not succeeded.
- Withdrawal.ForgetsIffNoStalePut: a restart keeps its configuration here; starts with changing ones are what `Restarts` and `Namespaces.NewLongMemory` cover.
- NativeLaws.OnlyStraysSurvive: the condition on angles is sufficient; which texts without it still come out clean is not characterised.
- NativeRoundTrip.CanonicalIsRead: JSON is a decoder parameter that reads back the printed arguments; that a streaming decoder ignores text behind the object is not needed, as the fence is trimmed first.
- Ladybug.Store.Index: takes documents whose sources hold no NUL, as no path does; with one, two chunks could share a hashed content.
- Ladybug.Store.Reopen: an embedder configured later is the same one; a model of another vector width over an old index is not modelled.
- GraphOrder.ApartIffAnsweredAsScanned: for which values clashing ordinals happen to cancel out is not characterised.
- Enumerate.OrderedOver: a store that fails a query, which the tool passes on as an error.
- Restarts.OneWindow: for records kept from the epoch on; before it Go rounds windows up.
- Structured.WalkIsDirectSort: needs distinct document paths; with a repeated path the library's sort may order a full tie either way.
- Fusion.FoundByBothIsAhead: exact rationals; floating-point rounding of the scores is not modelled.
- TelegramLaws.RenderThenRead: texts hold no carriage return, which the tokenizer would turn into a newline.
- Telegram.PlainFromHtml: the foreign tokenizer is modelled on the subset of HTML the renderer writes.
- Budget.SpendIsBounded: at most k calls in flight and M tokens a call are assumptions about the callers; 64-bit wrap-around of the sum is not modelled.
- Budget.BoundedIffRestorable: the clock is free, as a machine's is, so it may stand still or be set back; with one that only goes forward some lost spend could no longer be spent again in its own period.
- Acl.NudgesAreApart: overlapping Checks whose clock readings and locks fall in different orders are not covered.
- HTML blocks inside Markdown, Markdown parsing itself, and which nodes a parser can make: the renderer is proved for every tree whose list items stand in lists.
- The display index and the value vocabulary (`Dimensions`), and keyword and semantic search with their scores.
- Cypher text, statement timeouts, poisoning, failing table creation, and the vector and full-text indexes beyond whether they could be built.
- Argument reading and reply formatting of the lookup tool, and its check for undeclared dimensions.
- The wiring with no consent surface or no long-term memory, reply texts, quarantine and transcript logs, metrics, and button clicks.
- Recall from long-term memory, scrubbing of secrets, session names, and the agent run inside an answer, which is a step that answers, refuses or fails.
- Command-line and configuration checks, file and fsync mechanics below a save, and the network clients.
- Durations and times beyond 64 bits, and Go's saturating subtraction of them.
