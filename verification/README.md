# A verified model of the report service's hard parts

This project models, in Dafny, the parts of the service whose correctness cannot be read off one
function, and proves what they promise. Each module follows one component.

* **Connection provider** (`ConnectionProvider*.dfy`). The PostgreSQL connection provider as a
  transition system. Threads carry program counters; every lock acquisition or release, every
  publication of a slot state and every native call is one step. A `Choice` resolves what the
  program cannot control: whether a deadline has passed, whether a native call succeeds, what an
  idle thread calls next. `ConnectionProvider` is the model, `ConnectionProviderSafety` the
  invariant and what every step keeps, `ConnectionProviderInventory` the promises over whole runs,
  `ConnectionProviderWakeup` the wake-up promise and the one thing that breaks it,
  `ConnectionProviderCalls` what a single undisturbed borrow or release does, `ConnectionProviderClose`
  what a close does, `ConnectionProviderOutcomes` how a call ends that is refused, waits, comes too
  late or meets a failing connection, and `ConnectionProviderProbe` what a probe of the charged
  connections counts while others run.
* **Intake ledger** (`IntakeIdentity`, `IntakeLedger`, `IntakeMigration`). The identity preimage,
  the in-memory ledger as a class, racing callers of the PostgreSQL ledger as a transition system
  over one table with a unique key, and the SQLite migration as a class with a durable and a
  working copy whose process may die at any statement.
* **Evidence projection** (`Json`, `JsonText`, `JsonReader`, `Pointers`, `Leaves`, `PooledEvidence`,
  `Projection`, `Chunking`, `DecimalDisplay`). JSON pointers (RFC 6901, sections 3 and 4), the
  enumerations of leaves, the complete evidence table, the accepted orders of the Methods table,
  long JSON under the cell limit, and exact decimal display. `JsonReader` is a reader of JSON text
  (RFC 8259), written without regard to how the text was made; what is dumped, chunked and
  described is stated by what it reads.
* **Retained-evidence admission** (`Lineage`, `Windows`, `Population`, `Calendar`). Correction
  lineages, window vectors and return products, and the population of a month.
* **Dispatch and polling** (`Dispatch`, `Polling`). The commits a merged pull request landed and
  their dispatch under immutable tags, and the poll loop with two authorities over time.

`Text`, `Sorting` and `Wrappers` hold numerals, Python's `sorted` on strings, and the option and
result types. `dafny verify dfyconfig.toml` checks everything.

## Where the code and its text disagree

* `_migrate_to_tenant_identity` trims a tenant with SQL's TRIM, which removes spaces only, while the
  refusal judges blankness with Python's `strip`. The model keeps both. A retained tenant is never
  blank either way; the two agree exactly under the condition of `TrimAgrees`, and `TabIsKept` is a
  tenant on which they do not.
* `_display` is written for values of any length, but Python's decimal context also bounds the
  exponent. `DisplayExactly` gives the exact limit, which concerns only numbers of more than 999,997
  whole digits; `LongNumberRefused` is a number beyond it.
* `_stated_poll_delay` lets an integer Retry-After that is zero or negative hide a positive
  `recommended_poll_after_seconds`. The model follows the code; `RecommendationHidden` says that
  nothing else does.
* The evidence rows of pooled tables do not tell the array `[x]` from the object `{"0": x}`
  (`IndexKeyConfusion`). `RowsDetermine` says exactly what they do determine.
* A charged-connections probe holds a slot lock for a moment. While it does, a legacy borrower can
  skip the slot and park, and nobody notifies it (`ProbeLosesWakeup`). `WakeupExactly` shows that
  this is the only way to lose a wake-up.
* `charged_connections` calls its sum a conservative snapshot, but it reads slot after slot while
  others run. It always bounds the connections that stay open throughout (`ProbeCharges`); with two
  slots or more, every probe bounds what is open in some state of its run exactly when the provider
  is strict (`SnapshotExactly`). `ProbeMissesOpen` is a legacy probe that does not: with two slots it
  returns 0 although a connection is always open.

## Model

| member | source | states |
|---|---|---|
| ConnectionProviderSafety.InitSafe | src/app/postgres.py:62-101 | A constructed provider, strict or legacy, of any size and minimum size, satisfies the invariant. |
| ConnectionProviderSafety.StepSafe | src/app/postgres.py:159-366 | Every step of every thread, and every connection lost by the server, keeps the invariant: one owner per slot lock, every open connection in exactly one slot, leases only on acquired slots; and generations, leases, quarantine, the seal and settled slots only move one way. |
| ConnectionProviderSafety.RunSafe | src/app/postgres.py:159-366 | The same for every run of any number of steps from any state that satisfies the invariant. |
| ConnectionProviderInventory.OpenWithinCharged | src/app/postgres.py:115-127 | In every single state of every run: open connections are at most the slots charged in it, which are at most the maximum size. |
| ConnectionProviderProbe.ProbeCharges | src/app/postgres.py:115-127 | Whatever other threads do while a probe goes from slot to slot, it returns at least the number of connections open from its start to its end, and at most the maximum size. |
| ConnectionProviderProbe.StrictSnapshot | src/app/postgres.py:115-127 | What a probe of a strict provider returns is at least what is open at its return. |
| ConnectionProviderProbe.ProbeMissesOpen | src/app/postgres.py:115-127 | For every legacy provider of two slots or more and two threads or more there is a run in which a probe returns less than is open in every state of its run; with two slots it returns 0. |
| ConnectionProviderProbe.SnapshotExactly | src/app/postgres.py:115-127 | All probes of all runs return at least what is open in some state of their run if and only if the provider is strict. |
| ConnectionProviderProbe.UndisturbedProbe | src/app/postgres.py:115-127 | A probe that nobody disturbs returns exactly the number of charged slots and changes no slot. |
| ConnectionProviderInventory.LeasesExclusive | src/app/postgres.py:183-258 | In every reachable state no slot has two leases, no thread works on a leased slot, and an unlocked slot is empty, idle, closed or quarantined. |
| ConnectionProviderInventory.NeverRevived | src/app/postgres.py:251-297 | A strict lease that does not validate never validates again, and a quarantined slot stays quarantined, in every continuation of every run. |
| ConnectionProviderInventory.NothingReservedAfterBarrier | src/app/postgres.py:319-329 | After a close has passed the Condition no slot is reserved again (no generation moves), and a closed or empty slot stays closed or empty. |
| ConnectionProviderInventory.DrainedForever | src/app/postgres.py:299-366 | Once a close with a deadline has returned normally, every slot is closed or empty, no connection is open and no lease exists, then and in every continuation. |
| ConnectionProviderWakeup.StepWake | src/app/postgres.py:159-249 | Every step of a legacy provider without probes keeps: a waiter means that nothing can be reserved or that some thread is committed to a notify_all. |
| ConnectionProviderWakeup.NoLostWakeup | src/app/postgres.py:159-249 | In every run of a strict or never-probed provider no wake-up is lost. |
| ConnectionProviderWakeup.ProbeLosesWakeup | src/app/postgres.py:115-127 | With the charged-count probe there is a run, for every size and number of threads, after which all slots are unlocked and reservable, a borrower is parked and nobody is going to notify it. |
| ConnectionProviderWakeup.WakeupExactly | src/app/postgres.py:115-194 | All runs keep the promise if and only if the provider is strict or never probed. |
| ConnectionProviderCalls.AcquireLends | src/app/postgres.py:141-228 | An undisturbed `acquire` lends the first idle slot that is not locked, under the next generation, and changes nothing else. |
| ConnectionProviderCalls.AcquireCreates | src/app/postgres.py:159-228 | When no unlocked slot is idle, it opens a connection in the first unlocked slot that is empty or closed, and lends that. |
| ConnectionProviderCalls.ReleaseGivesBack | src/app/postgres.py:230-249 | An undisturbed `release` makes the slot idle and unlocked, forgets the lease and empties the wait set. |
| ConnectionProviderCalls.ReleaseDisposes | src/app/postgres.py:230-297 | An undisturbed `release` of a lost connection, or to a closing provider, ends the lease, empties the wait set and leaves the slot unlocked: closed when the native close is proved, quarantined when it is not. |
| ConnectionProviderCalls.BorrowReleaseRoundTrip | src/app/postgres.py:141-249 | A borrow followed by its release restores the whole state but for the slot's generation and the waiters. |
| ConnectionProviderCalls.StrictAcquireLeases | src/app/postgres.py:147-157 | An undisturbed strict acquire leases the first idle slot that is not locked, and the new lease validates. |
| ConnectionProviderCalls.StrictReleaseGivesBack | src/app/postgres.py:260-286 | Releasing a clean strict lease makes its slot idle, and the lease no longer validates. |
| ConnectionProviderCalls.DisposesAs | src/app/postgres.py:288-297 | Whatever the native calls do, disposal closes the connection if it can, and leaves the slot closed if that is proved and quarantined otherwise. |
| ConnectionProviderClose.LegacyCloseCloses | src/app/postgres.py:299-340 | An undisturbed close without a deadline closes every unlocked idle slot below the first quarantined one, with its connection, touches no other slot and no other connection, and leaves nobody waiting. |
| ConnectionProviderClose.CloseDrains | src/app/postgres.py:299-366 | An undisturbed close with a deadline, and any of a strict provider, does the same; it is over and drained when no slot is in use, over and not drained at a quarantined slot, and otherwise about to go through the slots again. |
| ConnectionProviderClose.DrainPass | src/app/postgres.py:342-366 | Every further pass of the drain does that again. |
| ConnectionProviderClose.FailedCloseEnds | src/app/postgres.py:288-366 | A slot whose native close fails or is not proved is quarantined, and ends either kind of close. |
| ConnectionProviderClose.CloseLate | src/app/postgres.py:319-329 | A close that does not get to the barrier in time shuts the gate and changes nothing else. |
| ConnectionProviderClose.DrainBusy | src/app/postgres.py:309-315 | While another close drains, a closer stands still until its time is up. |
| ConnectionProviderClose.DrainLate | src/app/postgres.py:342-366 | A drain whose time is up around a pass ends and frees the drain lock. |
| ConnectionProviderClose.LookLate | src/app/postgres.py:349-357 | A drain whose time is up at an idle slot unlocks that slot as it was, and ends. |
| ConnectionProviderOutcomes.AcquireRefused | src/app/postgres.py:159-163 | A closing provider refuses an acquire, which changes nothing. |
| ConnectionProviderOutcomes.AcquireLate | src/app/postgres.py:163-166 | An acquire that does not get the Condition in time changes nothing. |
| ConnectionProviderOutcomes.RefusedInside | src/app/postgres.py:167-171 | The gate is looked at again under the Condition, and by a strict acquire the time; the refused caller leaves it. |
| ConnectionProviderOutcomes.AcquireWaits | src/app/postgres.py:159-182 | With nothing to lend or open a legacy acquire waits without a lock, or ends without a trace when its time is up. |
| ConnectionProviderOutcomes.WaitsOn | src/app/postgres.py:172-175 | A waiter stands still until it is notified or its time is up. |
| ConnectionProviderOutcomes.WaiterLends | src/app/postgres.py:159-228 | A notified waiter that finds an idle slot with an open connection is lent it, as if it had just asked. |
| ConnectionProviderOutcomes.StrictAcquirePauses | src/app/postgres.py:159-181 | A strict acquire that finds nothing idle rests without a lock, and tries again as long as it may. |
| ConnectionProviderOutcomes.AcquireDropsLost | src/app/postgres.py:196-206 | An acquire whose reserved connection was lost leaves the slot closed and starts over; a legacy one notifies the waiters. |
| ConnectionProviderOutcomes.AcquireFails | src/app/postgres.py:207-228 | A legacy acquire that cannot connect leaves its slot empty and unlocked, and notifies the waiters. |
| ConnectionProviderOutcomes.AcquireMeetsClose | src/app/postgres.py:207-228 | A reservation that meets a close is not lent: its connection is disposed of and the waiters are notified. |
| ConnectionProviderOutcomes.StrictAcquireLate | src/app/postgres.py:147-157 | A strict acquire whose time is up after its reservation makes the slot idle again. |
| ConnectionProviderOutcomes.ReleaseRefused | src/app/postgres.py:230-237 | Releasing a connection that is not lent changes nothing. |
| ConnectionProviderOutcomes.StrictReleaseRefused | src/app/postgres.py:251-261 | Nor does releasing a lease that is over, superseded or held by another thread. |
| ConnectionProviderOutcomes.StrictReleaseEnds | src/app/postgres.py:251-297 | Every other strict release ends the lease and unlocks the slot: idle if it is to be kept and open, closed if its close is proved, and quarantined if the connection cannot be examined, the time is up, or its close is not proved. |
| IntakeIdentity.FrameReadable | src/app/idea_evidence_intake/service.py:607-610 | A length-prefixed part can be read off the front of a string, whatever it holds and whatever follows. |
| IntakeIdentity.PreimageInjective | src/app/idea_evidence_intake/service.py:589-610 | Equal preimages come from equal lists of parts, of any number and content. |
| IntakeIdentity.TripleInjective | src/app/idea_evidence_intake/service.py:607-610 | Preimages of (tenant, key, fingerprint) are equal if and only if the triples are. |
| IntakeIdentity.JoinAmbiguous | src/app/idea_evidence_intake/service.py:592-603 | The plain separator it replaces maps two different triples to one string. |
| IntakeLedger.Ledger.Accept | src/app/idea_evidence_intake/service.py:202-235 | The in-memory ledger does the one-step acceptance: a new identity is stored, a known one is answered from its record, by fingerprint. |
| IntakeLedger.StepKeeps | src/app/idea_evidence_intake/postgres_ledger.py:97-204 | Every step of racing callers, with connections lost before or after a statement, keeps answers in agreement with the table and stored records unchanged. |
| IntakeLedger.RunKeeps | src/app/idea_evidence_intake/postgres_ledger.py:97-204 | Over every run a stored record never changes, and a record that appears is exactly what some caller asked for under that identity. |
| IntakeLedger.RacingCallersAgree | src/app/idea_evidence_intake/postgres_ledger.py:97-129 | However they race, answered callers of one identity with one fingerprint get the same answer; two accepted callers carry the same fingerprint; beside an accepted one, every other fingerprint conflicts. |
| IntakeLedger.AnswersStand | src/app/idea_evidence_intake/postgres_ledger.py:97-204 | An answer is the answer the table gives, then and after anything that follows. |
| IntakeLedger.LostConnection | src/app/idea_evidence_intake/postgres_ledger.py:97-204 | A lost connection fails its caller; only an insert of a new identity stands, when the connection was lost after it. |
| IntakeLedger.AnsweredInThree | src/app/idea_evidence_intake/postgres_ledger.py:97-129 | Whatever the others do, a caller that loses no connection is answered after three statements of its own, the read, the insert and the read after a lost race. |
| IntakeLedger.LogOnce | src/app/idea_evidence_intake/postgres_ledger.py:163-204 | No caller takes effect twice. |
| IntakeLedger.Linearizable | src/app/idea_evidence_intake/postgres_ledger.py:97-204 | Every run gives the table, and every answer it gives, of accepting the requests one after another in the order of completion. |
| IntakeLedger.AnsweredIsLogged | src/app/idea_evidence_intake/postgres_ledger.py:97-129 | Every caller that got an answer has its place in that order. |
| IntakeLedger.AloneIsAccept | src/app/idea_evidence_intake/postgres_ledger.py:97-129 | A caller that nobody races and no failure hits is answered by the one-step acceptance. |
| IntakeMigration.MigrationIsLossless | src/app/idea_evidence_intake/service.py:500-531 | Every retained row is carried once, in place and recoverable, under its tenant without the spaces at its two ends and with every other character; that is not blank, and old unique keys give unique new identities. |
| IntakeMigration.TrimStrips | src/app/idea_evidence_intake/service.py:513 | Trimming removes the blanks at the two ends, all of them, and nothing else. |
| IntakeMigration.StrippedOnce | src/app/idea_evidence_intake/service.py:513 | Only one text can be left by that. |
| IntakeMigration.PythonBlanks | src/app/idea_evidence_intake/service.py:424 | What Python strips are exactly the white-space code points. |
| IntakeMigration.TrimKeepsVisible | src/app/idea_evidence_intake/service.py:424 | A tenant that Python does not call blank is not blank after SQL's TRIM. |
| IntakeMigration.TrimAgrees | src/app/idea_evidence_intake/service.py:513 | SQL's TRIM and Python's strip give the same tenant if and only if what is left between its spaces neither starts nor ends with other white space. |
| IntakeMigration.TabIsKept | src/app/idea_evidence_intake/service.py:513 | On a tenant that starts with a tab they differ. |
| IntakeMigration.Database.UnattributableRows | src/app/idea_evidence_intake/service.py:395-428 | In ascending order of keys, the three lists hold exactly the keys of rows that are not JSON, the keys and JSON types of tenants that are not strings, and the keys of absent or blank tenants; all are empty if and only if every row names an owner. |
| IntakeMigration.ByKeyAscending | src/app/idea_evidence_intake/service.py:395-419 | ORDER BY over unique keys keeps the rows and sorts their keys. |
| IntakeMigration.KeysOfRows | src/app/idea_evidence_intake/service.py:427-428 | Nothing is listed of some rows if and only if each of them names an owner. |
| IntakeMigration.Database.Migrate | src/app/idea_evidence_intake/service.py:460-531 | Whatever statement it dies at, the file holds the old table or the migrated one; if it lives to look, it refuses exactly over a row nobody owns, even beside a leftover table, and then changes nothing. |
| IntakeMigration.Database.EnsureSchema | src/app/idea_evidence_intake/service.py:533-551 | One start leaves the file as it was or opened; it is ready only when opened; an unattributable row keeps it from being ready and from changing; with enough statements and no leftover table it does not die, and is ready if every row names an owner. |
| IntakeMigration.Database.Restart | src/app/idea_evidence_intake/service.py:460-551 | Any number of starts that die anywhere leave exactly the first file or exactly its migration; one that lives long enough leaves the migration, if there is no leftover table and every row names an owner. |
| IntakeMigration.OpenedIdempotent | src/app/idea_evidence_intake/service.py:476-485 | Opening an opened file changes nothing. |
| Pointers.EscapeRoundTrip | src/app/composite_reporting/table_contract.py:103-107 | Unescaping undoes escaping for every key. |
| Pointers.ParsePrint | src/app/composite_reporting/table_contract.py:103-107 | Splitting and unescaping a printed pointer gives its tokens back, whatever characters they hold. |
| Pointers.ResolveSourcePointer | src/app/composite_reporting/table_contract.py:103-118 | The loop resolves to the value at the path the pointer spells, and refuses exactly when there is none. |
| Leaves.WalkPrints | src/app/composite_reporting/historical_tables.py:34-50 | The listed pointers are the printed paths of the leaves, in order. |
| Leaves.ListedIffThere | src/app/composite_reporting/historical_tables.py:34-50 | A leaf is listed if and only if the value has it at that path. |
| Leaves.ListedOnce | src/app/composite_reporting/historical_tables.py:34-50 | No path is listed twice. |
| Leaves.PointersDistinct | src/app/composite_reporting/historical_tables.py:34-50 | No pointer is listed twice. |
| Leaves.PointersExact | src/app/composite_reporting/historical_tables.py:53-77 | A pointer is listed if and only if it leads to a leaf of the value, and it resolves to that leaf in the whole dataset. |
| Leaves.OrderIrrelevant | src/app/composite_reporting/historical_tables.py:34-35 | The listing does not depend on the order of object members at any depth. |
| Leaves.NoLeafBelowAnother | src/app/composite_reporting/pooled_tables.py:119-129 | No leaf's path is a prefix of another's. |
| Sorting.BelowMeans | src/app/composite_reporting/pooled_tables.py:120-121 | The order of keys: two strings agree up to some place, where the lesser ends or has the smaller code point. |
| JsonText.QuoteInjective | src/app/composite_reporting/pooled_tables.py:82-93 | Different strings have different JSON text, with and without ASCII escapes. |
| JsonText.LeafTextInjective | src/app/composite_reporting/pooled_tables.py:82-93 | Different scalars and empty containers have different canonical JSON. |
| JsonReader.QuoteBack | src/app/composite_reporting/pooled_tables.py:82-93 | Every quoted string, with or without ASCII escapes, is read back as itself from whatever follows it. |
| JsonReader.DumpsBack | src/app/composite_reporting/pooled_tables.py:82-93 | Every document, in every style that is used, is read back to its end as itself with its members in the order of their keys. |
| JsonReader.AlikeOrdered | src/app/composite_reporting/eligibility_tables.py:625 | Two values are equal up to the order of members, at every depth, if and only if they are the same once ordered. |
| JsonReader.OrderedText | src/app/composite_reporting/eligibility_tables.py:625 | Ordering the members changes nothing of the canonical text. |
| JsonReader.DumpsDecide | src/app/composite_reporting/eligibility_tables.py:625 | Canonical texts are equal if and only if the values are equal up to the order of members. |
| PooledEvidence.RowsAreLeaves | src/app/composite_reporting/pooled_tables.py:351-376 | The evidence rows are the leaves, one row each, in order. |
| PooledEvidence.RowsRead | src/app/composite_reporting/pooled_tables.py:82-99 | The pointer of a row spells the path of a leaf and resolves to it in the dataset, and its text reads back as the leaf; only a null has none. |
| PooledEvidence.LeavesDetermine | src/app/composite_reporting/pooled_tables.py:119-129 | Values with the same leaves are alike, up to member order and to reading an array as an object keyed by indices. |
| PooledEvidence.RowsDetermine | src/app/composite_reporting/pooled_tables.py:351-376 | Two values have the same rows if and only if they are alike in that sense. |
| PooledEvidence.EvidenceLossless | src/app/composite_reporting/pooled_tables.py:351-376 | When no object key is a canonical array index, values have the same rows if and only if they are equal up to member order, empty containers included. |
| PooledEvidence.IndexKeyConfusion | src/app/composite_reporting/pooled_tables.py:119-129 | The array of one value and the object with the key "0" have the same rows and are not equal. |
| Projection.BindingPointerInjective | src/app/composite_reporting/table_builder.py:271-277 | A method pointer determines its window and its key, whatever characters the key holds. |
| Projection.MethodPointersDistinct | src/app/composite_reporting/table_builder.py:271-277 | The rebuilt Methods pointers are distinct. |
| Projection.MethodPointersOrdered | src/app/composite_reporting/table_builder.py:271-277 | The rebuilt pointers lead to the two method facts of the selection and then to every method binding of every window, by window and by key in ascending order. |
| Projection.BindingPointerLeads | src/app/composite_reporting/table_builder.py:275-276 | A binding pointer spells its window and its key, whatever characters the key holds. |
| Projection.FieldPointerLeads | src/app/composite_reporting/projection.py:46-50 | The pointer of a row spells the Methods list and the ordinal of the row. |
| Projection.FieldPointerResolves | src/app/composite_reporting/table_builder.py:301-313 | In every dataset that holds a Methods list it resolves to that list's entry of this ordinal. |
| Projection.RebuiltIsBuilt | src/app/composite_reporting/table_builder.py:301-313 | The dataset that is rebuilt from the windows, its Methods table among the others, meets everything the normalizer relies on. |
| Projection.ReorderRows | src/app/composite_reporting/projection.py:37-50 | The loop yields the rows in the required order, bound to their new places, exactly when every row is bound to its old one. |
| Projection.NormalizeMethodOrder | src/app/composite_reporting/projection.py:20-55 | The normalizer yields the specified dataset or refuses. |
| Projection.RequireCompleteProjection | src/app/composite_reporting/projection.py:10-17 | It accepts exactly when the normalized dataset is the expected one. |
| Projection.AcceptedArranged | src/app/composite_reporting/projection.py:10-55 | Whatever is accepted is the expected projection after one permutation of the Methods pointers, applied to the list, the rows, their ids and their field pointers. |
| Projection.ArrangedAccepted | src/app/composite_reporting/projection.py:10-55 | Every such permutation is accepted. |
| Projection.AcceptedIffArranged | src/app/composite_reporting/projection.py:10-55 | Acceptance is exactly the existence of such a permutation. |
| Projection.ArrangedUnique | src/app/composite_reporting/projection.py:10-55 | The permutation determines the accepted dataset. |
| Projection.RebuiltAcceptedIff | src/app/composite_reporting/projection.py:10-55 | Against the projection rebuilt from any windows, acceptance is exactly the existence of such a permutation. |
| Projection.InsertionOrderAccepted | src/app/composite_reporting/projection.py:27-29 | The older projection of the same windows, its method keys in any insertion order, is accepted. |
| Chunking.CountIsCeiling | src/app/composite_reporting/eligibility_tables.py:465-478 | The stated count is the least that covers the text; no chunk is empty and only the last is short. |
| Chunking.ChunksRejoin | src/app/composite_reporting/eligibility_tables.py:474-480 | Any number of chunks re-joins to the front of the text. |
| Chunking.QuoteRoundTrip | src/app/composite_reporting/eligibility_tables.py:474-480 | A quoted chunk reads back as itself, whatever it holds, and is printable; a printable one is at most doubled. |
| Chunking.IdentityFragments | src/app/composite_reporting/eligibility_tables.py:457-481 | The loop emits the fragments of every field in order. |
| Chunking.FragmentsRead | src/app/composite_reporting/eligibility_tables.py:457-481 | What a field becomes reads back: up to the limit one fragment with the value itself, beyond it a descriptor with the number of chunks, the length and the digest, and the chunks in order under their numbered keys, which re-join to the text. |
| Chunking.DescriptorReads | src/app/composite_reporting/eligibility_tables.py:467-473 | The descriptor reads back as its four facts in the order of their keys. |
| Chunking.PaddedReads | src/app/composite_reporting/eligibility_tables.py:476 | A chunk key ends in the number of the chunk, in six digits below a million and in as many as it takes above. |
| Chunking.ChunksFit | src/app/composite_reporting/eligibility_tables.py:457-481 | The chunks of a document re-join to it, and each quoted chunk is at most 32,002 characters and passes the literal check. |
| Chunking.DoublingReached | src/app/composite_reporting/eligibility_tables.py:474-480 | A chunk of quotation marks reaches that bound. |
| Chunking.FragmentsFit | src/app/composite_reporting/eligibility_tables.py:457-481 | With a SHA-256 in hex, all values of a field's fragments pass the literal check if and only if its descriptor is short enough, a condition on the digits of two numbers. |
| Chunking.LiteralCodes | src/app/composite_reporting/eligibility_tables.py:640-660 | The literal check by code points: at most 32,767 UTF-16 units and no control character but tab, line feed and carriage return. |
| Chunking.UnitsAdd | src/app/composite_reporting/eligibility_tables.py:640-660 | UTF-16 units are additive, and a character counts one per escape it takes. |
| Chunking.DocumentsFit | src/app/composite_reporting/eligibility_tables.py:457-481 | They all pass for every document of fewer than ten to the 16,000 characters. |
| Chunking.DatasetRejoins | src/app/composite_reporting/eligibility_tables.py:622-634 | The chunk rows of the dataset re-join to its canonical JSON, each within the cell limit. |
| JsonText.DumpsPrintable | src/app/composite_reporting/eligibility_tables.py:460 | A document dumped with ASCII escapes is printable ASCII, whatever its strings hold. |
| DecimalDisplay.DisplayExactly | src/app/composite_reporting/eligibility_tables.py:438-450 | For plain decimal text of any length and up to 12 places the multiplication is exact and no digit limit is met; the value rounded half up is shown if and only if it is below ten to the largest exponent plus one, and which operation refuses it otherwise. |
| DecimalDisplay.LongNumberRefused | src/app/composite_reporting/eligibility_tables.py:438-450 | A plain decimal of two digits more than the largest exponent is refused. |
| DecimalDisplay.ShownIsNearest | src/app/composite_reporting/eligibility_tables.py:450 | What is shown is within half a unit of the last place, and a tie goes away from zero. |
| DecimalDisplay.ReadsPlain | src/app/composite_reporting/eligibility_tables.py:447 | What is read of plain decimal text: its sign, and its digits at their places. |
| DecimalDisplay.TextScanned | src/app/composite_reporting/eligibility_tables.py:447 | The text of a plain decimal is read back as its sign, its whole digits and its fraction. |
| DecimalDisplay.SignShown | src/app/composite_reporting/eligibility_tables.py:450 | A number is shown with the sign of its text and exactly the places asked for. |
| DecimalDisplay.ShortNumbersShown | src/app/composite_reporting/eligibility_tables.py:438-450 | Every number with at most two whole digits fewer than the largest exponent is shown. |
| Lineage.RequireAmendmentMonth | src/app/composite_reporting/amendment_admission.py:204-264 | The two passes over the receipts and the checks of what was published accept exactly the relation below. |
| Lineage.RequireAmendmentMonths | src/app/composite_reporting/amendment_admission.py:200-265 | All months are accepted exactly when each is. |
| Lineage.RequireHistoricalMonth | src/app/composite_reporting/historical_admission.py:106-164 | A root is accepted exactly without a lineage and without a parent publication, a correction exactly with an accepted lineage, and a published one with its retained receipt and parent publication as well. |
| Lineage.ReceiptMeans | src/app/composite_reporting/amendment_admission.py:42-76 | A retained receipt is accepted if and only if its versions agree and, for a correction, it carries the claim of its proposal and a later sequence; a historical one is also not approved before it was proposed. |
| Lineage.LinkMeans | src/app/composite_reporting/amendment_admission.py:126-197 | In an accepted lineage every correction differs from its predecessor in source cut, source revision or portfolios, claims the month from its first to its last day, gives a reason and unambiguous evidence, and binds its predecessor and the root. |
| Lineage.CorrectionAccepted | src/app/composite_reporting/amendment_admission.py:126-232 | The correction built from what has been published is accepted if and only if something observed has changed, its revision is new, it does not precede the approval it corrects and its evidence is unambiguous. |
| Lineage.ChainGrows | src/app/composite_reporting/amendment_admission.py:204-264 | What has been published stays correctable: a root is such a chain, and an accepted and published correction extends it. |
| Lineage.PublishedAccepted | src/app/composite_reporting/amendment_admission.py:234-264 | A published correction is accepted if and only if its lineage is, its receipt is in order, one definition runs through, and the publication it names is that of its predecessor. |
| Lineage.SimplePath | src/app/composite_reporting/amendment_admission.py:207-232 | An accepted lineage repeats no revision and reaches a root only at its end. |
| Lineage.SequencesDecrease | src/app/composite_reporting/amendment_admission.py:117-264 | Publication sequences strictly decrease along the whole published chain, the month's own publication first, in both families. |
| Lineage.OneDefinition | src/app/composite_reporting/amendment_admission.py:239-244 | Every receipt of a published chain states the same definition. |
| Lineage.SharedIdentity | src/app/composite_reporting/amendment_admission.py:126-197 | All its proposals share month, policy approval and expected population, and name the same root. |
| Lineage.TimesMonotone | src/app/composite_reporting/historical_admission.py:37-41 | In a historical chain proposal and approval times are monotone. |
| Lineage.LineageUnique | src/app/composite_reporting/amendment_admission.py:24-39 | As far as digests do not collide, a proposal has only one lineage, whatever is pinned. |
| Calendar.NextIsNext | src/app/composite_reporting/models.py:118-120 | No day lies between a day and the next, across months, years and leap days. |
| Calendar.NextDayAddsOne | src/app/composite_reporting/models.py:118-120 | The next day is the one numbered next, counting days from the cumulative days of the months and the Gregorian leap days. |
| Calendar.MonthEnds | src/app/composite_reporting/models.py:264-272 | The last day of a month is the one before the first of the next. |
| Calendar.YearLength | src/app/composite_reporting/models.py:264-272 | The first days of consecutive years are 365 or, in leap years, 366 apart. |
| Calendar.NumbersInOrder | src/app/composite_reporting/models.py:80-82 | Dates compare as their day numbers do. |
| Calendar.DayNumbered | src/app/composite_reporting/models.py:118-120 | Every number from the first to the last ordinal is that of a date. |
| Windows.AcceptedTiles | src/app/composite_reporting/models.py:80-121 | Every day of the horizon is in exactly one window of an accepted vector, no other day is in any, and the windows are in order. |
| Windows.TilesAccepted | src/app/composite_reporting/models.py:109-121 | Chronological nonempty windows with their own identities that tile the horizon are accepted. |
| Windows.VectorExactly | src/app/composite_reporting/models.py:80-121 | A vector is accepted if and only if it is one of 1 to 120 nonempty windows in order that tile its horizon, with as many identities. |
| Windows.CalendarIsTheYear | src/app/composite_reporting/models.py:232-240 | A calendar product is accepted if and only if its twelve windows are the months of its year in order, from the first day to the one before the next month, under twelve identities. |
| Windows.TrailingIsMonths | src/app/composite_reporting/models.py:251-272 | A trailing product is accepted if and only if its vector is one of as many whole months as it says. |
| Windows.InsideIsBlock | src/app/composite_reporting/models.py:292-299 | The primary windows inside a horizon are consecutive. |
| Windows.ProductIsBlock | src/app/composite_reporting/models.py:275-299 | Every accepted product is a run of consecutive primary windows. |
| Windows.TrailingIsTheEnd | src/app/composite_reporting/models.py:251-305 | An accepted trailing product is exactly the last `months` primary windows. |
| Windows.ScopeShared | src/app/composite_reporting/models.py:275-305 | Accepted products share tenant, composite, currency, view, methodology and engine with the primary, and have their own keys. |
| Windows.RunsAccepted | src/app/composite_reporting/models.py:275-305 | And any runs of the primary's windows under such scopes and keys are accepted. |
| Population.RequirePopulation | src/app/composite_reporting/eligibility_admission.py:83-116 | It accepts exactly the consistent populations, and a refusal names the first check that fails. |
| Population.AscendingIsSortedSet | src/app/composite_reporting/eligibility_admission.py:98-103 | A list equals the sorted list of its set if and only if it strictly ascends. |
| Population.AcceptedCounts | src/app/composite_reporting/eligibility_admission.py:104-116 | Every count is that of the distinct portfolios it is called after, the three statuses account for every expected portfolio, and each is assessed by the three rules in order. |
| Population.RequireHistoryIntervals | src/app/composite_reporting/eligibility_admission.py:387-401 | The loop accepts exactly the histories of nonempty intervals that do not overlap within a portfolio. |
| Population.NoDayTwice | src/app/composite_reporting/eligibility_admission.py:387-401 | That is, exactly those in which no decision ends before it starts and no two decisions for a portfolio hold on one day; an open one holds for ever. |
| Population.InMonthHolds | src/app/composite_reporting/eligibility_admission.py:455-466 | A decision is selected for a month if and only if it holds on some day of it. |
| Population.PublishedDecidesOnce | src/app/composite_reporting/eligibility_admission.py:449-474 | In an accepted month every expected portfolio has exactly one decision that overlaps the month, with its evaluated status. |
| Population.PublishedOnlyExpected | src/app/composite_reporting/eligibility_admission.py:449-474 | No other portfolio has a decision in the month. |
| Population.PublishedUniverse | src/app/composite_reporting/eligibility_admission.py:471-474 | The published universe is the expected population and its count. |
| Population.PublishedComplete | src/app/composite_reporting/eligibility_admission.py:449-474 | Nothing else is asked of a published population. |
| Dispatch.EnumerateMergedRevisions | scripts/enumerate_merged_revisions.py:65-125 | It accepts exactly when every check passes, returns the interval as it was printed, and notes how many commits are fewer than stated; a refusal names the first check that fails, at the first revision that fails one. |
| Dispatch.AcceptedLanded | scripts/enumerate_merged_revisions.py:98-125 | With truthful ancestry answers, an accepted list is a single-parent chain from base to merge, on main and outside the base's history. |
| Dispatch.LandedIsInterval | scripts/enumerate_merged_revisions.py:79-125 | It holds exactly the commits reachable from the merge commit and not from the base, whatever rev-list printed. |
| Dispatch.LandedDistinct | scripts/enumerate_merged_revisions.py:98-125 | No revision is in it twice. |
| Dispatch.LandedUnique | scripts/enumerate_merged_revisions.py:98-125 | Only one list can be accepted: the order is forced. |
| Dispatch.GitHub.EnsureDispatchRef | scripts/dispatch_merged_revisions.py:108-134 | However its calls end, a tag is never moved, a new one names its revision, and it succeeds only under a tag that does. |
| Dispatch.GitHub.DispatchGate | scripts/dispatch_merged_revisions.py:137-159 | However its call ends, at most one dispatch is added, of what the tag names. |
| Dispatch.GitHub.DispatchAll | scripts/dispatch_merged_revisions.py:191-194 | For all outcomes of gh a prefix of the revisions is dispatched, oldest first, each under a tag naming it; when all calls succeed and no tag conflicts, all of them. |
| Dispatch.GitHub.DispatchMergedRevisions | scripts/dispatch_merged_revisions.py:162-194 | The same after an accepted enumeration under unchanged merge settings, and no effect at all without one. |
| Polling.StatedPollDelay | src/app/clients/performance_client.py:315-340 | The stated wait: an integer header, else an integer recommendation, when positive. |
| Polling.RecommendationHidden | src/app/clients/performance_client.py:328-340 | A positive recommendation states nothing if and only if the header is an integer that is zero or negative. |
| Polling.PollAnalyticsResult | src/app/clients/performance_client.py:258-313 | For every sequence of replies and latencies: no sleep ends after the deadline, at most max_retries + 8 polls, each after exactly its wait, the last answer seen or the fallback; it stops at the first terminal answer, at the bound, or when the next wait cannot be afforded. |
| Polling.StatedWaitElapses | src/app/clients/performance_client.py:295-303 | In every run of the loop exactly the stated wait passes between a reply and the next poll, never shortened, and it ends within the budget. |
| Polling.LinearWaitElapses | src/app/clients/performance_client.py:295-303 | Without a stated wait the k-th poll comes k times the backoff after the last reply. |
| Polling.EndsForAReason | src/app/clients/performance_client.py:296-313 | The loop ends exactly at an error status or a complete result, at the last attempt, or when the next wait would end after the deadline. |
| Polling.LoopDetermined | src/app/clients/performance_client.py:296-313 | That fixes the whole trace: two traces that obey it for the same answers are the same. |

## Left out

- Liveness under contention: the provider's threads may be scheduled in any order, for ever; only undisturbed calls are shown to finish (`ConnectionProviderCalls`, `ConnectionProviderClose`, `ConnectionProviderOutcomes`).
- Time in the provider: a deadline either has passed or has not at each check, as the step's choice says; clock values and the length of sleeps are not modelled.
- Failures while the first connections are opened, and cancellation from outside while a lock is held.
- Poisoned strict leases: the caller's `reusable` flag stands for both it and the lease's own mark.
- SHA-256, so the collision-freedom of identities beyond their preimages; digests are compared as opaque values.
- AcceptSpec: the response is what was built for the stored request; its fields, the caller context and the time stamps are not modelled.
- SQLite itself: another process writing between the refusal's reads and BEGIN IMMEDIATE, the indexes, and the wording of the refusal's message.
- Migrate: a leftover table of an earlier version makes the rename fail on every start, as in the code; the model reports this like any other failing statement.
- Floats and non-finite numbers: a JSON number is its text. Strings hold no lone surrogates.
- `provenance_paths` and the rows of the historical tables around `scalar_pointers`; table columns, cell lineage and units in `table_contract.py`.
- Projection of tables other than Methods: they are compared as a whole. What the value cells hold is a function of the pointer.
- The chunk keys of `_identity_fragments` beyond their text, and the totals of `preflight_eligibility_package`.
- DisplayNumber: exponent forms, white space and underscores in decimal text, and the suffixes of units and currencies.
- ReceiptOk: the checks that concern one document alone (schema, hashes, scope, its own bindings) are one flag, `intact`.
- HeadAccepted: the agreement of published decisions with the evaluation is one flag, `decided`.
- TimesMonotone: amendments of v1 months compare only a proposal with the approval before it, so the claim is about historical chains.
- The joins of a published month beyond its population, its parent publication and its lineage (cut and binding equalities settled one by one).
- VectorAccepted: blank method bindings and the field patterns of pins.
- GitHub.DispatchMergedRevisions: which call of gh failed, or that a tag conflicts, is one reason, `dispatch_failed`.
- Squash and merge commits: the enumeration refuses them, and the merge settings are read once.
- PollAnalyticsResult: a request that raises ends the loop with that error; an int() of a header is taken as parsed or not.
- Routers, settings, logging and metrics.
