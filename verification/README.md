# Evobase semantic kernel: a verified model

Evobase lets an author describe an application (tables, constraints, price captures, owner and role
policies, state machines, typed commands) and runs it on a small deterministic kernel. This project
models that kernel and the transactional engine around it, and proves what they promise:

* **Definitions and facts.** `Compile` arranges and checks a definition; `Records` and `Validation`
  judge a whole graph of records at once; `Facts` is the ordered map that edits work on.
* **Relation store.** `Relations` is the all-or-nothing batch edit with insertion-time price captures
  and restrict-delete; `RelationRuns` follows whole runs of batches; `Drafts` turns an edited grid
  into one batch.
* **Formulas.** `Formulas` is the expression language with its checker and evaluator, `FormulaEngine`
  runs both against a budget that is updated in place, `FormulaProofs` and `FormulaCosts` say what
  every accepted formula can answer, and `Rollups` is the conservation law of reverse references.
* **Command engine.** `Authority`, `Commands` and `CommandProofs` decide one transition; `Availability`
  offers the open ones. `Database` is the transaction over tables, `Store` the object that performs
  it step by step with rollback. `Journal`, `JournalRuns`, `StoreRuns` and `Histories` tie every
  reachable database to the log of its commits, and `Scenario` follows one small application through
  bootstrap and its first commit.
* **Client recovery protocol.** `HostApi` is the HTTP boundary, `Client` the runtime that retains one
  attempt and `Params` its form, `Protocol` the composition of client, lossy network, host and
  everyone else, `ProtocolProofs` its guarantees, and `Recovery` the proof that recovery settles what
  committed, with a run for each way an attempt can end.
* **Text forms.** `Cells` and `Decimals` are the grid's printer and parser, `Wire` the wire form of
  values and revisions, `Preflight` the two byte scanners.
* **Message hub.** `Hub` and `HubRuns` are offline queueing, replay and expiry.
* **Plain terms.** `PlainDefinitions`, `PlainFacts`, `PlainBatches`, `PlainFormulas`, `PlainCommands`,
  `PlainClient`, `PlainCells` and `PlainHub` say again, by membership and entry by entry and with none
  of the helpers above, what a definition, a graph of facts, a batch, a formula, a submission, a form,
  a cell text and a step of the hub must be, and prove that the operations accept exactly that and
  leave exactly that. They are the independent reference for every predicate that the code decides by.

Code that computes is written as functions. Code that changes state is written as methods on classes
(`RelationStore`, `Budget`, `Visiting`, `Store`, `Runtime`, `InMemoryHub`) or as loops, each proved
equal to a function of the old state; the properties are then proved of those functions and of runs
of them. A run is a sequence of steps of any length from the initial state.

What is an input rather than modelled: what the host reads about a session (three readings for each
operation), whether a storage statement fails and where, whether the acknowledgement of a commit
arrives, which messages the network loses, delays or garbles, and which fields an output policy
allows. Identities are numbers, because only equality and order of identities matter; the content
address of a definition is the injective constructor `Digest`. Byte and node limits are an additive
measure of the encoded value.

Three promises do not hold as they are usually told, and the model keeps the code:

* A batch with valid final facts can be rejected. The temporary zero that stands in for a captured
  price is validated too, so a constraint on a captured field that excludes zero turns away every
  insertion into that line table. `Relations.RelationStore.ApplyBatch` states the exact condition
  (`Sound` and `ZeroAdmitted`), and `RelationRuns.SoundBatchRejected` gives the input. Where every
  constraint on a captured field admits zero, soundness alone decides (`RelationRuns.SoundIsEnough`).
* Moving a child between parents can change the grand total of a roll-up, when the summand itself
  looks through the moved reference. `RetargetExample.RetargetNotConserved` gives an accepted
  application and batch that do so; `Retargeting.RetargetExactly` says exactly when a move conserves
  the total, by values a caller can compare before it.
* A message sent while a queue is being replayed overtakes it: `HubRuns.SendOvertakesReplay`.
  `HubRuns.OrderKeptExactly` says that nothing else ever disturbs the order of arrival.

## Model

| member | source | states |
|---|---|---|
| Compile.CompileDefinition | crates/evobase-appspec/src/model.rs:92-301 | the compiler, sorting and checking list by list, accepts exactly the definitions whose canonical arrangement is checked, and returns that arrangement |
| Compile.ClaimTables | crates/evobase-appspec/src/model.rs:136-169 | tables and fields are claimed once each, fields across the whole definition, within the limits |
| Compile.CheckReferences | crates/evobase-appspec/src/model.rs:170-178 | every reference field names a known table |
| Compile.CheckCaptures | crates/evobase-appspec/src/model.rs:204-253 | captures are distinct, follow a reference, copy money to money, and never read a captured field |
| Compile.CheckPolicies | crates/evobase-appspec/src/model.rs:262-280 | one valid owner and role policy for each table |
| Compile.CheckMachines | crates/evobase-appspec/src/commands.rs:181-215 | one valid state machine for each table |
| Compile.CheckCommands | crates/evobase-appspec/src/commands.rs:216-294 | commands are distinct and bound to a machine and a policy of one table, and write declared inputs only |
| Compile.CheckConstraints | crates/evobase-appspec/src/constraints.rs:64-95 | constraints are distinct, on known fields of a type they support |
| Compile.CompileIdempotent | crates/evobase-appspec/src/model.rs:136-201 | compiling a compiled definition returns it unchanged |
| Compile.CompileBlind | crates/evobase-appspec/src/model.rs:136-201 | the order of any list, at the top or inside a table or command, decides neither acceptance nor result |
| PlainDefinitions.CompilesExactly | crates/evobase-appspec/src/model.rs:92-301 | a definition compiles if and only if, read as it was written and in any order, it keeps the rules on tables, constraints, captures, policies, machines and commands, each said by membership |
| PlainDefinitions.CompiledDeclares | crates/evobase-appspec/src/model.rs:136-201 | what is compiled declares exactly what was written, with every list in ascending order of identity |
| PlainDefinitions.TablesExactly | crates/evobase-appspec/src/model.rs:136-178 | the tables check if and only if tables and fields are listed once, no two tables share a field, references meet known tables, and the limits hold |
| PlainDefinitions.CommandExactly | crates/evobase-appspec/src/commands.rs:216-294 | a command checks if and only if some machine and policy of one table are bound to it and its transition, inputs, guards and events keep their rules |
| Validation.ValidateRecords | crates/evobase-appspec/src/value.rs:124-287 | the two-pass validator returns the canonical facts exactly when the whole graph is valid and fits |
| Validation.ValidateRow | crates/evobase-appspec/src/value.rs:173-280 | one row is accepted exactly when every field is known, typed, resolved and allowed, and is then total on its fields |
| Records.CanonicalChecked | crates/evobase-appspec/src/value.rs:124-287 | published facts are strictly ordered, total on fields, closed under references and valid again |
| Records.ValidateIdempotent | crates/evobase-appspec/src/value.rs:124-287 | validating validated facts returns them unchanged |
| Records.ValidateBlind | crates/evobase-appspec/src/value.rs:142-143 | the order of the rows decides neither acceptance nor the published facts |
| Records.CheckedField | crates/evobase-appspec/src/value.rs:184-249 | every declared field of a checked row holds a value of its type, and its references resolve in the right table |
| PlainFacts.ValidateExactly | crates/evobase-appspec/src/value.rs:124-287 | facts are published if and only if every declared field of every row holds what it must: something if required, of the declared type, a resolving reference, within each constraint and in a declared state |
| PlainFacts.PublishedRows | crates/evobase-appspec/src/value.rs:261-284 | published rows ascend by table and record and are the given rows, each with its missing fields blank |
| PlainFacts.RequiredHeld | crates/evobase-appspec/src/value.rs:184-192 | in checked facts a required field is neither left out, nor blank, nor null |
| PlainFacts.MissingRequiredRejected | crates/evobase-appspec/src/value.rs:184-192 | facts with one row that leaves a required field out, blank or null are never published |
| Relations.RelationStore.ApplyBatch | crates/evobase-appspec/src/relations.rs:191-379 | a batch is accepted exactly when it is bounded, its edits read well, its sources resolve, its final graph is valid and zero is admitted where captures were filled; otherwise nothing changes |
| Relations.RelationStore.Restore | crates/evobase-appspec/src/relations.rs:168-183 | a store opens on exactly the canonical form of valid facts |
| Relations.EditCandidate | crates/evobase-appspec/src/relations.rs:218-302 | the edit loop succeeds exactly when identities are distinct, inserted rows are new and leave captures alone, replaced rows exist and keep them, deleted rows exist |
| Relations.EditedReflects | crates/evobase-appspec/src/relations.rs:224-302 | after the edits every written row is as the batch says, every deleted row is gone, and nothing else moved |
| Relations.Restricted | crates/evobase-appspec/src/relations.rs:315-331 | restrict-delete finds exactly the surviving references to a deleted row |
| Relations.CaptureCandidate | crates/evobase-appspec/src/relations.rs:335-374 | filling captures one line after the other equals filling all of them from the finished edits |
| Relations.CaptureRow | crates/evobase-appspec/src/relations.rs:336-372 | a line is filled exactly when the source of each of its captures is money on a row of the referenced table |
| Relations.CheckIncoming | crates/evobase-appspec/src/relations.rs:192-217 | incoming rows are bounded in size and text before anything is copied |
| Relations.FillPlaceholders | crates/evobase-appspec/src/relations.rs:303-314 | inserted lines carry a temporary zero in their capture destinations |
| Relations.AcceptedPasses | crates/evobase-appspec/src/relations.rs:191-334 | the size, text, restrict-delete and placeholder checks reject no batch that meets the acceptance condition |
| Relations.PassesAccepted | crates/evobase-appspec/src/relations.rs:303-379 | a batch that passes every check meets the acceptance condition |
| Relations.NothingDangles | crates/evobase-appspec/src/relations.rs:315-331 | restrict-delete never rejects a batch that the graph check would accept |
| Relations.PlaceholderSize | crates/evobase-appspec/src/relations.rs:303-334 | the temporary zero never makes the candidate larger than the final facts |
| Relations.ZeroFromGraph | crates/evobase-appspec/src/relations.rs:303-334 | when the placeholder graph is valid, every constraint on a filled destination admits zero |
| Relations.PriceStable | crates/evobase-appspec/src/relations.rs:335-374 | filling captures never changes a price another capture reads |
| Relations.OrderIrrelevant | crates/evobase-appspec/src/relations.rs:224-374 | any permutation of a batch is accepted or rejected alike and leaves the same facts |
| PlainBatches.EditsExactly | crates/evobase-appspec/src/relations.rs:224-302 | the changes of a batch read well if and only if each identity is addressed once, inserts are new and bring no captured price, replacements exist and keep price and product, deletions exist |
| PlainBatches.BatchExactly | crates/evobase-appspec/src/relations.rs:191-379 | a batch is accepted if and only if it is bounded, reads well, admits zero where it captures, and has an outcome that can be published; what it publishes is that outcome |
| PlainBatches.FinalIsOutcome | crates/evobase-appspec/src/relations.rs:335-374 | the rows the store derives are an outcome: written rows as given, untouched rows as they were, and each inserted line pays what its product costs in the outcome itself |
| PlainBatches.OutcomeIsFinal | crates/evobase-appspec/src/relations.rs:335-374 | there is no other outcome: whatever relates to the batch in that way is what the store derives |
| PlainBatches.DeleteExactly | crates/evobase-appspec/src/relations.rs:292-331 | one row is deleted if and only if it is there and no other row refers to it, and the rest stays as it is |
| RelationRuns.InsertedBuys | crates/evobase-appspec/src/relations.rs:335-374 | an inserted line holds the price its product has when the batch is over, also when both arrive in that batch |
| RelationRuns.SurvivorKeeps | crates/evobase-appspec/src/relations.rs:262-291 | a line that outlives a batch keeps its captured price and its product |
| RelationRuns.CaptureProvenance | crates/evobase-appspec/src/relations.rs:243-377 | in every run each live line holds the price its product had at the end of the batch that last inserted the line, and neither has changed since |
| RelationRuns.FactsChecked | crates/evobase-appspec/src/relations.rs:191-379 | every batch of a run starts from checked facts |
| RelationRuns.SoundIsEnough | crates/evobase-appspec/src/relations.rs:303-334 | where every constraint on a captured field admits zero, a sound batch is accepted |
| RelationRuns.SoundBatchRejected | crates/evobase-appspec/src/value.rs:250-259 | a checked definition and a sound batch that is rejected because zero breaks the constraint on the captured price |
| Drafts.ApplyDraftChanges | apps/evobase-builder/src/lib.rs:237-274 | an accepted draft is exactly the canonical form of the edited rows with captures filled, from current prices, on new rows only |
| Drafts.Diff | apps/evobase-builder/src/lib.rs:247-271 | the difference exists exactly when the edited rows have distinct identities |
| Drafts.DraftRow | apps/evobase-builder/src/lib.rs:252-271 | applying the difference leaves each row as edited, unchanged rows in canonical form, and removed rows gone |
| Drafts.DraftMeaning | apps/evobase-builder/src/lib.rs:237-274 | the batch built from the difference publishes what the edited rows mean |
| Drafts.DraftTwice | apps/evobase-builder/src/lib.rs:237-274 | applying a draft to its own result is accepted and changes nothing |
| FormulaEngine.Compile | crates/evobase-appspec/src/relations.rs:653-709 | a formula set is accepted exactly when limits, names and tables are valid, keys are distinct and every formula checks from the top |
| FormulaEngine.CheckExpression | crates/evobase-appspec/src/relations.rs:711-781 | the checker with a budget and a visiting set updated in place computes the static check and leaves the visiting set as it was |
| FormulaEngine.EvaluateExpression | crates/evobase-appspec/src/relations.rs:876-996 | the evaluator with a budget updated in place computes the evaluation and charges exactly its nodes and records |
| FormulaEngine.EvaluateSum | crates/evobase-appspec/src/relations.rs:907-954 | a roll-up re-checks its summand and adds the children that point here, in canonical order |
| FormulaEngine.Evaluate | crates/evobase-appspec/src/relations.rs:783-812 | permission, lookup of the formula and the row, shape, budget and kind are decided in this order |
| FormulaEngine.FormulaSound | crates/evobase-appspec/src/relations.rs:783-996 | on checked facts of the compiled shape an accepted formula yields a number of its compiled kind, equal to its meaning over unbounded integers, or only a denial, an exhausted budget or an overflow |
| FormulaEngine.FormulaExact | crates/evobase-appspec/src/relations.rs:928-982 | with permission, evaluation succeeds exactly when no product or prefix of a sum leaves the 64-bit range and the exact cost is within the budget; otherwise it overflows or exhausts the budget, the latter only beyond it |
| FormulaEngine.AcceptedKind | crates/evobase-appspec/src/relations.rs:695-707 | the compiled kind of a formula is the kind of its unfolding to the certified height |
| FormulaProofs.CheckTyped | crates/evobase-appspec/src/relations.rs:711-781 | a checked expression unfolds within the height the depth limit leaves, so walks without a budget terminate and named references exist |
| FormulaProofs.CheckMonotone | crates/evobase-appspec/src/relations.rs:915-927 | a check that succeeds still succeeds at a smaller depth, with more budget and a smaller visiting set |
| FormulaProofs.CollectHeight | crates/evobase-appspec/src/relations.rs:999-1028 | the fields collected do not depend on the height that bounds the walk |
| FormulaProofs.AuthorizesHeight | crates/evobase-appspec/src/relations.rs:814-874 | what an evaluation is authorized for does not depend on the height that bounds the walk |
| FormulaProofs.EvalSound | crates/evobase-appspec/src/relations.rs:876-996 | soundness and exactness of every checked expression, by induction on its height |
| FormulaCosts.Completes | crates/evobase-appspec/src/relations.rs:814-996 | authorization up front covers every field and scan; a completed evaluation charges exactly its cost, and a budget error means that the cost is beyond the limits |
| PlainFormulas.CheckExactly | crates/evobase-appspec/src/relations.rs:711-781 | a formula checks with a kind if and only if its unfolding is typed with that kind within the depth limit and no larger than the node limit; only cycles and limits keep a typed formula out |
| PlainFormulas.AcceptsExactly | crates/evobase-appspec/src/relations.rs:653-709 | a formula set is accepted if and only if limits, names and tables are in order, names are distinct, and each formula is typed and small enough |
| PlainFormulas.ShapeMeans | crates/evobase-appspec/src/relations.rs:631-650 | the shape formulas see holds exactly the declared fields with their types |
| PlainFormulas.AuthorizesExactly | crates/evobase-appspec/src/relations.rs:814-874 | an evaluation is authorized if and only if every field its unfolding reads and every scan it makes is allowed |
| PlainFormulas.DeniedExactly | crates/evobase-appspec/src/relations.rs:814-874 | with the snapshot and the records allowed, an evaluation is denied if and only if a field or scan it touches is not allowed, and never under a policy that allows everything |
| PlainFormulas.DisclosedExactly | crates/evobase-appspec/src/relations.rs:783-996 | nothing leaks: a formula answers if and only if every field, scan and record it touches is allowed, the arithmetic is in range and the cost affordable; records that are not allowed never influence an answer |
| PlainFormulas.RollupAdds | crates/evobase-appspec/src/relations.rs:928-953 | a roll-up adds the summand of each linked row of the child table; rows without a number add nothing |
| PlainFormulas.TotalAdds | crates/evobase-appspec/src/relations.rs:955-983 | a total adds its summands one by one; one without a number adds nothing |
| Rollups.ReverseRefs | crates/evobase-appspec/src/relations.rs:383-409 | all children that reference the parent, in canonical order, exactly when snapshot, record, scan and every row are allowed |
| Rollups.ReversePartition | crates/evobase-appspec/src/relations.rs:383-409 | each linked child is found under exactly one parent, an unlinked one under none |
| Rollups.RollupConserved | crates/evobase-appspec/src/relations.rs:907-954 | the roll-up added over all parents equals the summand added over the linked children |
| Rollups.RetargetConserves | crates/evobase-appspec/src/relations.rs:907-954 | a summand that does not read the moved reference is conserved however many children move |
| Retargeting.RetargetShift | crates/evobase-appspec/src/relations.rs:907-954 | moving any children changes the grand total by exactly what the moved rows are worth as they will be less what they are worth as they are, both in the store before the move |
| Retargeting.RetargetAlways | crates/evobase-appspec/src/relations.rs:907-954 | for every summand the grand total changes by the changes of the children's own worth |
| Retargeting.RetargetExactly | crates/evobase-appspec/src/relations.rs:907-954 | moving one child conserves the grand total if and only if the summand is worth the same on the child before and after, evaluated in the store before the move |
| Retargeting.RetargetLookup | crates/evobase-appspec/src/relations.rs:411-445 | for a summand looked up through the link, the total is conserved if and only if both parents hold the same value |
| Retargeting.DenoteFixed | crates/evobase-appspec/src/relations.rs:876-996 | a row that keeps its own values keeps its meaning when references of other rows move |
| RetargetExample.RetargetNotConserved | crates/evobase-appspec/src/relations.rs:907-954 | a checked definition, an accepted formula, checked facts and an admitted batch that moves one order and changes the total from 5 to 7 |
| JournalRuns.NothingWithoutLiveAuthority | crates/evobase-appspec/src/policy.rs:195-243 | a session expired or revoked, a membership or binding changed, or a grant withdrawn at any of the three readings, the last one included, leaves every table as it was and yields no receipt, fresh, replayed or recovered |
| Commands.DecideCommand | crates/evobase-appspec/src/commands.rs:546-633 | the deciding loop computes the decision: state, guards, final facts, policy on the result, events |
| CommandProofs.PreparedMeans | crates/evobase-appspec/src/commands.rs:348-457 | a prepared command is bound to its declared machine and policy, its caller may write the row, and its inputs are acceptable |
| CommandProofs.DecisionMeans | crates/evobase-appspec/src/commands.rs:571-633 | a decision replaces exactly one row, advances it by one declared transition, writes declared inputs only, and validating again gives the same facts |
| CommandProofs.AllowsKept | crates/evobase-appspec/src/commands.rs:252-263 | no command changes who may write a row |
| Availability.AvailableCommandRecords | crates/evobase-appspec/src/commands.rs:656-706 | offers are listed exactly when read and write authority agree, in declared and canonical order |
| Availability.OfferedIsOpen | crates/evobase-appspec/src/commands.rs:691-704 | for a readable row and acceptable inputs, a command is offered exactly when execution would not refuse its transition, guards or authority |
| Commands.EventsOf | crates/evobase-appspec/src/commands.rs:607-619 | one event for each declared intent, in declared order, projecting the written row |
| PlainCommands.PrepareDenies | crates/evobase-appspec/src/policy.rs:344-364 | of a live caller with a known command, preparation denies exactly those who neither own the row nor hold a role that may write it, and accepts exactly well-formed requests of the others |
| PlainCommands.DecideExactly | crates/evobase-appspec/src/commands.rs:546-633 | a prepared command is decided if and only if its row is in the starting state, not terminal, with every guard holding, and the facts it leaves can be published; it is never denied then |
| PlainCommands.OfferedExactly | crates/evobase-appspec/src/commands.rs:656-706 | a record is offered for a command if and only if the caller may read it, may write it, and it is ready |
| Store.Store.Execute | crates/evobase-store/src/commands.rs:85-125 | executing commits everything or restores every table, and the journal still describes the tables |
| Store.Store.ExecuteTransaction | crates/evobase-store/src/commands.rs:127-268 | the transaction answers as specified, whichever step fails |
| Store.Store.Commit | crates/evobase-store/src/commands.rs:190-268 | the four writes with their fault points, primary keys and final authority check leave exactly one new row for each fact |
| Store.Store.ReadReceipt | crates/evobase-store/src/commands.rs:272-337 | receipt recovery reads only and answers as specified |
| Store.Store.Bootstrap | crates/evobase-store/src/lib.rs:206-256 | provisioning adds an application or touches nothing |
| Store.Store.LoadSnapshot | crates/evobase-store/src/lib.rs:264-292 | a snapshot loads exactly when the stored release and facts pass every check again unchanged |
| Journal.LoadJournalled | crates/evobase-store/src/lib.rs:264-292 | every application of a reachable database loads, and loads the newest facts of its journal |
| Journal.NoCollision | crates/evobase-store/src/schema.sql:19-40 | a commit never meets a taken primary key |
| Journal.CommitJournalled | crates/evobase-store/src/commands.rs:174-268 | a commit appends one entry to one journal and leaves every other row alone |
| JournalRuns.ExecuteJournalled | crates/evobase-store/src/commands.rs:127-268 | an execution replays or rejects without a change, or commits its own request once at the revision it expected; a reachable database is never corrupt |
| JournalRuns.RetryReplays | crates/evobase-store/src/commands.rs:143-173 | a committed request executed again under the authority it committed under is answered with its own receipt and changes nothing |
| JournalRuns.RecoveryNeverConflicts | crates/evobase-store/src/commands.rs:294-331 | recovery never reports a conflict or a corruption, under any authority, and finds exactly the stored receipt |
| JournalRuns.ConflictMeans | crates/evobase-store/src/commands.rs:157-168 | an execution answers with an intent conflict exactly when it reaches the receipts under one authority and its key is bound there to another request or revision |
| JournalRuns.StoredReceiptFits | crates/evobase-store/src/commands.rs:369-395 | every stored receipt passes its own validation at every later revision |
| PlainCommands.DeniedExactly | crates/evobase-store/src/commands.rs:127-156 | with live authority and a known command, an execution is denied if and only if the caller neither owns the row nor holds a role its policy lets write, and then changes nothing |
| PlainCommands.CommitsExactly | crates/evobase-store/src/commands.rs:127-268 | under one live authority and a fresh key, a request commits if and only if it expects the current revision and is a submission in plain terms, and leaves exactly what it submits |
| PlainCommands.LoggedSubmits | crates/evobase-store/src/commands.rs:174-268 | every entry of every log of a reachable database was submitted by the owner of its row or by a role that may write it, from a ready row, and took the facts one step |
| PlainCommands.RowsExactly | crates/evobase-store/src/commands.rs:190-263 | every logged request has exactly its receipt, its audit row and one event for each declared intent, field by field |
| PlainCommands.RequiredAlways | crates/evobase-store/src/commands.rs:180-198 | at no revision of a reachable database does a record leave a required field out, blank or null |
| StoreRuns.BootstrapJournalled | crates/evobase-store/src/lib.rs:206-256 | bootstrap never overwrites, and a fresh application starts at revision 1 |
| StoreRuns.RunJournalled | crates/evobase-store/src/commands.rs:85-268 | every database reached by bootstraps, commands, faults and lost acknowledgements is the image of its journals |
| StoreRuns.RunGrows | crates/evobase-store/src/commands.rs:174-268 | journals only grow |
| StoreRuns.ExactlyOnce | crates/evobase-store/src/commands.rs:143-173 | once a submission has committed, at every later step of the run its retry and its recovery return the original receipt and change nothing |
| StoreRuns.RowsCountRevision | crates/evobase-store/src/commands.rs:190-263 | revision is one more than the number of receipts and of audit rows, which number 2 up to the revision once each |
| StoreRuns.FactsAreTheFold | crates/evobase-store/src/commands.rs:180-198 | the stored facts are the fold of the stored requests, in revision order, over the bootstrap facts |
| StoreRuns.EventsProjectFacts | crates/evobase-appspec/src/commands.rs:607-619 | the events of a revision are the declared projections of the facts of that revision, through readable fields only |
| Scenario.DeskChecked | crates/evobase-appspec/src/commands.rs:181-296 | a definition with a policy, a machine and a command that passes every check |
| Scenario.TicketCloses | crates/evobase-store/src/commands.rs:127-268 | a run from an empty database that provisions this application and commits its command, so the guarantees about commits are about something that happens |
| Histories.HistoryStep | crates/evobase-appspec/src/commands.rs:571-600 | a commit moves its target along one declared transition and leaves every other record as it was |
| Histories.RecordSetConstant | crates/evobase-appspec/src/commands.rs:583-600 | commands never add or remove records |
| Histories.FrozenFieldsConstant | crates/evobase-appspec/src/commands.rs:247-263 | owners, references and captured prices are constant over any run of commits |
| Histories.StatesDeclared | crates/evobase-appspec/src/value.rs:261-271 | every governed record is in a declared state at every revision |
| Histories.StatePath | crates/evobase-appspec/src/commands.rs:546-569 | between two revisions a record stays as it is or moves along a declared command, out of a state that is not terminal |
| Histories.TerminalFrozen | crates/evobase-appspec/src/commands.rs:546-560 | a record in a terminal state never changes again, in any field |
| HostApi.HostCommandMeans | apps/evobase-host/src/lib.rs:492-602 | a refusal before the store, or any later one but an internal error, means that nothing was written; the response limit never refuses a receipt; a receipt means that the request is in the log, under this key, command, record and release |
| HostApi.HostReceiptMeans | apps/evobase-host/src/lib.rs:540-590 | a recovered receipt names a request with its key in the log |
| HostApi.ExecuteAnswers | crates/evobase-store/src/commands.rs:238-268 | a receipt names its request and the one release of its application, fresh or replayed |
| HostApi.LogStep | crates/evobase-store/src/commands.rs:114-123 | one operation adds at most its own request to the log of an application |
| Client.Runtime.Invalidate | apps/evobase-builder/src/runtime.rs:153-168 | running tasks become stale and a retained attempt uncertain |
| Client.Runtime.Connect | apps/evobase-builder/src/runtime.rs:545-567 | connecting invalidates first, and does nothing while busy |
| Client.Runtime.Submit | apps/evobase-builder/src/runtime.rs:581-669 | one attempt at a time, for an offered command on a shown record whose whole form reads, frozen with the release and revision on screen |
| Client.Runtime.Refresh | apps/evobase-builder/src/runtime.rs:568-580 | refreshing starts one load, and nothing while busy or while an attempt is retained |
| Client.Runtime.PickTable | apps/evobase-builder/src/runtime.rs:692-696 | choosing a table starts one load, and nothing while the page is locked |
| Client.Runtime.Again | apps/evobase-builder/src/runtime.rs:687-690 | retrying and recovering resend the retained attempt unchanged, and nothing while busy |
| Client.Runtime.FinishLoad | apps/evobase-builder/src/runtime.rs:255-336 | a stale load changes nothing, a current one ends its busy spell |
| Params.CollectParams | apps/evobase-builder/src/runtime.rs:603-636 | the form yields parameters exactly when every given text parses and every required field has some |
| Params.PrintedParam | apps/evobase-builder/src/runtime.rs:230-253 | what the grid prints for a value that fits, the form reads as that value on the wire |
| Params.ReadersAgree | apps/evobase-builder/src/runtime.rs:230-253 | on every text the grid's parser accepts for a field that is no reference, the form's parser means the same |
| Params.SignedAgrees | apps/evobase-builder/src/runtime.rs:240-241 | the form reads the grid's integers alike, and beyond them only a leading plus |
| PlainClient.ParamExactly | apps/evobase-builder/src/runtime.rs:230-253 | a text given for a field stands for a value exactly when the form reads it as that value |
| PlainClient.FormExactly | apps/evobase-builder/src/runtime.rs:603-636 | the form reads if and only if every text stands for something and no required field is left out, empty or null; it yields one value for each text, the one it stands for |
| PlainClient.SendableExactly | apps/evobase-builder/src/runtime.rs:581-602 | a command can be sent exactly when the client is at rest, release and revision are on screen, the record is shown and the command is offered for it |
| PlainClient.AttemptEnds | apps/evobase-builder/src/runtime.rs:338-418 | a current answer ends an attempt if and only if it is a receipt that agrees in every field, or a final refusal of a first send that nothing made uncertain |
| PlainClient.OpenExactly | apps/evobase-host/src/lib.rs:492-602 | an answer leaves the outcome open exactly when storage failed, revisions ran out or the receipt could not be sent; conflicts and denials are answered for exactly their causes |
| Client.Runtime.Dispatch | apps/evobase-builder/src/runtime.rs:361-369 | nothing is sent while busy |
| Client.Runtime.Resume | apps/evobase-builder/src/runtime.rs:386-418 | stale answers change nothing; only a final refusal of a certain first send drops the attempt |
| Client.Runtime.FinishReceipt | apps/evobase-builder/src/runtime.rs:338-359 | only a matching receipt ends an attempt |
| Client.Runtime.ShowFailure | apps/evobase-builder/src/runtime.rs:144-152 | a failure ends the busy spell, and a denial also clears the screen |
| ProtocolProofs.StepKeeps | apps/evobase-builder/src/runtime.rs:361-419 | the invariant of the composed protocol holds across every step of client, network, host and others |
| ProtocolProofs.CommittedAtMostOnce | crates/evobase-store/src/commands.rs:114-182 | each issued body is committed at most once, unchanged and at the revision it names, under whatever credentials it is retried |
| ProtocolProofs.RetainedIsUncertain | apps/evobase-builder/src/runtime.rs:389-417 | an attempt that is retained while the client is not busy is uncertain |
| ProtocolProofs.AcceptedMeansCommitted | apps/evobase-builder/src/runtime.rs:296-359 | an accepted receipt means exactly one commit with its key, now and at every later step, and it is the issued request |
| ProtocolProofs.DroppedNeverCommitted | apps/evobase-builder/src/runtime.rs:411-416 | an attempt dropped without a receipt is never committed |
| ProtocolProofs.EveryAttemptAccountedFor | apps/evobase-builder/src/runtime.rs:361-419 | every issued attempt is retained, accepted or dropped, and only one of these |
| Recovery.RecoveryAccepts | apps/evobase-builder/src/runtime.rs:338-419 | from any reachable state at rest, one recovery without loss under the committing authority accepts an uncertain attempt that committed |
| Recovery.AcceptedRun | apps/evobase-builder/src/runtime.rs:361-419 | a run from a fresh window that loses an acknowledgement, recovers and accepts |
| Recovery.DroppedRun | apps/evobase-builder/src/runtime.rs:411-416 | a run from a fresh window that ends in a dropped attempt |
| Cells.CellRoundTrip | apps/evobase-builder/src/lib.rs:160-175 | every cell of checked facts is read back from its own printed text |
| Cells.PrintedReads | crates/evobase-appspec/src/value.rs:319-440 | printing and parsing undo each other for every field type and every value it admits, extremes and reserved texts included |
| Cells.ParsedFits | crates/evobase-appspec/src/value.rs:299-442 | whatever text is accepted, the value it means is one the field admits |
| Cells.CellStable | crates/evobase-appspec/src/value.rs:299-442 | printing what was read and reading it again gives the same value |
| Cells.IntegerRead | crates/evobase-appspec/src/value.rs:340-356 | every signed 64-bit number is read back from its decimal text |
| PlainCells.IntegerExactly | crates/evobase-appspec/src/value.rs:340-356 | a text reads as a number if and only if it is a numeral for it within 64 bits, overflows if and only if it is one beyond them, and is invalid otherwise |
| PlainCells.LabelExactly | crates/evobase-appspec/src/value.rs:413-440 | a label reads as a reference if and only if exactly one row of the target table carries it in the field that shows that table; it is ambiguous exactly when two or more do, invalid when none does |
| PlainCells.IdentityExactly | crates/evobase-appspec/src/value.rs:370-412 | a printed identity reads as a reference if and only if a row of this scope and table has it; otherwise the first row with it decides the error |
| Wire.WireValueRoundTrip | crates/evobase-protocol/src/appspec.rs:114-144 | converting to the wire and back is exact both ways, and refuses precisely the references of another scope |
| Wire.CheckedValuesTravel | crates/evobase-protocol/src/appspec.rs:114-144 | every value of checked facts crosses the wire without its scope and comes back the same |
| Wire.RevisionText | crates/evobase-protocol/src/appspec.rs:63-84 | a text is read as a revision exactly when it is the canonical decimal form of that unsigned 64-bit number |
| Preflight.PreflightCodec | crates/evobase-appspec/src/codec.rs:40-102 | the scanner accepts exactly the byte strings within the limits of size, peak depth and nodes |
| Preflight.PreflightWire | crates/evobase-protocol/src/appspec.rs:616-657 | the second scanner meets the same specification, so both agree on every byte string |
| Preflight.PreflightMeasures | crates/evobase-appspec/src/codec.rs:38-102 | on every printing of a tree, with any space around and between its tokens, the peak is its container depth and the count its containers, strings, keys and scalars |
| Preflight.TokensScan | crates/evobase-appspec/src/codec.rs:53-62 | no byte inside a string moves depth or count |
| Hub.InMemoryHub.PruneExpired | crates/evobase-messaging/src/hub.rs:227-238 | expired messages are removed from every queue, empty queues disappear, and the count is what was removed |
| Hub.InMemoryHub.Attach | crates/evobase-messaging/src/hub.rs:93-107 | the locked part of connect registers and takes the whole unexpired queue in order |
| Hub.InMemoryHub.Detach | crates/evobase-messaging/src/hub.rs:131-148 | disconnect removes one connection, and the user with the last one |
| Hub.InMemoryHub.Deliver | crates/evobase-messaging/src/hub.rs:196-225 | every open connection receives the message once and closed ones are dropped |
| Hub.InMemoryHub.Send | crates/evobase-messaging/src/hub.rs:150-178 | a message is delivered to the reachable connections or queued, and the answer counts which |
| HubRuns.ExpiryIsPrefix | crates/evobase-messaging/src/hub.rs:227-238 | expiry always removes a prefix of a queue |
| HubRuns.QueuedMeansAbsent | crates/evobase-messaging/src/hub.rs:150-170 | a user with a queue has no registered connection, at every moment of every run |
| HubRuns.QueueConserved | crates/evobase-messaging/src/hub.rs:89-238 | every message ever queued has left once and in order, by expiry or to one connection, or is still queued |
| HubRuns.ReplayInOrder | crates/evobase-messaging/src/hub.rs:105-115 | a connection receives all that its user's queue handed to it, in queue order, and no other queue hands it anything |
| HubRuns.SendReachesOrQueues | crates/evobase-messaging/src/hub.rs:150-178 | in every run a sent message reaches each open registered connection once or is queued once, never both |
| PlainHub.SendExactly | crates/evobase-messaging/src/hub.rs:150-178 | in every run a send delivers once to every registered open connection of the user, drops the closed ones, and queues behind what has not expired only if none is open |
| PlainHub.ConnectExactly | crates/evobase-messaging/src/hub.rs:89-115 | connecting registers one connection with an empty open mailbox and takes the whole unexpired queue of its user |
| PlainHub.DisconnectExactly | crates/evobase-messaging/src/hub.rs:131-148 | disconnecting takes one connection off the register and nothing else but expired messages |
| HubRuns.SendOvertakesReplay | crates/evobase-messaging/src/hub.rs:93-115 | a send between the locked step and the replay arrives before the older message |
| HubRuns.OrderKeptExactly | crates/evobase-messaging/src/hub.rs:89-178 | in every run, older messages arrive before newer ones at a connection if and only if no send reached it while messages taken for it were still to be replayed |
| HubRuns.ArrivalsStep | crates/evobase-messaging/src/hub.rs:105-178 | one step keeps the order of arrivals exactly when it does not overtake |

## Left out

- Rollups.RetargetConserves: its syntactic condition is only sufficient; the exact one is `Retargeting.RetargetExactly`.
- Retargeting.RetargetExactly: for summands that do not stray, that is, do not themselves sum over rows that read the moved reference; such sums return to the child's own table, where a move may change the worth of rows that did not move. For those `Retargeting.RetargetAlways` gives the change, but not by values of the store before the move.
- Compile.CompileDefinition: does not check display names, the byte limit of the encoded definition or the legacy submit rules, which depend on parts of the definition the model does not carry.
- ReverseRefs: the order of competing denials is the model's; which of several errors is reported first is not claimed.
- Which error variant is reported when several apply, except where an answer is final or open for the client: validation and batches answer with acceptance or rejection.
- Exact byte and node counts: identities are numbers with a fixed text prefix, labels and names carry no bytes, and the definition inside an intent is counted per declared entity; the laws used are that size is additive and that zero is the shortest price.
- Payload limits on audit, event and receipt rows while they are written appear as storage failures at the stage that writes them.
- Bootstrap payload limits, which depend on labels that the model does not carry.
- Entity names, labels and the grammar of textual identities; the display field of a table is chosen by a predicate that is an input of `Cells.ParseCell`.
- The legacy SubmitOrder rule, its receipt book and the row projections of `policy.rs`: the general command engine covers the same protocol.
- The wrap-around of the client's 64-bit generation counter, so that a task suspended for 2^64 invalidations is not modelled.
- The choice of host and application in the client: an attempt pins both, so one host and one application are modelled; the texts and screens of the runtime are not.
- Fresh request keys are random in the code; in the protocol they are fresh by construction, and other parties never use them.
- A network that duplicates requests: the guarantee about dropped attempts is for networks that lose, delay, abort and garble.
- Output policies that answer differently during one evaluation; an evaluation sees one coherent answer.
- The receiver end of a message connection and the interval of the clean-up task; a clean-up may happen at any time.
- SQL text, remote transport, hashing, session tokens, JSON syntax, HTTP headers, CORS and the user interface.
