# ParallaX verification

A Dafny model of the stateful and text-processing cores of ParallaX, with proofs of what they keep.

* **The model checker** (`Formulas`, `Decimal`, `Lexer`, `Parser`, `Cursor`, `Printing`, `Compiler`, `Models`, `Tables`,
  `Search`, `Explorer`, `Kinds`, `Checker`, `Phrases`, `TlaGrammar`, `TlaValues`, `Tla`, `TlaVerdict`): the formula
  language, its interpreter and its compiler to predicates on tuples, the breadth-first explorer with parent pointers,
  and the TLA+ emitter. Python's `True == 1` is modelled as it is, so the exactness of the search is stated with its
  exact condition.
* **Two of its tables** (`ZeroRtt`, `Session`) as machines of their own, with theorems over all runs.
* **The replay cache reference model** (`ReplayCache`) under arbitrary clocks.
* **The runtime guard** (`Text`, `GuardCodec`, `GuardProtocol`, `GuardSafety`, `GuardProgress`, `GuardMisread`,
  `GuardRefusal`): lock file metadata, and a multi-process protocol in which every system call is one step and a
  process may stop anywhere.
* **The sealed secret store and the seal command** (`SecretStore`, `TomlText`, `Rewriter`, `ConfigText`, `SealCommand`,
  `SealRun`, `SealCrossing`, `SealElsewhere`, `SealShared`): symbolic encryption, the config rewriter, and every disk a
  crash could leave behind.
* **The descriptor budget** (`FdBudget`), **the traffic shaper** (`TokenBucket`, `DelayLine`), **the nightly target
  selector** (`Nightly`, `Rotation`) and **record padding** (`Padding`).

`Basics` and `Results` hold the few types that several modules share, `Behaviours` the runs of a relation, `Arithmetic`
the number theory of rotations.

Objects that the source updates in place are classes here, and its loops are methods proved against functions; the
theorems are about those functions. Protocols are machines whose steps interleave freely, and the theorems range over
all runs. Randomness, clocks, process ids, drawn identifiers and undeletable files are parameters.

Where the code and its own words differ the model follows the code: the docstring of `rotation_fill` promises a sweep
that a non-empty start can defeat (`Rotation.FillFromOneNeverSweeps`, with the exact condition in
`Rotation.SweepsWhenBlocksFit`); the map's own check does not refuse a core name listed twice, which then runs twice a
night (`Nightly.RepeatedCoreRunsTwice`); a chain of implications is a formula to the checker and none to TLA+
(`TlaGrammar.ChainIsRefused`), and one such invariant leaves the emitted module without a meaning
(`Tla.UnreadableClaimLeavesNothing`); a server address may hold line feeds, and one that validation accepts lets two
speed runs go live at once (`GuardMisread.TwoSpeedRunsGoLive`, with the exact condition of admission in
`GuardProgress.AdmittedUnlessBarred`); a re-run of the config rewriter can change a file
(`Rewriter.RewriteTwiceCanDiffer`); a config whose references cross within its own namespace does not survive a crash
between the two replacements (`SealCrossing.CrossingLosesASecret`); another config that shares a plaintext sidecar with
the sealed one stops loading (`SealShared.SharedSidecarIsLost`, with the exact condition in
`SealCommand.BesideAfterAll`); and a config sealed with `--host-key` somewhere the runtime does not look stops loading, as the command itself warns (`SealElsewhere.SealedElsewhereStopsLoading`).

`dafny verify dfyconfig.toml` verifies the project.

## Model

| member | source | states |
|---|---|---|
| `Lexer.Tokenize` | formal/plx_formal.py:164-215 | the index loop returns the token list, or the first bad character or unterminated string, that the specification `Lex` gives for every text |
| `Lexer.LexSpaced` | formal/plx_formal.py:164-215 | tokenizing a spaced-out list of tokens gives exactly that list back |
| `Lexer.LexGivesTokens` | formal/plx_formal.py:164-215 | conversely, everything the tokenizer returns is a token of the language |
| `Parser.ParserIsTheGrammar` | formal/plx_formal.py:236-319 | the parser accepts a token list as a tree if and only if some phrase of the grammar (implication below disjunction below conjunction below negation, sets, comparisons) yields those tokens and means that tree |
| `Phrases.PhraseIsBuilt` | formal/plx_formal.py:236-319 | every phrase of the grammar is the one that one left-to-right pass builds from its tokens |
| `Phrases.OnePhrase` | formal/plx_formal.py:236-319 | the grammar is unambiguous: phrases that yield the same tokens are the same |
| `Phrases.ParsedHasAPhrase` | formal/plx_formal.py:236-319 | from a token list that parses the pass builds a phrase of it that means the parsed tree |
| `Cursor.FormulaParser.Run` | formal/plx_formal.py:236-242 | the cursor parser consumes all tokens and returns what the specification parser returns, errors included |
| `Cursor.FormulaParser.Impl` | formal/plx_formal.py:244-249 | moves the cursor over one right-nested implication, as the specification does |
| `Cursor.FormulaParser.Disjunction` | formal/plx_formal.py:251-256 | the loop over `\/` gives the left-nested tree of the specification |
| `Cursor.FormulaParser.Conjunction` | formal/plx_formal.py:258-263 | the loop over `/\` gives the left-nested tree of the specification |
| `Cursor.FormulaParser.Negation` | formal/plx_formal.py:265-269 | one negation, cursor and errors as specified |
| `Cursor.FormulaParser.Atom` | formal/plx_formal.py:271-291 | one atom with its five comparisons, cursor and errors as specified |
| `Cursor.FormulaParser.Set` | formal/plx_formal.py:298-307 | one set listing of one or more values, cursor and errors as specified |
| `Cursor.ReadFormula` | formal/plx_formal.py:322-332 | tokenizer and cursor parser together compute `Formula(text)` for every text |
| `Printing.FullTextRoundTrip` | formal/plx_formal.py:164-319 | every printable tree, written fully parenthesised, tokenized and parsed, is the same tree with nothing left over |
| `Printing.LeanTextRoundTrip` | formal/plx_formal.py:164-319 | the same with parentheses only where the grammar needs them |
| `Printing.ChainsAssociate` | formal/plx_formal.py:244-263 | written without parentheses, a chain of `=>` parses nested to the right, a chain of `/\` or of `\/` to the left |
| `Compiler.CompilesIffKnown` | formal/plx_formal.py:403-483 | a formula compiles if and only if every field it mentions is known |
| `Compiler.CompiledAgrees` | formal/plx_formal.py:335-377 | for every tree and state the compiled tuple predicate and the recursive interpreter give the same answer or the same exception, and look at the same fields in the same order, so short-circuiting skips the same parts |
| `Compiler.CompiledRhsAgrees` | formal/plx_formal.py:486-513 | a compiled right side computes what the parsed right side denotes on the dictionary, exceptions included |
| `Models.TakeStep` | formal/plx_formal.py:582-590 | the guard and the in-place update loop over a copied tuple compute the step in which every right side reads the state before the step |
| `Models.AfterAppend` | formal/plx_formal.py:584-588 | one more stored position is one more assignment of the simultaneous step |
| `Tables.BuildTable` | formal/plx_formal.py:538-563 | the outcome is the fault of the first check that fails, or none; then the model is what the texts say and the compiled parts implement it, a repeated field standing for its last place |
| `Tables.CompileAction` | formal/plx_formal.py:546-555 | the outcome is the fault of the name, the guard or the first bad assignment, in that order, or none; then the compiled action implements the parsed one |
| `Tables.CheckNames` | formal/plx_formal.py:538-543 | duplicate action names first, else the first field without a default, else nothing |
| `Tables.FaultlessIsWellBuilt` | formal/plx_formal.py:538-563 | a table has no fault if and only if it is well built: distinct action names, defaults for all fields, identifiers, readable formulas and right sides over known fields |
| `Search.MetIsReachable` | formal/plx_formal.py:564-597 | every state in the tables during the search is reachable, by a run as long as its depth |
| `Search.AllMet` | formal/plx_formal.py:578-597 | when the queue is empty every reachable state is in the tables, provided reachable states can be told apart |
| `Search.ShorterIsExpanded` | formal/plx_formal.py:578-597 | a run shorter than the depth of the state being expanded ends in a state already expanded |
| `Explorer.Trace` | formal/plx_formal.py:520-529 | walking the parent pointers back gives the action names of a run from an initial state to the given state, of exactly its depth |
| `Explorer.Expand` | formal/plx_formal.py:581-597 | trying the actions in order comes to the tally of their outcomes: the first exception or stuttering step, else whether any was enabled and which new states were queued |
| `Explorer.TallyIsExact` | formal/plx_formal.py:588-597 | with no stop the states queued are just the successors unlike any met before, no two alike, and every successor is like one met or queued |
| `Explorer.Judge` | formal/plx_formal.py:601-618 | invariants are judged before the dead-end formula, and a failure comes with a replaying trace |
| `Explorer.FindWitnesses` | formal/plx_formal.py:620-625 | the witness pass finds each witness among the states, or names one that holds in none, or the exception that stopped it |
| `Explorer.Explore` | formal/plx_formal.py:564-632 | every verdict means what it says: passing lists distinct reachable states, all clean, lively and with all witnesses, complete if and only if reachable states can be told apart; a failed invariant or dead end has a trace that replays to it and no shorter run reaches an unclean state; the search ends when the fuel covers a finite set of reachable states |
| `Explorer.Discover` | formal/plx_formal.py:594-597 | a new successor joins the queue one level down and keeps the search invariant |
| `Kinds.KindsTellApart` | formal/plx_formal.py:564-597 | if every field keeps one kind (bool, int or str) no two reachable states are equal for Python and different, so the search is exact |
| `Kinds.MixedKindsMerge` | formal/plx_formal.py:591-594 | a concrete table in which True and 1 meet: two different reachable states that the tables merge |
| `Checker.ConfirmedIsVerified` | formal/plx_formal.py:620-632 | a passing search over distinguishable states verifies every invariant, the absence of stuttering, every dead end and every witness, and its two counts are the numbers of reachable and of terminal states |
| `Checker.CheckMachine` | formal/plx_formal.py:537-632 | from the table texts: refusal exactly for the first check the table fails; acceptance verifies the model the texts denote and counts its states; failure refutes it |
| `Tla.EmitAction` | formal/plx_formal.py:2984-2997 | the two loops give one primed equation per assigned field, in field order, and the list of all other fields |
| `Tla.VariablesPartition` | formal/plx_formal.py:2987-2996 | every field is either assigned once or unchanged, never both |
| `Tla.TruthIsClassical` | formal/plx_formal.py:335-377 | on well-kinded states the ordered, raising evaluation and the classical truth of the emitted text agree |
| `Tla.InitAgrees` | formal/plx_formal.py:2972-2982 | with distinct fields the emitted Init, negative numbers included, holds exactly of the initial states |
| `Tla.ActionAgrees` | formal/plx_formal.py:2984-2997 | with distinct fields an emitted action relates two states if and only if TLA+ reads its guard and its right sides and the explorer steps from the first to the second by that action |
| `Tla.SameReachableStates` | formal/plx_formal.py:2948-3008 | for every well-kinded table: a state is reachable in the emitted module if and only if TLA+ accepts the module (an action and a variable at least; variable, action and invariant names identifiers, not reserved, each defined once; every guard, right side and invariant readable) and the explorer can reach the state |
| `Tla.InvariantAgrees` | formal/plx_formal.py:3002-3005 | in a module TLA+ accepts, an emitted invariant holds of every state reachable in TLA+ if and only if the formula of the table holds of every state the explorer can reach |
| `Tla.UnreadableClaimLeavesNothing` | formal/plx_formal.py:3002-3005 | one invariant that TLA+ cannot read and the emitted module has no reachable states |
| `TlaVerdict.VerdictCarriesOver` | formal/plx_formal.py:537-632 | once the checker accepts a table every emitted invariant is true in TLA+, and an invariant it finds broken is broken there too |
| `TlaValues.TlaRhsIsParsed` | formal/plx_formal.py:486-513 | for every text: TLA+ reads it as a given right side (a Boolean, a number, a string, or a name plus a number) if and only if the checker parses it so and its names and strings can be written in TLA+ |
| `TlaGrammar.TlaReadsAsParsed` | formal/plx_formal.py:2986-3004 | a guard or invariant that TLA+ can read at all, with its own precedences, is read as the tree the checker parses |
| `TlaGrammar.OneTlaReading` | formal/plx_formal.py:2986-3004 | for every text and tree: TLA+ reads the text as the tree if and only if the checker parses it so and the phrase built from its tokens passes an executable check of the precedences and names |
| `TlaGrammar.ReadableIsTlaReadable` | formal/plx_formal.py:2986-3004 | TLA+ reads a text if and only if that check passes |
| `TlaGrammar.BareImpliesOnce` | formal/plx_formal.py:2986 | without parentheses a guard TLA+ reads has one implication at most, and then at its top |
| `TlaGrammar.ChainIsRefused` | formal/plx_formal.py:244-249 | a chain of two implications: the checker nests it to the right, TLA+ does not read it |
| `ZeroRtt.AcceptsMinusRestarts` | formal/plx_formal.py:1290-1416 | in every run of the 0-RTT table the accept steps less the restart steps are the accept counter |
| `ZeroRtt.RestartBetweenAccepts` | formal/plx_formal.py:1290-1416 | between any two accepts of a run lies a restart |
| `ZeroRtt.NoAcceptAfterPersist` | formal/plx_formal.py:1290-1416 | neither an accept nor a restart follows a persist (single-use tickets, section 8.1 of RFC 8446) |
| `ZeroRtt.DurableForever` | formal/plx_formal.py:1290-1416 | a persisted accept stays durable and burned to the end of the run |
| `ZeroRtt.TicketAcceptedAcrossACrash` | formal/plx_formal.py:1290-1416 | a concrete run with a crash before the persist and a second accept |
| `Session.StepKeepsShape` | formal/plx_formal.py:685-796 | every action of the session table keeps the shape of its phase, which is inductive |
| `Session.ClaimsHoldForEveryBound` | formal/plx_formal.py:797-883 | after every run, for every reconnect bound, all claims of the table but the attempt bound hold; the attempt counter counts the reconnects |
| `ReplayCache.RefModel.constructor` | fuzz/fuzz_targets/replay_dedup.rs:41-51 | an empty log with empty index sets |
| `ReplayCache.RefModel.Prune` | fuzz/fuzz_targets/replay_dedup.rs:60-65 | keeps exactly the unexpired entries in order and rebuilds both index sets as the projections of the log |
| `ReplayCache.RefModel.Insert` | fuzz/fuzz_targets/replay_dedup.rs:67-93 | zero capacity accepts and stores nothing; otherwise prunes, then decides stale, replayed, full or inserted in that order, and the new log and index sets follow |
| `ReplayCache.RunCalls` | fuzz/fuzz_targets/replay_dedup.rs:95-143 | any sequence of calls on a new cache ends with the log, and gives the answers, that the theorems speak of |
| `ReplayCache.LogIsSurvivors` | fuzz/fuzz_targets/replay_dedup.rs:53-93 | under any clock, after any run the log is exactly the accepted entries that no call since found expired, in arrival order |
| `ReplayCache.MonotoneLog` | fuzz/fuzz_targets/replay_dedup.rs:53-93 | with a non-decreasing clock it is the accepted entries unexpired at the latest time |
| `ReplayCache.LogIsDistinct` | fuzz/fuzz_targets/replay_dedup.rs:67-93 | after any run no nonce and no transcript repeats and the log is within capacity |
| `ReplayCache.FullMeansFull` | fuzz/fuzz_targets/replay_dedup.rs:67-93 | CacheFull comes back if and only if the entry is fresh, unseen and exactly capacity unexpired entries are held |
| `ReplayCache.TwiceNeedsRollback` | fuzz/fuzz_targets/replay_dedup.rs:53-93 | if the same timestamp with the same nonce or transcript goes in twice, a call strictly between ran past the saturating expiry and the clock was back at or before it for the second |
| `ReplayCache.MonotoneAcceptsOnce` | fuzz/fuzz_targets/replay_dedup.rs:67-93 | with a non-decreasing clock nothing is accepted twice, at 64-bit saturation too |
| `ReplayCache.RollbackReaccepts` | fuzz/fuzz_targets/replay_dedup.rs:164-176 | a concrete family of runs in which one prune past the expiry and a rollback accept the same ticket again |
| `GuardCodec.DecodeText` | src/runtime_guard.rs:137-172 | the decoding loop computes the specification: last assignment wins, and malformed lines, unknown keys and roles, bad pids and missing fields are its errors |
| `GuardCodec.DecodeInvertsEncode` | src/runtime_guard.rs:127-172 | decoding an encoding gives the instance back if and only if neither the config id nor the server address holds a line feed or ends in a carriage return |
| `GuardCodec.DecodeStrips` | src/runtime_guard.rs:127-172 | without line feeds, decoding loses a final carriage return of each value and nothing else |
| `GuardCodec.DecodedHasNoNewlines` | src/runtime_guard.rs:143-163 | no decoded value holds a line feed, whatever the text |
| `GuardCodec.BrokenAddressDecodes` | src/runtime_guard.rs:127-172 | a server address with a line feed: what follows it is read as assignments that replace the earlier ones, or is the error of the first bad one |
| `GuardCodec.LockNamesDiffer` | src/runtime_guard.rs:267-272 | instances with the same lock file name have the same role, pid and config id |
| `GuardProtocol.ConflictIsABlocker` | src/runtime_guard.rs:196-222 | a conflict is reported if and only if some active instance blocks the newcomer, and the one reported does |
| `GuardProtocol.OwnNameIsScanned` | src/runtime_guard.rs:290-298 | every guard's own file name is one the scan looks at |
| `GuardSafety.TidyStep` | src/runtime_guard.rs:225-342 | every step of every process (asking, waiting, listing, opening, try-locking, reading, reclaiming, publishing, dropping, failing or crashing) keeps: the registry admits one process, own files stay linked and locked, and scans never unlink another guard's file |
| `GuardSafety.GuardedStep` | src/runtime_guard.rs:246-342 | every step keeps, whatever the metadata values: each newcomer has seen, or still has to look at, every live guard whose file decodes to something that blocks it |
| `GuardSafety.LiveGuardsDoNotObstruct` | src/runtime_guard.rs:196-342 | in every such run, whatever the metadata values: of two live guards the encoding of at least one decodes to nothing that blocks the other |
| `GuardSafety.FaithfulWithoutLineFeeds` | src/runtime_guard.rs:127-172 | without line feeds the decoder keeps role and config id if and only if the config id does not end in a carriage return |
| `GuardSafety.LiveGuardsAreCompatible` | src/runtime_guard.rs:196-342 | in every run from any unlocked directory, for any number of processes and any interleaving: two live guards whose role and config id the decoder keeps are not both speed runs, and are not a client and a speed run of one config id |
| `GuardSafety.RegistryExcludes` | src/runtime_guard.rs:254-262 | no two processes are between taking and releasing the registry lock at once |
| `GuardSafety.LiveFileStays` | src/runtime_guard.rs:273-285 | a live guard's file stays in the directory under its name, locked by its process and holding its encoding |
| `GuardProgress.AdmittedUnlessBarred` | src/runtime_guard.rs:246-342 | in every state a run can be in with the registry free: a waiting process can get its guard by its own steps alone, through any stale files, if and only if its own lock file is not locked and no live guard decodes to one that blocks it |
| `GuardProgress.AdmittedBesideOne` | src/runtime_guard.rs:246-342 | beside one live guard: if and only if the encoding of that guard does not decode or does not block the newcomer |
| `GuardProgress.NewcomerGoesLive` | src/runtime_guard.rs:246-342 | after any run that leaves the registry free, a new process that nothing live is against extends the run to its live guard; every other process stays as it was and no other file appears |
| `GuardProgress.LoneProcessGoesLive` | src/runtime_guard.rs:246-342 | from any unlocked directory, stale files and all, a first process gets its guard |
| `GuardMisread.AddressIsValid` | src/config.rs:1631-1658 | three lines, a host, a role assignment and an address assignment, pass the address validation for any plain hosts and any port |
| `GuardMisread.SpeedReadAsClient` | src/runtime_guard.rs:127-172 | the metadata of a speed run with such an address decodes as a client of the same config |
| `GuardMisread.TwoSpeedRunsGoLive` | src/runtime_guard.rs:196-342 | from the empty directory two speed runs on different configs, the first with such an address, both go live |
| `GuardRefusal.RefusalIsJustified` | src/runtime_guard.rs:262-265 | a process is refused only for a decoded peer that blocks it and whose guard was live at the moment that process last took the registry |
| `SecretStore.AadIsInjective` | src/secret_store.rs:332-340 | for ids without a bar the associated data determines version, id and field |
| `SecretStore.AadCanCollide` | src/secret_store.rs:332-340 | with bars in ids it does not: a concrete collision |
| `SecretStore.OpensOnlyWhereSealed` | src/secret_store.rs:345-416 | a sealed entry opens under exactly its own key, version, id and field, and is a decryption error elsewhere, whatever the ids and fields hold |
| `SecretStore.SealedBundle.constructor` | src/secret_store.rs:94-102 | a fresh bundle of the current version with no entries |
| `SecretStore.SealedBundle.Retain` | src/secret_store.rs:471-483 | opens every entry not replaced, or fails with the error of the first one, in the order of the fields, that does not open |
| `SecretStore.SealedBundle.Rebuild` | src/secret_store.rs:485-497 | under the new id the entries are the listed assignments, the last to a field winning |
| `SecretStore.SealedBundle.SealInto` | src/secret_store.rs:466-499 | success is the re-seal as a whole; failure happens exactly when a retained entry does not open, gives the error of the first such entry and leaves the bundle unchanged |
| `SecretStore.ResealOpens` | src/secret_store.rs:466-499 | after a re-seal named fields open to their last written text and every other field opens as before |
| `SecretStore.ResealsOpenLikeAMap` | src/secret_store.rs:466-510 | any sequence of re-seals under one key from an empty bundle succeeds and opens like one plain map with the last write winning |
| `SecretStore.CapturedEntryNeverOpens` | src/secret_store.rs:453-499 | no entry captured after an earlier seal opens in the bundle after a later one under a different id, under any field name |
| `TomlText.WriteBasicString` | src/cli.rs:758-778 | the escaping loop computes the quoted and escaped text |
| `TomlText.BasicStringReadsBack` | src/cli.rs:758-778 | every string, written so before any text, is read back exactly by a TOML v1.0.0 basic string reader (section "String") |
| `TomlText.EscapedHasNoControls` | src/cli.rs:761-775 | the escaped text holds no control character, so it stays on its line |
| `ConfigText.SpecSplits` | src/secret_store.rs:123-128 | a written reference splits at its last `#` into bundle path and entry if and only if the entry has no `#`; the path may hold any |
| `ConfigText.SealedLineParses` | src/cli.rs:681-693 | a rewritten target line is still matched by its field and reads as a sealed reference to the bundle and that field's entry |
| `ConfigText.SourceAfterRewrite` | src/cli.rs:667-705 | after a rewrite every line that assigned a target field is a reference to its own entry, however it was stored, and no line joins or leaves; so the field is that reference if one line assigns it, and unreadable otherwise |
| `Rewriter.RewriteOne` | src/cli.rs:675-702 | one line: the first matching target, keeping the indentation, or the line itself |
| `Rewriter.RewriteSecrets` | src/cli.rs:667-705 | the loop writes the rewritten lines in order, every other line unchanged, each with a line feed |
| `Rewriter.LinesOfRewrite` | src/cli.rs:667-705 | read back, a rewrite has the rewritten target lines and all other lines less a final carriage return |
| `Rewriter.RewriteIsIdempotent` | src/cli.rs:667-705 | rewriting twice is rewriting once if and only if no line outside the targets ends in a carriage return |
| `Rewriter.RewriteTwiceCanDiffer` | src/cli.rs:674-702 | a concrete text that a second rewrite changes |
| `SealCommand.ReferenceResolves` | src/cli.rs:638-661 | the reference written for a bundle resolves from the config's directory to the bundle path |
| `SealCommand.NamespacesAreDisjoint` | src/cli.rs:470-482 | entries of different namespaces never coincide, nor does one coincide with a bare entry |
| `SealCommand.BundleReplaceIsSafe` | src/cli.rs:484-518 | with the bundle replaced and the config not yet, every other config resolves as before; the config itself does if and only if every field already stored under an entry about to be written keeps its value and the runtime holds the key sealed under |
| `SealCommand.OwnAfterBundle` | src/cli.rs:498-518 | the same, as an if and only if, for one field of the config, whatever its source |
| `SealCommand.SealedIsIntact` | src/cli.rs:526-558 | from the config's replacement on, with any sidecars removed, every other config that no removed sidecar touches resolves as before; the config itself does if and only if it has no secrets or the runtime holds the key sealed under |
| `SealCommand.OwnAfterSealed` | src/cli.rs:447-537 | each field then resolves as before if the runtime's key is the one sealed under, and is an error otherwise |
| `SealCommand.BesideAfterBundle` | src/cli.rs:484-518 | with only the bundle replaced, another config resolves a field as before, wherever it keeps it: inline, in the environment, in a file, or in this or another bundle |
| `SealCommand.BesideAfterSealed` | src/cli.rs:526-631 | from the config's replacement on it does if and only if the config and the file it refers to are still there |
| `SealCommand.BesideAfterAll` | src/cli.rs:607-631 | after the whole command it does if and only if neither is a sidecar that was removed: one the sealed config refers to, not that config itself, and not undeletable |
| `SealShared.SharedDiskIsShared` | src/cli.rs:607-631 | a concrete disk with two configs that keep a secret in the same file |
| `SealShared.SharedSidecarIsLost` | src/cli.rs:607-631 | on every such disk sealing one config succeeds with the right key in place, and once its sidecars are gone the other config no longer loads |
| `SealCrossing.CrossedDiskIsCrossed` | src/cli.rs:470-518 | a concrete config and bundle with a crossed reference |
| `SealCrossing.CrossingLosesASecret` | src/cli.rs:498-518 | on that disk the command succeeds with the right key in place, and the disk between its two replacements does not resolve the config to the secrets it had |
| `SealElsewhere.SealedElsewhereStopsLoading` | src/cli.rs:573-595 | a config with an inline secret sealed with a key path the runtime does not look at: the command succeeds, and from the config's replacement on the secret no longer loads |
| `SealRun.LoadSecrets` | src/cli.rs:421-445 | loads every secret of the config or nothing |
| `SealRun.ReadyKey` | src/cli.rs:447-455 | the key at the command's path, or none if that file holds none, or a new one if there is no file; the disk gains the new key and nothing else changes |
| `SealRun.ResealBundle` | src/cli.rs:484-514 | a missing bundle starts empty; an unreadable one, one of another version, or one with an entry that does not open aborts; else the result is the re-seal |
| `SealRun.RemoveSidecars` | src/cli.rs:607-631 | every sidecar but the config itself and what cannot be deleted is gone, through disks that all stay in a given set closed under such removals |
| `SealRun.LastDiskIsExact` | src/cli.rs:526-631 | once every sidecar is gone each field of another config resolves as before if and only if no removed sidecar touches it |
| `SealRun.SealConfig` | src/cli.rs:416-601 | succeeds if and only if the config loads, there is a key and the bundle can be re-sealed; failure changes nothing but a missing key file. On success every disk passed through resolves this config, and every other config that no removed sidecar touches, to the secrets they had before if and only if no references cross and the runtime holds the key sealed under, and the last disk does if and only if the runtime holds that key; on the last disk another config resolves a field as before if and only if no removed sidecar touches it; each field is a reference to its own entry and every deletable sidecar is gone |
| `FdBudget.CounterIsTheSum` | src/transport/fd_budget.rs:13-42 | in every interleaving the counter is the sum of the live reservations and within the limit |
| `FdBudget.ReleaseIsExact` | src/transport/fd_budget.rs:38-42 | dropping a live reservation subtracts exactly its count: the wrapping subtraction never wraps |
| `FdBudget.SeenDuringCall` | src/transport/fd_budget.rs:14-25 | the value a thread holds was the counter's at some moment since its call began |
| `FdBudget.RefusalIsJustified` | src/transport/fd_budget.rs:14-17 | a refused call: at some moment since it began the counter and the request exceeded the limit or the machine word |
| `TokenBucket.Bucket.constructor` | src/netmatrix.rs:108-119 | a missing or zero cap is unbounded, else 125000 bytes per second for each Mbit/s |
| `TokenBucket.Bucket.Consume` | src/netmatrix.rs:122-132 | returns no earlier than the deadline, and moves the deadline on from the later of itself and now |
| `TokenBucket.RunCalls` | src/netmatrix.rs:122-132 | any sequence of calls on one bucket returns at the times, and leaves the deadline, that the theorems speak of |
| `TokenBucket.ReturnsAt` | src/netmatrix.rs:122-132 | call i returns when the deadline before it, or its own start if later, lets it |
| `TokenBucket.RateIsRespected` | src/netmatrix.rs:122-132 | calls i to j-1 never admit more bytes than the rate times the time from the start of call i to the return of call j |
| `TokenBucket.DeadlineIsLeast` | src/netmatrix.rs:130-131 | the deadline is no further than it must be: it is exact from the creation or from some call |
| `DelayLine.OutputIsAPrefix` | src/netmatrix.rs:140-185 | in every run, with any failure on either side, the bytes written are a prefix of the bytes read, in order |
| `DelayLine.NothingIsEarly` | src/netmatrix.rs:148-181 | nothing is written, whole or in part, before its read time plus half the round trip, odd milliseconds included; the chunks written are those read, in order; the channel stays within 1024 |
| `DelayLine.DrainedIsComplete` | src/netmatrix.rs:176-184 | a writer that drains the closed channel has written everything read |
| `DelayLine.RateHoldsAtTheSink` | src/netmatrix.rs:122-185 | the cap holds end to end: in every run the bytes written from one chunk up to another are at most the rate times the time from the read of the first to the write of the second less half the round trip, for a failed write too |
| `Nightly.FillByRotation` | fuzz/ci/select_targets.py:96-109 | the loop computes the fill, or the division by zero of an empty map |
| `Rotation.RotationFillIsWellFormed` | fuzz/ci/select_targets.py:96-109 | a start that reaches the cap is cut to it; otherwise the fill keeps its start as a prefix, repeats nothing unless the start did, and is full unless every target is in it |
| `Rotation.FillFromOneNeverSweeps` | fuzz/ci/select_targets.py:96-109 | the documented sweep fails for a fill that does not start empty: a concrete map with a target never reached on any day |
| `Rotation.SweepsWhenBlocksFit` | fuzz/ci/select_targets.py:96-109 | every target is reached on some day if and only if each aligned block of gcd(cap, targets) consecutive targets holds no more targets outside the start than the places left; with a start beyond the cap, if and only if the cut start holds them all |
| `Rotation.ReachedFromItsBlock` | fuzz/ci/select_targets.py:96-109 | for every start: a target outside it is reached on some day if and only if the targets outside the start before it in its block leave a place |
| `Rotation.FillFromNothingSweeps` | fuzz/ci/select_targets.py:97-109 | from an empty start any ceil(N/cap) consecutive days reach every target, as documented |
| `Nightly.CapKeepsTheCore` | fuzz/ci/select_targets.py:82-93 | the capped list holds only picked targets, all of them if they fit, and one outside the core only when every picked core target is in it |
| `Nightly.NightlyIsFull` | fuzz/ci/select_targets.py:112-150 | with a pool over the cap and fewer core targets than the cap, every list has exactly cap targets of the pool, all its core among them, and repeats none if and only if no picked core name is listed twice |
| `Nightly.RepeatedCoreRunsTwice` | fuzz/ci/select_targets.py:137-150 | a core name listed twice takes two places of every night's list |
| `Nightly.NightlySweeps` | fuzz/ci/select_targets.py:141-150 | then any ceil(rest/slots) consecutive nights reach every target of the pool outside the core |
| `Nightly.FullCoreStarvesTheRest` | fuzz/ci/select_targets.py:141-146 | with as many core targets as the cap no night reaches any other target |
| `Padding.SampleIsInRange` | src/traffic.rs:139-173 | every sample lies between min and max: no 16-bit difference or sum wraps |
| `Padding.TargetIsHit` | src/traffic.rs:147-160 | an aimed-for packet size is hit exactly, or the maximum padding is reached first; the cast of the payload length loses nothing |
| `Padding.RemoveInverts` | src/traffic.rs:127-137 | removing undoes a suffix if and only if its trailer can count the padding |
| `Padding.AcceptedFramesSplit` | src/traffic.rs:186-198 | a frame is accepted with a plaintext if and only if it is that plaintext, some pad and the pad's two-byte length |
| `Padding.ApplyInto` | src/traffic.rs:67-74 | appends payload and sampled suffix, and removal gives back the buffer with the payload |
| `Padding.ApplySuffixInto` | src/traffic.rs:78-84 | appends a sampled suffix that removal undoes |
| `Padding.WriteExtraPaddedSuffix` | src/traffic.rs:94-112 | appends profile padding plus extra, clamped to the trailer, and removal undoes it |
| `Padding.WriteExactSuffix` | src/traffic.rs:120-125 | appends exactly the requested padding, clamped to the trailer, and removal undoes it |
| `Padding.RemoveInPlace` | src/traffic.rs:180-184 | truncates to the plaintext, or leaves the buffer as it is and reports the error |

## Left out

- The machine tables `quic`, `replay`, `probe`, `inbound`, `keys`, `close`, `bbr` and `packet` of `formal/plx_formal.py`, and those claims of the 0-RTT table that speak of single states: finite graphs that the modelled checker itself settles.
- `correspond`, `check_ledger`, `check_packet_bytes`, `check_probe_status_bytes`, `run_tlc` and the command lines: text anchors, byte sweeps and process spawning.
- Characters beyond ASCII in formulas and action names: Python's Unicode letters, digits and spaces are errors of the modelled tokenizer, and so is a Unicode identifier as an action name.
- Explorer.Explore: takes a bound on the number of states popped, which the source does not have, and answers Unfinished when it is used up; the contract excludes that answer whenever the bound covers a finite set holding the reachable states.
- The texts of exceptions and reports; the model keeps which exception it is and the values it names.
- Cryptography, hashing and randomness: encryption, key derivation, fingerprints and identifiers are symbolic, with freshness as a hypothesis.
- SealedBundle serialization to and from TOML: a bundle file holds its bundle.
- ConfigText.SourceOf reads bare-key assignments of basic strings and one-entry inline tables, with comments; literal and multi-line strings, quoted and dotted keys and table headers are not modelled, and a field must be assigned on exactly one line that the rewriter matches.
- Paths are canonical strings: symbolic links, case folding and `..` are not modelled, nor are file modes, ownership, fsync and the temporary file behind an atomic replacement.
- SealRun.SealConfig: says nothing of what the command rewrites for its own use, namely another config's field stored under an entry of this job, or one read from the config or the bundle file as plain text; it assumes that sidecars are neither the bundle nor the runtime's key file, and that the config and the runtime's key file are two files, neither of which is a bundle.
- Tla.SameReachableStates: is stated for tables whose fields keep one kind each, which TLA+ needs to compare them, and whose initial and assigned strings hold no quote and no backslash; the layout of the module and its comments are left out, and with them summaries and blurbs that hold a line feed.
- Two guards held by one process at a time, a read error on a live lock file, and systems without file locks.
- Numeric rounding: the token bucket and the delay line are over real numbers.
- `select_for_files` and its globs; timing and cover traffic profiles; the comparison loop of the fuzz targets; reports of the network matrix; every module that only calls into cryptography or sockets.
