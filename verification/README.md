# A verified model of bosn

bosn builds Docker contexts, owns isolated CI engines and helper containers, and reclaims what they
leave behind. This project models the parts of it whose correctness is not visible in any one
function, and proves what those parts promise together.

`dafny verify dfyconfig.toml` checks the whole project. There are no other inputs.

## What is modelled

**Build-context selection.** `Glob.dfy`, `Selection.dfy`, `WalkPrune.dfy`, `Collector.dfy`. The glob
matcher is a table filled by nested loops over an array; `Matches` is what a token list means, with no
table in sight, and `Denotes` what a pattern means read off its text, with no tokens either. Ignore rules are last-match-wins with inheritance from ancestors; sources match a path
or any of its ancestors. `Outcome` is the selection read straight off the whole tree. The collector
walks a tree with a stack, prunes, keeps only what it must, and reruns the plain selector.
`Collector.Collect` proves that the two agree: a result of the pruned walk is the selection of the
whole tree, an error is one the entries it came to justify, and a tree within the collector's and the
matcher's limits is answered exactly as its full listing would be. Names beneath a pruned directory
need only be names: they are never labelled or matched.

**The ownership registry.** `ActEngine.dfy` holds the record of one isolated engine and every
transition on it, `ActCoupling.dfy` and `ActHistory.dfy` what all interleavings keep and imply,
`ActRegistry.dfy` the transactions as they run over the tables. Tables are maps, a run is a sequence
of calls by any number of parties, a refused call changes nothing, and other components may rewrite
any row outside the engines' own at any time. A `Registry` object keeps its calls in a ghost log and
`Valid()` says that its tables are coupled and are what that log makes of an empty registry, so the
theorems about all runs are theorems about every object. `Journal.dfy` and `JournalWriter.dfy` model the event
journal with its current rows and audit tails, and what retention deletes from it; `Journal.LiveInstalls` is why a stored engine record
simply replaces the previous one in `ActEngine`. `CacheHelper.dfy` and `HelperJournal.dfy` model
helper containers together with the retention pass that forgets them. `Paging.dfy` models the two
kinds of paged listing.

**Reclamation planners.** `Ownership.dfy`, `Retention.dfy` and `RetentionPlanner.dfy` model the pass
over owned objects, `Unmanaged.dfy` the census and sweep plan of everything else. Ages are optional
reals, sizes are integers; the pass that adds sizes with saturation saturates at the bounds of a
128-bit integer.

**Identities and evidence.** `MatrixJson.dfy` prints canonical JSON and counts its bytes without
printing; `JsonReader.dfy` is a reader written from the JSON grammar that knows nothing of the printer,
and gives every printed value back; `Coverage.dfy` reconciles required CI cells with observations; `Digest.dfy` is the byte
stream behind a content digest (SHA-256 is a function of that stream and is not modelled),
`GenerationKeys.dfy` the two streams that join such a digest with external images, and
`StreamLayout.dfy` a table of the pieces of all three in order;
`Resolver.dfy` and `ImageReceipts.dfy` resolve image receipts from an engine that may answer anything,
and validate them. What an engine replies decides the answer: `Resolver.Succeeds` and `Resolver.Fails`
say, reply by reply, which receipt or which error follows.

`Common.dfy`, `Order.dfy` and `Lists.dfy` hold the vocabulary they share.

## Where the code and its comments differ

- `crates/bosn-generation/src/walk_prune.rs:127-129` calls the reach test conservative. It is, for
  patterns whose bracket classes do not span a `/` ahead of the first `**` and whose `..` components do
  not cancel that `**`. Both conditions are needed: `WalkPrune.SpanningClass` and
  `WalkPrune.EscapingRule` are families of patterns that match a path the test says they cannot reach,
  and `WalkPrune.EscapingRuleLosesEntry` turns one into an ignore file under which a directory with a
  chosen entry is pruned. `Collector.EscapingTreeLoses` gives the tree: the selection of the whole tree
  holds `a../b`, and nothing the walk can keep has that selection (`Collector.EscapingExample` names
  the files).
- `crates/bosn-generation/src/lib.rs:520-552` writes a mount's overlay upper without a presence marker.
  For stacks where a mount has an upper exactly when its mode is overlay, which is what manifest
  validation demands, the stream is uniquely decodable. Without that, `Digest.UnlayeredMountsCollide`
  gives two stacks that differ in a mount and have one content stream: an overlay that names no upper
  reads like one that does.
- `crates/bosn-generation/src/lib.rs:255-277` and `470-499` write an absent platform as an empty one. For
  images that state no empty platform, which is what the resolver accepts, both keys identify their
  content and images (`GenerationKeys.ResolvedExact`, `GenerationKeys.CoalescingExact`); an image with
  an empty platform has the keys of one without a platform (`GenerationKeys.EmptyPlatformCollides`).
- `crates/bosn-registry/src/cache_helper.rs:326-327` says a nonce can never be reused. Once the
  retention pass has forgotten a removed helper, a younger intent with its nonce is accepted
  (`CacheHelper.NonceBegunAgain`, `CacheHelper.SampleBegunAgain`). What does hold in every run is
  `CacheHelper.NonceReuse`: a nonce begun twice was removed and forgotten in between, and the second
  intent is strictly younger, so no intent is ever begun twice (`CacheHelper.ReplayRefused`).
- `crates/bosn-core/src/unmanaged.rs:545-548` says every pinned artifact is protected. A pinned, idle,
  dangling image of this registry is not (`Unmanaged.PinnedUnprotected`); `Unmanaged.PinnedExact` says
  exactly when a pin protects.
- `crates/bosn-generation/src/collector.rs:17-19` says no context holds a file with the built-in rules'
  name, so nothing is ever protected by it. A context can hold one. For every policy and path the walk
  counts an entry exactly when the selector chooses it or, with the built-in rules in force, it bears
  that name (`WalkPrune.WalkSelectsExact`), and `WalkPrune.BuiltInNameCounted` is a policy under which
  such a file is counted and not chosen. The selection is unaffected, since the selector judges the
  file like any other; the limit on entries is not: the walk holds it against the number selected from
  the whole tree, plus one when such a file is present and not selected (`Collector.EntryCountExact`),
  so the refusal can come one entry early (`Collector.RefusedEarly`).
- `crates/bosn-core/src/retention.rs:165-168` says that under disk pressure every unmounted, unpinned
  volume of this registry past the idle floor is reclaimed. That holds for a volume of positive measured
  size (`Retention.PressureFrees`). A volume whose size is not known is left until its own gate, unless it
  is obsolete (`Retention.UnmeasuredLeft`), and an empty one may be (`Retention.NegativeBudget`).
- A negative idle-volume budget is accepted by the planner, and then disk pressure can select less than
  the normal policy (`Retention.NegativeBudget`); for every other budget pressure only adds
  (`Retention.PressureMonotone`).

## Model

| member | source | states |
|---|---|---|
| GlobMatcher.GlobTokens | crates/bosn-generation/src/dockerfile.rs:429-484 | the tokenizer loop yields a token list that matches exactly the texts the pattern denotes by its own characters, for every pattern: `*`, `**`, `**/`, `?`, classes, ranges, negated and unterminated classes |
| GlobMatcher.StarLaw | crates/bosn-generation/src/dockerfile.rs:429-484 | `*` and a rest match exactly a slash-free run and what the rest matches |
| GlobMatcher.DeepLaw | crates/bosn-generation/src/dockerfile.rs:429-484 | `**` and a rest that does not begin with a slash match exactly anything and what the rest matches |
| GlobMatcher.DeepSlashLaw | crates/bosn-generation/src/dockerfile.rs:429-484 | `**/` and a rest match exactly what the rest matches, from the start or after some slash |
| GlobMatcher.OneLaw | crates/bosn-generation/src/dockerfile.rs:429-484 | `?` and a rest match exactly one character but a slash and what the rest matches |
| GlobMatcher.ClassLaw | crates/bosn-generation/src/dockerfile.rs:452-471 | `[body]` takes exactly one listed character that is no slash |
| GlobMatcher.NegatedLaw | crates/bosn-generation/src/dockerfile.rs:452-471 | `[!body]` takes exactly one unlisted character that is no slash |
| GlobMatcher.OpenLaw | crates/bosn-generation/src/dockerfile.rs:452-475 | an unclosed `[` stands for itself |
| GlobMatcher.PlainLaw | crates/bosn-generation/src/dockerfile.rs:429-484 | every other character stands for itself |
| GlobMatcher.PatternMeaning | crates/bosn-generation/src/dockerfile.rs:354-484 | for every pattern and path the tokens match exactly when the pattern text denotes the path |
| GlobMatcher.ReadClass | crates/bosn-generation/src/dockerfile.rs:452-471 | the class-body loop yields exactly the members and ranges of the body, with a leading `!` as negation |
| GlobMatcher.TokenBudget | crates/bosn-generation/src/dockerfile.rs:360-378 | tokens plus class members never exceed the pattern length, so the first resource test cannot fire on an admitted pattern |
| GlobMatcher.SlashSuffix | crates/bosn-generation/src/dockerfile.rs:394-397 | the suffix array says, at each position, whether the rest matches after some later slash |
| GlobMatcher.FillCell | crates/bosn-generation/src/dockerfile.rs:398-413 | one table cell equals the meaning of the token suffix on the text suffix, for every kind of token |
| GlobMatcher.FillTable | crates/bosn-generation/src/dockerfile.rs:389-415 | filling the table from the last token down answers what the token list means on the whole text, in exactly (tokens + 1)(length + 1) cells with every index in bounds |
| GlobMatcher.Glob | crates/bosn-generation/src/dockerfile.rs:354-416 | an answer is yes exactly when the pattern text denotes the path; the resource limit is reported exactly when the path or pattern is over its stated bound; charged work is at most 1,000,000 |
| Selection.RuleMeaning | crates/bosn-generation/src/dockerfile.rs:290-306 | a rule that is answered fires exactly when its pattern matches the path or one of its ancestors, and it is answered whenever the path is within the limits |
| Selection.IgnoredMeaning | crates/bosn-generation/src/dockerfile.rs:288-310 | the ignore loop computes last-match-wins: an answer says ignored exactly when the last rule that fires is not negated |
| Selection.Ignored | crates/bosn-generation/src/dockerfile.rs:288-310 | the loop returns the specified verdict, including the first matcher error |
| Selection.SourceMeaning | crates/bosn-generation/src/dockerfile.rs:319-353 | a source that is answered matches a path exactly when its normalised pattern matches the path or an ancestor, or it names the root |
| Selection.SourceMatches | crates/bosn-generation/src/dockerfile.rs:319-353 | the method returns that verdict for plain and wildcard sources alike |
| Selection.BackslashSeparates | crates/bosn-generation/src/dockerfile.rs:320-330 | a backslash in a source separates parts exactly as a slash does |
| Selection.SelectContext | crates/bosn-generation/src/dockerfile.rs:45-88 | the two passes return the specified selection, missing-file, missing-source or matcher error |
| Selection.SelectMeaning | crates/bosn-generation/src/dockerfile.rs:45-88 | unless the matcher refuses, the selector computes the declarative outcome: chosen entries sorted by path, or the first missing source; and it refuses only when some entry exceeds one of its limits |
| Selection.OutcomeExact | crates/bosn-generation/src/dockerfile.rs:45-88 | the reference outcome by its parts: no file of the Dockerfile's name, the first source nothing matches, or exactly the protected or wanted and not ignored entries in path order, none more often than it was listed |
| Selection.SameOutcome | crates/bosn-generation/src/dockerfile.rs:70-87 | a sub-listing that keeps every chosen entry and a witness of every matched source has the same outcome, in any listing order |
| Order.StrLeExact | crates/bosn-generation/src/dockerfile.rs:70-87 | paths are sorted in dictionary order |
| Lists.SortStable | crates/bosn-generation/src/dockerfile.rs:70-87 | sorting keeps the order of elements it does not tell apart |
| WalkPrune.ReachMeaning | crates/bosn-generation/src/walk_prune.rs:127-142 | the component-wise reach test computes the declarative reach relation when no component test exceeds a limit |
| WalkPrune.ReachExact | crates/bosn-generation/src/walk_prune.rs:127-142 | the reach test says yes exactly when the parts match one by one until one list ends or a `**` part comes |
| WalkPrune.ReachRaw | crates/bosn-generation/src/walk_prune.rs:127-142 | if a whole-string pattern matches a path comparable to a directory, its component list reaches the directory |
| WalkPrune.RuleReach | crates/bosn-generation/src/walk_prune.rs:99-103 | the same for ignore rules after component normalisation |
| WalkPrune.SourceReach | crates/bosn-generation/src/walk_prune.rs:104-108 | the same for normalised sources |
| WalkPrune.Prunes | crates/bosn-generation/src/walk_prune.rs:90-110 | the early-return scan returns the specified prune verdict or error |
| WalkPrune.PruneMeaning | crates/bosn-generation/src/walk_prune.rs:90-110 | when no matcher limit fires, a directory is pruned exactly when it is ignored, no negation and no source reaches it, and nothing protected lies beneath |
| WalkPrune.PrunedBeneath | crates/bosn-generation/src/walk_prune.rs:3-14 | every path under a pruned directory, whatever its names, is ignored, unprotected, and matched by no non-root source |
| WalkPrune.PruneAnswered | crates/bosn-generation/src/walk_prune.rs:90-142 | for prunable patterns the component tests exceed no limit the whole-path tests respect, so the pruner is never refused where the selector is not |
| WalkPrune.WalkSelectsExact | crates/bosn-generation/src/walk_prune.rs:65-87 | an entry is counted exactly when the selector chooses it or it bears the built-in rules' name while they are in force |
| WalkPrune.BuiltInNameCounted | crates/bosn-generation/src/collector.rs:17-19 | a policy with the built-in Rust rules under which a file of that name is counted and not chosen |
| WalkPrune.Classify | crates/bosn-generation/src/walk_prune.rs:65-87 | an answered path is retained exactly when it is selected or the first witness of some source, the witness flags are updated for exactly the sources it matches, and every path within the limits is answered |
| WalkPrune.EscapingRule | crates/bosn-generation/src/walk_prune.rs:113-142 | a family of patterns whose `..` cancels a `**` matches a path its components do not reach |
| WalkPrune.SpanningClass | crates/bosn-generation/src/walk_prune.rs:127-142 | a family of patterns whose class spans a slash matches a path its components do not reach |
| WalkPrune.EscapingRuleLosesEntry | crates/bosn-generation/src/walk_prune.rs:90-110 | with such a rule in the ignore file a directory that holds a chosen entry is pruned |
| Collector.VisibleOrDead | crates/bosn-generation/src/walk_prune.rs:3-14 | in every directory tree an entry the walk does not come to is ignored, unprotected and no witness of a non-root source |
| Collector.ListingDistinct | crates/bosn-generation/src/collector.rs:279-285 | a tree with real names lists no path twice, so the duplicate test cannot fire on one |
| Collector.DockerfileKinds | crates/bosn-generation/src/collector.rs:293-319 | a context whose Dockerfile is a link or a directory has none |
| Collector.KeptSelectsSame | crates/bosn-generation/src/collector.rs:293-319 | what the walk kept has the outcome of the whole tree, including the missing-source error |
| Collector.EntryCountExact | crates/bosn-generation/src/collector.rs:268-278 | the number the entry limit is held against is the number selected from the whole tree, plus one exactly when a file with the built-in rules' name is present and not selected |
| Collector.RefusedEarly | crates/bosn-generation/src/collector.rs:17-19 | a two-file context whose selection meets the entry limit exactly and which the walk counts as over it |
| Collector.Visit | crates/bosn-generation/src/collector.rs:249-291 | one entry is classified, counted and filed so that kept entries, witness flags and the count stay faithful to everything walked; a refusal has its reason |
| Collector.WalkTree | crates/bosn-generation/src/collector.rs:241-293 | the stack-driven walk ends having walked exactly the entries not beneath a pruned directory, each once and within every limit, or stops with a reason read off entries it came to |
| Collector.Collect | crates/bosn-generation/src/collector.rs:239-319 | a result equals the selection of the whole tree and means every limit was respected; every error is justified by entries the walk came to; a visible tree within the limits is answered exactly as the whole tree |
| Collector.NoReason | crates/bosn-generation/src/collector.rs:239-319 | in a tree within the limits no limit, duplicate or matcher error can be reported |
| Collector.EscapingTreeLoses | crates/bosn-generation/src/walk_prune.rs:90-110 | for all short plain names: the whole tree's selection holds the entry, the walk never comes to it, and nothing it can keep has that selection |
| Collector.EscapingExample | crates/bosn-generation/src/walk_prune.rs:90-110 | the same for a directory `x..` holding a file `y` |
| ActCoupling.StepKept | crates/bosn-registry/src/act.rs:526-900 | every transition keeps records valid and rows coupled, and no snapshot whose guard passed is refused as malformed |
| ActCoupling.RunsStayCoupled | crates/bosn-registry/src/act.rs:424-900 | over all interleaved runs: a run's resource and use rows exist exactly when its engine ID is set, active until Terminal, retired at Terminal |
| ActCoupling.OthersUntouched | crates/bosn-registry/src/act.rs:526-900 | no call touches the record or rows of a run it does not address |
| ActCoupling.FinalizeExact | crates/bosn-registry/src/act.rs:851-900 | finalization succeeds exactly for a matching proof on a CleanupRequired record, on time, with no lease, session or helper in the way |
| ActCoupling.RegisterKept | crates/bosn-registry/src/act.rs:640-699 | registration and crash recovery give the run its two active rows together with its ID, or are refused for a reason other than a malformed record |
| ActCoupling.FinalizeKept | crates/bosn-registry/src/act.rs:861-900 | finalization retires the run's rows together with its record, or is refused for a reason other than a malformed record |
| ActHistory.StepEffect | crates/bosn-registry/src/act.rs:564-900 | an accepted call found its guard true and rewrote exactly the addressed record |
| ActHistory.RunFollows | crates/bosn-registry/src/act.rs:470-475 | over any later calls intent, ID, claim, execution, outcome and removal are write-once, time and state never go back, Terminal is absorbing; only a spare's claim may change, once |
| ActHistory.EveryRecordExplained | crates/bosn-registry/src/act.rs:526-900 | in every run from an empty registry each field of a record is explained by an accepted call, in the right order |
| ActHistory.PassedHistory | crates/bosn-registry/src/act.rs:621-900 | a run ending Terminal and Passed was begun, registered from Pending, claimed, recorded Passed and sent to cleanup under that token, and removed under that engine ID, in that order |
| ActHistory.NothingTwice | crates/bosn-registry/src/act.rs:526-900 | begin, registration, claim, hand-over, execution, cleanup and removal are each accepted at most once per run |
| ActHistory.RecoveredNeverRuns | crates/bosn-registry/src/act.rs:626-650 | an engine identified by crash recovery is never claimed, handed over or executed, before or after |
| ActHistory.RecoveredNeverPasses | crates/bosn-registry/src/act.rs:626-650 | such an engine keeps its recovered ID and never ends Passed |
| ActRegistry.VerifyExact | crates/bosn-registry/src/act.rs:596-620 | in a sound registry an observation is accepted exactly when the run is recorded and it shows that record's name, image, labels and ID |
| ActRegistry.BeginExact | crates/bosn-registry/src/act.rs:526-562 | a run is begun exactly when its intent is valid with a profile, it has no record and the journal admits it |
| ActRegistry.RequestCreateExact | crates/bosn-registry/src/act.rs:564-575 | a create request is accepted exactly on a Pending record at a finite time |
| ActRegistry.MarkUncertainExact | crates/bosn-registry/src/act.rs:578-593 | the legacy mark is accepted exactly on a CleanupRequired record without an ID or a create flag, on time |
| ActRegistry.RegisterExact | crates/bosn-registry/src/act.rs:640-699 | an ID is registered exactly when the observation is recognised, the record awaits one, and no container row bears the engine's name; the run's own row can never be in the way, and its new row is given field by field |
| ActRegistry.ClaimExact | crates/bosn-registry/src/act.rs:702-724 | execution is claimed exactly on a Registered, unclaimed record of that intent, on time |
| ActRegistry.ClaimSpareExact | crates/bosn-registry/src/act/spare.rs:92-126 | a spare is handed over exactly by its holder, once, to another token, before anything ran |
| ActRegistry.RecordExact | crates/bosn-registry/src/act.rs:767-788 | an execution is recorded exactly once and by the claim's holder |
| ActRegistry.CleanupExact | crates/bosn-registry/src/act.rs:791-836 | cleanup is requested exactly from Pending or Registered under the current claim, as passed only after a passed execution |
| ActRegistry.RemoveExact | crates/bosn-registry/src/act.rs:861-900 | removal is accepted exactly with the matching proof and nothing in the way, and then retires the run's one resource row and one use row |
| ActRegistry.Registry.LoadRecord | crates/bosn-registry/src/act.rs:492-520 | a valid registry answers with the stored record, valid and its own, or none; only a malformed run ID is an error |
| ActRegistry.Registry.VerifyEngine | crates/bosn-registry/src/act.rs:596-620 | on a valid registry accepted exactly for the engine the stored record speaks of, with that record; each refusal has its one reason |
| ActRegistry.Registry.BeginEngine | crates/bosn-registry/src/act.rs:526-562 | accepted exactly for a valid, unrecorded, admitted intent, and then adds its fresh record and nothing else; validity is kept, and a refusal changes nothing and is never a malformed row or snapshot |
| ActRegistry.Registry.RequestEngineCreate | crates/bosn-registry/src/act.rs:564-575 | accepted exactly on a Pending record, and then sets its create flag and raises its time; no other record or row changes; validity is kept, and a refusal changes nothing and is never a malformed row or snapshot |
| ActRegistry.Registry.MarkCreateUncertain | crates/bosn-registry/src/act.rs:578-593 | accepted exactly on an ID-less record awaiting cleanup without a create flag, and then sets the flag; no other record or row changes; validity is kept, and a refusal changes nothing and is never a malformed row or snapshot |
| ActRegistry.Registry.RegisterIdentity | crates/bosn-registry/src/act.rs:640-699 | accepted exactly for the recognised engine of a record awaiting an ID whose name is free, and then gives the run its ID, one active resource row and one active use together; other runs keep their record and rows; validity is kept, and a refusal changes nothing and is never a malformed row or snapshot |
| ActRegistry.Registry.ClaimExecution | crates/bosn-registry/src/act.rs:702-724 | accepted exactly on an unclaimed Registered record of that intent, and then sets its claim; no other record or row changes; validity is kept, and a refusal changes nothing and is never a malformed row or snapshot |
| ActRegistry.Registry.HandOverSpare | crates/bosn-registry/src/act/spare.rs:92-126 | accepted exactly by a spare's holder before anything ran, and then moves the claim and binds the spare; no other record or row changes; validity is kept, and a refusal changes nothing and is never a malformed row or snapshot |
| ActRegistry.Registry.RecordRun | crates/bosn-registry/src/act.rs:767-788 | accepted exactly once and by the claim's holder, and then sets the execution; no other record or row changes; validity is kept, and a refusal changes nothing and is never a malformed row or snapshot |
| ActRegistry.Registry.RequestEngineCleanup | crates/bosn-registry/src/act.rs:791-836 | accepted exactly under the current claim, as passed only after a passed execution, and then fixes the outcome; no other record or row changes; validity is kept, and a refusal changes nothing and is never a malformed row or snapshot |
| ActRegistry.Registry.FinalizeCleanup | crates/bosn-registry/src/act.rs:861-900 | accepted exactly with the matching proof and nothing in the way, and then closes the record and retires its two rows together; other runs keep their record and rows; validity is kept, and a refusal changes nothing and is never a malformed row or snapshot |
| ActRegistry.Registry.PassedInOrder | crates/bosn-registry/src/act.rs:621-900 | a run an object ended Passed went through begin, registration, claim, recording, cleanup and removal in that order in the object's own log |
| Journal.AppendAgrees | crates/bosn-registry/src/ci_state.rs:223-285 | one append, live or imported under any free ID, keeps the tables in agreement with the history |
| Journal.RemovedAgrees | crates/bosn-registry/src/ci_state/retention.rs:133-155 | removing a key leaves the tables in agreement with what was appended for the others |
| Journal.JournalAgrees | crates/bosn-registry/src/ci_state.rs:170-285 | after any mix of live writes, out-of-order imports and removals each current row is the snapshot with the largest ID appended for its key since it was last forgotten, each tail is its min(3, n) largest IDs, and the snapshot rows left in `events` are exactly the tails |
| Journal.ForgetComplete | crates/bosn-registry/src/ci_state/retention.rs:133-155 | in every run the bounded read of the tail misses nothing, and a removal leaves no current row, tail or event of the key and touches no other key |
| Journal.LiveInstalls | crates/bosn-registry/src/ci_state.rs:253-283 | a live write gets the next ID, above every ID ever given, those of forgotten keys included, and becomes its key's current row |
| JournalWriter.Writer.LargestId | crates/bosn-registry/src/ci_state.rs:273-278 | the newest tail ID of a key, or none |
| JournalWriter.Writer.RowAtOffset | crates/bosn-registry/src/ci_state.rs:206-212 | the row at offset three in descending order, or none |
| JournalWriter.Writer.RetainEvent | crates/bosn-registry/src/ci_state.rs:192-221 | the new ID enters the tail and the fourth largest leaves it together with its event |
| JournalWriter.Writer.AppendEvent | crates/bosn-registry/src/ci_state.rs:223-285 | the write path does exactly the specified append or changes nothing, and the tables agree with everything this writer accepted |
| JournalWriter.Writer.ForgetKey | crates/bosn-registry/src/ci_state/retention.rs:133-155 | the deletes leave nothing of the key, change no other key's rows or the ID sequence, and the tables agree with the rest of the history |
| CacheHelper.StepSound | crates/bosn-registry/src/cache_helper.rs:243-419 | every helper row stays valid and no transition writes or meets a malformed one |
| CacheHelper.StepEffect | crates/bosn-registry/src/cache_helper.rs:328-419 | what each accepted helper call found and what it wrote |
| CacheHelper.RunFollows | crates/bosn-registry/src/cache_helper.rs:356-419 | until it is forgotten a helper keeps one container ID, moves only forward in state and time, and Removed is absorbing |
| CacheHelper.RemovedExplained | crates/bosn-registry/src/cache_helper.rs:387-419 | a Removed row came from Created with that exact ID, or from an ID-less Pending at least 630 seconds after creation |
| CacheHelper.ReRegisterIdle | crates/bosn-registry/src/cache_helper.rs:373-378 | registering the same container again writes nothing |
| CacheHelper.BeginExact | crates/bosn-registry/src/cache_helper.rs:326-354 | an intent is begun exactly when it is valid, ours, its nonce is not recorded, it postdates the floor and capacity admits it |
| CacheHelper.NonceReuse | crates/bosn-registry/src/ci_state/retention.rs:67-71 | a nonce begun twice was forgotten in between and the second intent is strictly younger |
| CacheHelper.ReplayRefused | crates/bosn-registry/src/cache_helper.rs:326-334 | no intent is ever begun twice |
| CacheHelper.NonceBegunAgain | crates/bosn-registry/src/cache_helper.rs:326-334 | for all pairs of intents with one nonce, the younger is accepted once the older is removed and forgotten |
| CacheHelper.SampleBegunAgain | crates/bosn-registry/src/cache_helper.rs:326-334 | a concrete pair of intents with one nonce, both begun |
| HelperJournal.RegisterExact | crates/bosn-registry/src/cache_helper.rs:358-383 | a container is registered exactly on a Pending helper, or again as the container already registered |
| HelperJournal.FinishExact | crates/bosn-registry/src/cache_helper.rs:387-401 | removal is accepted exactly for the registered container, on time |
| HelperJournal.AbsentExact | crates/bosn-registry/src/cache_helper.rs:405-419 | a helper is removed unseen exactly when it is Pending and the late-create window has passed |
| HelperJournal.ForgetExact | crates/bosn-registry/src/ci_state/retention.rs:157-227 | a row is forgotten exactly when it is Removed, expired and unreferenced |
| HelperJournal.HelperRegistry.Load | crates/bosn-registry/src/cache_helper.rs:280-297 | valid rows are answered as stored; only a malformed nonce is an error |
| HelperJournal.HelperRegistry.Begin | crates/bosn-registry/src/cache_helper.rs:328-354 | accepted exactly for a valid intent of this registry with an unrecorded nonce, younger than the floor and admitted, and then adds its Pending row and nothing else; rows stay sound, and a refusal changes nothing and is never a malformed row |
| HelperJournal.HelperRegistry.Register | crates/bosn-registry/src/cache_helper.rs:358-383 | accepted exactly on a Pending helper or again for the same container, which then writes nothing; afterwards the row is Created with that ID and no other row changes; rows stay sound, and a refusal changes nothing and is never a malformed row |
| HelperJournal.HelperRegistry.Finish | crates/bosn-registry/src/cache_helper.rs:387-401 | accepted exactly for the registered container, and then the row is Removed and no other changes; rows stay sound, and a refusal changes nothing and is never a malformed row |
| HelperJournal.HelperRegistry.FinishMissing | crates/bosn-registry/src/cache_helper.rs:405-419 | accepted exactly on a Pending row past the late-create window, and then the row is Removed and no other changes; rows stay sound, and a refusal changes nothing and is never a malformed row |
| HelperJournal.HelperRegistry.Forget | crates/bosn-registry/src/ci_state/retention.rs:157-227 | accepted exactly for a Removed, expired, unreferenced row, and then drops that row alone and raises the floor to cover its creation and no further; rows stay sound, and a refusal changes nothing and is never a malformed row |
| HelperJournal.HelperRegistry.Spent | crates/bosn-registry/src/ci_state/retention.rs:67-71 | an intent an object once began is never begun by it again, whatever it has forgotten since |
| Paging.PageIsSlice | crates/bosn-registry/src/cache_helper.rs:428-459 | the page after a cursor is the next slice of the ordered listing, and its cursor names the last row read |
| Paging.FollowPending | crates/bosn-registry/src/cache_helper.rs:428-459 | following `next_nonce` from the start ends and reads the whole listing once, in order, whatever limit each request uses |
| Paging.ListedOnce | crates/bosn-registry/src/cache_helper.rs:441-443 | each pending helper is in the listing exactly once and no removed one is |
| Paging.OffsetSlice | crates/bosn-registry/src/read_only.rs:133-168 | a page at an offset is the next slice under the clamped limit, with the next offset exactly when more rows follow |
| Paging.FollowOffsets | crates/bosn-registry/src/read_only.rs:133-168 | following `next_offset` from zero ends and reads the whole table once, in order, exactly when no page of that run is over its byte limit; otherwise it stops at the first page that is |
| Ownership.OwnershipExact | crates/bosn-core/src/unmanaged.rs:588-608 | an object is ours exactly when the complete label set names this registry |
| Ownership.BosnLabelExact | crates/bosn-core/src/unmanaged.rs:611-617 | a label is bosn's exactly when it is the namespace itself or lies under it |
| Retention.ClassifyExact | crates/bosn-core/src/retention.rs:287-348 | each of the nine verdicts, free included, with its exact condition; the age gate is the container, volume or image gate by the object's own kind; identity, age and size are carried over |
| Retention.Needed | crates/bosn-core/src/retention.rs:497-504 | the least number of oldest volumes whose removal brings the rest within budget, or all of them |
| Retention.PromotionExact | crates/bosn-core/src/retention.rs:464-516 | the freed volumes are eligible and none is younger than an eligible one left; one fewer would not fit the budget, and the rest fits unless nothing eligible is left |
| Retention.SelectedJustified | crates/bosn-core/src/retention.rs:419-516 | everything selected before the caps is proven ours, idle, unpinned, of known age, and past its gate or, for volumes, the idle floor |
| Retention.SelectedComplete | crates/bosn-core/src/retention.rs:419-516 | every reclaimable object past its gate is selected, and so is every obsolete volume past the idle floor, with its reason |
| Retention.RecheckPasses | crates/bosn-core/src/retention.rs:188-198 | the re-check before a removal passes exactly the objects some rule of the plan could have selected, and holds by age exactly those below their own gate and, for a volume, below the idle floor too |
| Retention.PressureMonotone | crates/bosn-core/src/retention.rs:165-186 | for an absent or non-negative budget, what the normal policy selects is contained, with multiplicity, in what the pressured policy selects |
| Retention.PressureGates | crates/bosn-core/src/retention.rs:165-176 | under pressure a container is held by age exactly below its gate and below an hour; the other gates do not move |
| Retention.PressureFrees | crates/bosn-core/src/retention.rs:165-176 | under pressure every idle, unpinned volume of this registry past the floor and of positive measured size is selected |
| Retention.UnmeasuredLeft | crates/bosn-core/src/retention.rs:165-176 | a volume of unknown size short of its own gate is left under pressure |
| Retention.NegativeBudget | crates/bosn-core/src/retention.rs:165-176 | with a negative budget the normal policy selects an empty idle volume that the pressured one leaves |
| Retention.CapsHold | crates/bosn-core/src/retention.rs:523-554 | kept plus deferred is everything, at most 1024 are kept, and bytes never exceed max(0, ceiling) |
| Retention.CapsExact | crates/bosn-core/src/retention.rs:523-554 | a candidate is kept exactly when fewer than 1024 were kept before it and, under a ceiling, its size is known and fits on top of theirs |
| Retention.SaturateExact | crates/bosn-core/src/retention.rs:523-554 | byte sums are exact within 128 bits and stop at its bounds |
| Retention.CapsKeepOrder | crates/bosn-core/src/retention.rs:523-554 | capping keeps the removal order and adds nothing |
| Retention.PlanConserves | crates/bosn-core/src/retention.rs:419-455 | candidates plus held plus deferred equals the number observed |
| Retention.PlanSafe | crates/bosn-core/src/retention.rs:419-554 | every candidate is justified by an observed object, survives the re-check, and the plan is ordered and capped |
| Retention.PlanOrder | crates/bosn-core/src/retention.rs:440-452 | candidates are containers, then volumes, then images; oldest first within a kind, then by ID |
| RetentionPlanner.Planner.Divide | crates/bosn-core/src/retention.rs:425-437 | the verdicts are divided in order into reclaimable and held |
| RetentionPlanner.Planner.PromoteObsolete | crates/bosn-core/src/retention/eager.rs:131-155 | removing in place while scanning takes exactly the obsolete idle volumes past the floor and keeps the order of the rest |
| RetentionPlanner.Planner.ChooseOldest | crates/bosn-core/src/retention.rs:497-504 | the greedy loop takes exactly the needed prefix of the oldest-first order |
| RetentionPlanner.Planner.TakeOutDescending | crates/bosn-core/src/retention.rs:505-515 | removing positions from the highest down removes exactly those positions |
| RetentionPlanner.Planner.PromoteOverIdleBudget | crates/bosn-core/src/retention.rs:464-516 | exactly the shortest oldest-first prefix that fits the budget is freed; the rest keep their order and nothing is lost |
| RetentionPlanner.Planner.ApplyBudget | crates/bosn-core/src/retention.rs:523-554 | the in-place pass computes the specified caps |
| RetentionPlanner.PlanManaged | crates/bosn-core/src/retention.rs:419-455 | the whole pass yields a plan of the policy |
| Unmanaged.OneVerdict | crates/bosn-core/src/unmanaged.rs:494-586 | every object is in exactly one class or protected for exactly one reason |
| Unmanaged.ClassMeaning | crates/bosn-core/src/unmanaged.rs:494-586 | each class holds exactly the objects of its shape that are nobody's, idle and of known age, plus this registry's own dangling images; the gate is age alone |
| Unmanaged.ReasonMeaning | crates/bosn-core/src/unmanaged.rs:494-586 | each of the six reasons to protect an object with its exact condition |
| Unmanaged.PinnedExact | crates/bosn-core/src/unmanaged.rs:506-548 | exactly when a pinned object is not protected |
| Unmanaged.PinnedUnprotected | crates/bosn-core/src/unmanaged.rs:506-548 | an image with the complete label set of this registry and a pin, dangling and idle, is classed as reclaimable at every known age |
| Unmanaged.TakeCensus | crates/bosn-core/src/unmanaged.rs:671-760 | each entry sums exactly the objects of its class or reason, including counts past the gate and the oldest age |
| Unmanaged.OldestExact | crates/bosn-core/src/unmanaged.rs:671-760 | the reported age is that of a counted object and none of known age is older |
| Unmanaged.CensusConserves | crates/bosn-core/src/unmanaged.rs:671-760 | every object is counted once and every measured byte lands in exactly one total |
| Unmanaged.BuildPlan | crates/bosn-core/src/unmanaged.rs:269-344 | the loop gathers exactly the removable, reviewable and report-only objects with their bytes |
| Unmanaged.CensusAndPlanAgree | crates/bosn-core/src/unmanaged.rs:269-344 | plan bytes equal census bytes and candidates plus unmeasured ripe objects equal census objects, up to what an include adds |
| Unmanaged.ReportsAgree | crates/bosn-core/src/unmanaged.rs:301-316 | report-only bytes and counts agree with the census |
| Unmanaged.PlanPermitted | crates/bosn-core/src/unmanaged.rs:269-356 | nothing foreign, in use, young or unmeasured is planned; containers come first, volumes last, and no build cache is removed |
| Unmanaged.PlanExact | crates/bosn-core/src/unmanaged.rs:269-344 | exactly which objects are removed, which await an include by identity, and which are only reported |
| Unmanaged.PlanComplete | crates/bosn-core/src/unmanaged.rs:269-344 | every such object is in the plan, under its identity and size |
| MatrixJson.EquivEncodesSame | crates/bosn-core/src/act_coverage.rs:19-55 | values equal up to key order print the same |
| MatrixJson.CanonicalIsEncode | crates/bosn-core/src/act_coverage.rs:19-55 | sorting keys first changes nothing that is printed |
| MatrixJson.PrefixFree | crates/bosn-core/src/act_coverage.rs:32-54 | a printed float-free value is never continued into another one by what follows it in a list or object |
| MatrixJson.EncodeFixes | crates/bosn-core/src/act_coverage.rs:32-54 | equal printed texts of float-free values mean values equal up to key order |
| MatrixJson.CanonicalJsonExact | crates/bosn-core/src/act_coverage.rs:19-56 | canonical texts are equal exactly when the tuples are equal up to key order; what each text says is `JsonReader.CanonicalJsonSays` |
| JsonReader.DigitsSay | crates/bosn-core/src/act_coverage.rs:32-54 | the printed digits of a number denote that number, without a leading zero |
| JsonReader.IntRead | crates/bosn-core/src/act_coverage.rs:32-54 | every printed integer, of either sign, reads back as itself |
| JsonReader.TextRead | crates/bosn-core/src/act_coverage.rs:32-54 | every escaped text reads back as itself |
| JsonReader.EncodeSays | crates/bosn-core/src/act_coverage.rs:32-54 | every printed float-free value, whatever follows it, reads back as that value up to key order, with keys in order at every depth |
| JsonReader.CanonicalJsonSays | crates/bosn-core/src/act_coverage.rs:19-56 | the canonical JSON of a tuple reads back as its axes and nothing else |
| MatrixJson.CostIsSize | crates/bosn-core/src/act_coverage.rs:67-120 | the size counted without printing is the printed UTF-8 length |
| MatrixJson.Validate | crates/bosn-core/src/act_coverage.rs:57-134 | acceptance exactly characterises the bounds, and the final counter is the canonical byte length, at most 32768 |
| MatrixJson.ShapedExact | crates/bosn-core/src/act_coverage.rs:67-120 | the shape test holds exactly for values without floats, with keys of 1 to 64 bytes free of control characters, and at most eight levels deep |
| MatrixJson.ShapedIsFloatFree | crates/bosn-core/src/act_coverage.rs:98-103 | accepted values hold no floats, so the printing theorem applies to them |
| Coverage.Reconcile | crates/bosn-core/src/act_coverage.rs:204-352 | accepted exactly for admissible inventories with valid matrices, and each refusal names a fault that is there; covered, failed, skipped and unsupported are reported exactly when the evidence shows that outcome; the flags say that every cell, or every cell not confined to GitHub, shows success |
| Coverage.DecidedExact | crates/bosn-core/src/act_coverage.rs:266-335 | covered, failed, skipped and unsupported, each by name, exactly when one graph entry and one observation, both from the producer and fully identified, show success, failure, a skip or no support, and no other cell claims the tuple |
| Coverage.DecidedMeaning | crates/bosn-core/src/act_coverage.rs:271-330 | the evidence behind an outcome, field by field |
| Coverage.UndecidedExact | crates/bosn-core/src/act_coverage.rs:266-335 | each of the five other reasons with its exact condition |
| Coverage.ResolvedExact | crates/bosn-core/src/act_coverage.rs:269-290 | a cell stands for its own matrix, or for the empty one exactly when the one graph entry of its job comes from the producer and has none |
| Coverage.CoveredHasEvidence | crates/bosn-core/src/act_coverage.rs:271-330 | a covered cell has exactly one matching producer-graph entry and one successful producer execution |
| Coverage.FullCoverageInjective | crates/bosn-core/src/act_coverage.rs:204-352 | under full coverage no graph entry and no observation serves two cells |
| Coverage.OrderIndependent | crates/bosn-core/src/act_coverage.rs:266-335 | a cell's verdict is unchanged by permuting the graph or the observations |
| Digest.FieldFixes | crates/bosn-generation/src/lib.rs:599-602 | length framing is uniquely decodable whatever follows |
| Digest.BigEndianSays | crates/bosn-generation/src/lib.rs:599-602 | the framing bytes denote the length, most significant first |
| Digest.BytesLeExact | crates/bosn-generation/src/lib.rs:214-217 | texts are hashed in dictionary order of their bytes |
| Digest.StackFixes | crates/bosn-generation/src/lib.rs:501-594 | equal streams mean equal hashed stack fields and equal remainders |
| Digest.UnlayeredMountsCollide | crates/bosn-generation/src/lib.rs:520-552 | two stacks that differ in a hashed mount and have one content stream, when an overlay may name no upper; stated for all mounts whose lists are in hashing order |
| Digest.CollidingNames | crates/bosn-generation/src/lib.rs:520-552 | mount names for which both lists are in hashing order |
| Digest.ContentForgetsOrder | crates/bosn-generation/src/lib.rs:214-217 | the stream does not depend on the order entries were observed in |
| Digest.ContentExact | crates/bosn-generation/src/lib.rs:198-251 | two inputs have the same stream exactly when their hashed stack fields agree and they hold the same typed entries |
| Digest.StackFields | crates/bosn-generation/src/lib.rs:501-594 | the step-by-step appends produce the specified stream |
| Digest.ContentStream | crates/bosn-generation/src/lib.rs:198-251 | accepted exactly when the roots agree and every path is relative and listed once; errors name a real culprit |
| StreamLayout.StackLayout | crates/bosn-generation/src/lib.rs:501-594 | the stack part of every stream is its table of fields, tags, counts and sorted lists in this order |
| StreamLayout.ContentLayout | crates/bosn-generation/src/lib.rs:198-251 | the content stream is its version tag, the stack part and the sorted entries, piece by piece |
| StreamLayout.MountsInOrder | crates/bosn-generation/src/lib.rs:520-552 | mounts are hashed in order of name, source, destination, mode and upper |
| GenerationKeys.ResolvedFixes | crates/bosn-generation/src/lib.rs:255-277 | without a count the resolved stream still fixes the content and everything it reads of each image |
| GenerationKeys.ResolvedExact | crates/bosn-generation/src/lib.rs:255-277 | for images that state no empty platform, resolved keys agree exactly when the contents and the resolved images agree |
| GenerationKeys.CoalescingFixes | crates/bosn-generation/src/lib.rs:470-499 | the coalescing stream fixes the content and everything it reads of each image |
| GenerationKeys.CoalescingExact | crates/bosn-generation/src/lib.rs:468-499 | for images that state no empty platform, coalescing keys agree exactly when the contents and the images agree, repeats and unresolved ones included |
| GenerationKeys.IdentityFixes | crates/bosn-generation/src/lib.rs:468-499 | an unresolved image is never read as one resolved to the sentinel, nor the reverse |
| GenerationKeys.EmptyPlatformCollides | crates/bosn-generation/src/lib.rs:255-277 | an image with an empty platform has both keys of the same image without a platform |
| GenerationKeys.KindsApart | crates/bosn-generation/src/lib.rs:198-277 | no resolved key, coalescing key and content digest have the same stream |
| GenerationKeys.ResolvedStream | crates/bosn-generation/src/lib.rs:255-277 | refused exactly for an image without an identity, which it names; otherwise the appends produce the stream whose decoding is proved |
| GenerationKeys.CoalescingStream | crates/bosn-generation/src/lib.rs:470-499 | the appends produce the coalescing stream for every list of images |
| StreamLayout.KeyLayout | crates/bosn-generation/src/lib.rs:255-277 | the two generation keys are their version tag, the content digest and the sorted images, piece by piece |
| Resolver.StreamCommand | crates/bosn-generation/src/resolver.rs:424-451 | a command is answered exactly when time is left, the transport holds and its output fits what is left; otherwise the error says which failed; output plus remaining budget equals the limit |
| Resolver.TrimExact | crates/bosn-generation/src/resolver.rs:490-517 | trimming takes white space off both ends and nothing else |
| Resolver.PhrasesRead | crates/bosn-generation/src/resolver.rs:490-496 | each of the daemon's four lines about an image is read as its absence |
| Resolver.RequestExact | crates/bosn-generation/src/resolver.rs:283-306 | a request is sent exactly when it has at most 256 images and each reference and platform is a non-empty argument of at most 4096 bytes |
| Resolver.ResolveOne | crates/bosn-generation/src/resolver.rs:312-396 | the replies fix the result: shown at once, absent and only read, or absent, pulled and shown gives that receipt after exactly those commands; every error names the reply behind it |
| Resolver.RepliesDecide | crates/bosn-generation/src/resolver.rs:312-396 | the replies allow one receipt and one sequence of commands, and never an error beside it |
| Resolver.ShownAtOnce | crates/bosn-generation/src/resolver.rs:312-396 | an image shown at once is answered with the printed digest under either policy, by one command |
| Resolver.AbsentIsPulled | crates/bosn-generation/src/resolver.rs:312-396 | an absent image that may be pulled is inspected, pulled and inspected again, and answered with what the last reply printed |
| Resolver.ResolveImages | crates/bosn-generation/src/resolver.rs:275-398 | succeeds exactly when the request is well formed, not cancelled and every distinct image resolves in turn from the replies; a failure is that of the first image that does not; nothing is sent for a bad request, read-only never pulls, the budget balances |
| Resolver.NeverBoth | crates/bosn-generation/src/resolver.rs:275-398 | the replies that make one request fail do not let it succeed |
| ImageReceipts.NeighboursSuffice | crates/bosn-generation/src/lib.rs:402-409 | in sorted order comparing neighbours finds every repeat |
| ImageReceipts.ReceiptsInOrder | crates/bosn-generation/src/lib.rs:400-401 | canonical order is by reference, then by platform with an unstated one first |
| ImageReceipts.CanonicalObserved | crates/bosn-generation/src/lib.rs:396-435 | accepted exactly when images are distinct, well formed and identified; a refusal names an image with that fault |
| ImageReceipts.CanonicalRequired | crates/bosn-generation/src/lib.rs:437-460 | accepted exactly when well formed, and then holds each image once and in order; a refusal names an image with that fault |
| ImageReceipts.ValidateResolved | crates/bosn-generation/src/lib.rs:282-305 | accepted exactly when the observations cover the requirements, each once and identified; every refusal is explained by the image it names |
| ImageReceipts.ResolutionAccepted | crates/bosn-generation/src/lib.rs:279-305 | for every engine behaviour a successful resolution with pulls is accepted exactly when the requirements are well formed |
| ImageReceipts.ResolveForBuild | crates/bosn-generation/src/resolver.rs:275-398 | resolving and then validating never turns away well-formed requirements that resolved |

## Left out

- Real filesystem, Docker, SSH, SQLite and async behaviour: trees, maps and arbitrary answers stand in for them; a failed transaction is rolled back by its caller.
- Collector.Collect: equality with the whole tree is stated for the patterns the reach test is right for, without which it fails (`Collector.EscapingTreeLoses`); the second pass, which reads file contents under byte limits, is not modelled.
- WalkPrune.PrunedBeneath: needs the pattern conditions shown necessary by the two families; an exact condition would have to decide whether a pattern can match anything at all.
- Tool recovery of engines (`act/recovery*.rs`) and its helper roles: records are modelled without those fields, and their admission tests are one verdict.
- Coverage.Reconcile: matrices enter as their canonical text together with the verdict of their validation; a refusal does not say which bound a matrix broke.
- Label text, creation-profile field tests and SHA-256: label coverage and profile validity enter as verdicts, digests as byte streams.
- Forgetting Terminal engine records: `CacheHelper` models the retention pass for helpers and `Journal` what it deletes for any key; engines are modelled while their record is kept.
- CI snapshot flags (`pending`, `collectible` and their kin): carried by the journal unchanged; each is one branch of its record.
- The facts behind the eager rules (missing workspaces, family caps): the planner is proved for every answer they may give about a volume.
- Overflow of the idle-volume total: summed as an unbounded integer; the capped pass saturates as the code does.
- Not-a-number and infinite ages: ages are finite or unknown, as the observers produce them.
- Selection and retention of order among images or volumes equal in kind, age and ID: such verdicts are interchangeable in the plan.
- Dockerfile and ignore-file parsing, manifest and Compose validation, platform-variable expansion, the CPU and pressure policies of `bosn-core/src/lib.rs`, SQL query text, the Python bindings and release tooling: each would add members settled by reading one function.
