# Verified model of the DOR control plane

This project models the parts of the repository whose correctness is hard to see by reading, and
proves what they promise for every input, every reachable state and every interleaving. Check it with

    dafny verify dfyconfig.toml

## What is modelled

| part | modules |
|---|---|
| Swarm runner: workers, healer, sentinel and shutdown as an interleaving transition system, and its lock-protected loops | `Swarm`, `SwarmSafety`, `SwarmRunner`, `SwarmRaces`, `SwarmRaceRun`, `SwarmShutdown`, `SwarmOutcomes` |
| Condition language: evaluator with errors, its loops, its laws, the values it computes | `Conditions`, `ConditionInterpreter`, `ConditionLaws`, `ConditionErrors`, `ConditionValues` |
| Canonical JSON in both spellings, with a reader; UTF-8 | `JsonStrings`, `CanonicalJson`, `PythonJson`, `RawJson`, `JsonText`, `Utf8` |
| Architecture contract v1: dictionaries, loading, validation, fingerprint, approval; exception matching | `Contract`, `ContractLoading`, `ContractChecks`, `ContractRoundTrip`, `ContractIdentity`, `ExceptionPaths`, `ExceptionLookup` |
| Proposal, apply and delivery provenance | `ProposalScope`, `ProposalRequest`, `ApplyVerification`, `RestoreLaws`, `Delivery`, `DeliveryAcceptance`, `DeliveryLaws` |
| Release gate: collector, evaluator, polling | `ReleaseEvidence`, `ReleaseCandidate`, `ReleaseGate`, `ReleasePolling`, `ReleaseStatus` |
| Realtime transport: queue, reconnect loop, SSE parser | `EventQueue`, `Reconnect`, `SseParser`, `SseStandard` |
| Build identity: source fingerprint and baked metadata | `BuildIdentity`, `BuildCollisions`, `BuildMetadata` |
| Case workbench and operator overview | `CaseProjection`, `CaseStates`, `Workbench`, `WorkbenchLaws`, `Overview` |
| Vocabulary: options, counting, string order, stable sorting, Python text and values | `Collections`, `Orders`, `StableSort`, `SortKeys`, `StringSort`, `PyText`, `PyValues` |

Code that updates variables in loops or changes state in place is a method or a class, proved equal
to a specification function or predicate; the theorems are about those specifications. What an
operation accepts and returns is besides stated on the raw records, field by field, with the source's own
words and numbers written out, in the modules whose lemmas end in `Iff`. Digests,
case mapping, ISO timestamps, clocks, the network and bracket expressions of `fnmatch` are
parameters. "No collision on these two inputs" appears only as a hypothesis of a lemma.

## What the proofs found

- A task can end up MERGED and still carry the error of an earlier rejection. `TaintReachableIff`
  gives the exact condition: some worker can run a task with the id `T-05`.
- `all_terminal` never differs from `project_complete`: nothing ever records exhausted retries.
- `evaluate` does not turn every failure into a condition error: an index error escapes exactly when
  evaluation reaches a subscript that is out of range (`EscapeIff`), for instance on `[][0]`.
- An approved contract whose required strings carry outer blanks cannot be reloaded, nor can one with a timeout
  that is no integer; approving a draft gives a reloadable contract exactly when it has neither
  (`ApprovedReloadsIff`, with a concrete draft in `PaddedDraftIsLost`).
- The fingerprint's pre-image does not identify every file tree. Every tree of two or more included files has a
  twin that hashes the same bytes, and a single file has one exactly when its content spells, between NULs, the
  record of a later source file (`TwinIff`). A tree without NUL bytes is still told apart from every tree of at
  least as many files (`PreImageIdentifies`).
- Baking the revision "none" reports it, resolving it falls back (`NoneIsReportedButNotResolved`).
- An exception whose pattern starts with a dot, `.github/**` included, covers nothing
  (`DottedPatternNeverMatches`), and neither does one with a backslash (`BackslashNeverMatches`); every other
  pattern without brackets covers at least itself (`UsefulIff`).
- The view of externally waiting cases is always empty (`NeverProjected`, `GroupsPartition`).
- The SSE parser keeps an event type across a blank line without data and gives it to the next event, where
  the standard fires a plain message (`StaleType`).
- A request that the case page extended by two keys is refused when it is restored (`CaseRequestIsRefused`).
- Two projects that share an id count their executions twice (`ExecutionsAreConserved`).

## Model

| member | source | states |
|---|---|---|
| `SwarmSafety.ReachableInv` | cli/run_swarm.py:144-271 | the ownership, healer and counter invariant holds in every reachable state of every interleaving |
| `SwarmSafety.ExclusiveOwnership` | cli/run_swarm.py:207-262 | a task in flight is held by exactly one worker, the recorded one, and that worker's capabilities cover it |
| `SwarmSafety.SettledTasksAreFree` | cli/run_swarm.py:178-262 | a pending, failed or merged task is held by no worker that can still write its status |
| `SwarmSafety.CountersConserved` | cli/run_swarm.py:144-262 | passes, rejections and claims equal what tasks, healer actions and workers between count and write account for |
| `SwarmSafety.StaleWritesAreCosmetic` | cli/run_swarm.py:252-262 | a worker that does not own a task changes only its error and merge status, and only from two program points |
| `SwarmSafety.TerminalMeansComplete` | cli/run_swarm.py:286-301 | in every reachable state the two completion tests agree |
| `SwarmSafety.MergedIsForever` | cli/run_swarm.py:252-262 | along every continuation a merged task stays merged |
| `SwarmSafety.CompletionIsStable` | cli/run_swarm.py:297-301 | once the project is complete it stays complete |
| `SwarmRunner.SwarmState.Claim` | cli/run_swarm.py:207-222 | the scan claims the first pending task that is covered, and changes nothing else |
| `SwarmRunner.SwarmState.HealerPass` | cli/run_swarm.py:178-191 | one pass requeues exactly the failed tasks without exhausted retries, clearing all but their identity, and counts them |
| `SwarmRunner.SwarmState.SentinelPass` | cli/run_swarm.py:159-175 | one pass advances the tick and raises one alert per failed task |
| `SwarmRunner.HealerPassIsARun` | cli/run_swarm.py:178-191 | the healer's pass is a run of the transition system from any state in which it holds the lock |
| `SwarmRunner.CheckProjectComplete` | cli/run_swarm.py:297-301 | the scan answers whether there are tasks and all are merged |
| `SwarmRaces.RunKeepsExplained` | cli/run_swarm.py:144-262 | along every run errors exist only if a worker covers a suspect task; identities and capabilities never change |
| `SwarmRaces.TaintNeedsExposure` | cli/run_swarm.py:144-262 | a merged task with an error implies that some worker covers a suspect task |
| `SwarmRaceRun.LocalSteps` | cli/run_swarm.py:232-262 | alone, a worker takes its task through exactly the local program and touches nothing else |
| `SwarmRaceRun.RaceRun` | cli/run_swarm.py:178-262 | a run in which a requeue overtakes the late writes and the task is merged with the old error |
| `SwarmRaceRun.TaintReachableIff` | cli/run_swarm.py:144-262 | from an initial configuration such a state is reachable if and only if some worker covers a suspect task |
| `SwarmShutdown.ShutdownIsBounded` | cli/run_swarm.py:205-271 | after the stop event, in every schedule, a worker takes at most eleven more steps and only workers already scanning claim, one task each |
| `SwarmShutdown.EnoughStepsExit` | cli/run_swarm.py:205-271 | a worker that has taken as many steps as its rank has exited |
| `SwarmShutdown.ShutdownCanComplete` | cli/run_swarm.py:425-431 | from every reachable stopped state some run brings every worker to its exit |
| `SwarmOutcomes.OneRejectInSeven` | cli/run_swarm.py:144-156 | of any seven consecutive tick values exactly one rejects `T-05`, the initial value does, and no value rejects another task |
| `SwarmOutcomes.ScanClaimsFirst` | cli/run_swarm.py:207-222 | a scan of the transition system claims exactly the first pending covered task for its worker and changes no other task |
| `SwarmOutcomes.SentinelPassIsARun` | cli/run_swarm.py:159-175 | the sentinel's steps, undisturbed, advance the tick by one, raise one alert per failed task and change nothing else |
| `SwarmOutcomes.MergedMeansComplete` | cli/run_swarm.py:178-262 | in every interleaving a merged task shows progress 1.0, but for the moment before its own worker writes it |
| `SwarmOutcomes.NoClaimAfterMarking` | cli/run_swarm.py:205-271 | from every reachable stopped state: once shutdown has marked the workers no schedule claims another task |
| `ConditionInterpreter.Interpret` | domain/condition_evaluator.py:49-107 | the evaluator with its loops computes the recursive evaluation function, whose values the `ConditionValues` rows state |
| `ConditionInterpreter.InterpretChain` | domain/condition_evaluator.py:97-106 | the comparison loop that moves `left` along computes the chain |
| `ConditionInterpreter.InterpretAnd` | domain/condition_evaluator.py:78-83 | the `and` loop stops at the first falsy operand and returns a boolean |
| `ConditionInterpreter.InterpretOr` | domain/condition_evaluator.py:84-88 | the `or` loop stops at the first truthy operand and returns a boolean |
| `ConditionValues.IntArithmetic` | domain/condition_evaluator.py:18-96 | `+`, `-`, `*` on integers give sum, difference and product, left operand first |
| `ConditionValues.IntDivision` | domain/condition_evaluator.py:18-96 | `/` gives the exact quotient, `%` a remainder with the divisor's sign, both an error on zero |
| `ConditionValues.IntComparisons` | domain/condition_evaluator.py:25-106 | the six comparisons of integers are the six relations, left operand first |
| `ConditionValues.MixedNumbers` | domain/condition_evaluator.py:25-106 | integers, reals and truth values compare with each other as numbers |
| `ConditionValues.TextOrder` | domain/condition_evaluator.py:25-106 | texts compare by code points |
| `ConditionValues.TextContainment` | domain/condition_evaluator.py:25-106 | a text is in another exactly when it is a part of it |
| `ConditionValues.Membership` | domain/condition_evaluator.py:25-106 | `in` and `not in` on lists of integers, `in` on lists of texts |
| `ConditionValues.Joining` | domain/condition_evaluator.py:18-96 | `+` joins texts and lists in order and refuses a text with a number |
| `ConditionValues.Signs` | domain/condition_evaluator.py:89-94 | unary minus, plus and `not` on integers |
| `ConditionValues.OperandsFail` | domain/condition_evaluator.py:74-96 | a failing operand fails the operation with its own error, the left one first |
| `ConditionValues.AndStops` | domain/condition_evaluator.py:78-83 | `and` is decided by the first operand that does not hold: its error, or false; true if there is none |
| `ConditionValues.OrStops` | domain/condition_evaluator.py:84-88 | `or` is decided by the first operand that does not fail: its error, or true; false if there is none |
| `ConditionValues.DisplaysAndNames` | domain/condition_evaluator.py:50-59 | lists and tuples have the values of their elements in order; a name has the context's value or is a missing key |
| `ConditionValues.ListElement` | domain/condition_evaluator.py:74-77 | the element at an index from the front or from the back, and an index error exactly outside |
| `ConditionValues.TextElement` | domain/condition_evaluator.py:74-77 | the same for the characters of a text |
| `ConditionValues.DisplayLookup` | domain/condition_evaluator.py:60-77 | a dictionary display answers a key, by subscript or attribute, with the last value given for it |
| `ConditionValues.ObjectAttribute` | domain/condition_evaluator.py:65-73 | a public attribute is the object's; one with a leading underscore is refused whatever the object holds |
| `ConditionValues.FalsyIff` | domain/condition_evaluator.py:40-47 | exactly eight values count as false |
| `ConditionValues.EvaluateMeans` | domain/condition_evaluator.py:40-47 | the answer is the truth of the parsed condition; a text of no or over 512 characters is a condition error |
| `ConditionLaws.Noninterference` | domain/condition_evaluator.py:49-107 | heaps that agree on public attributes and contexts that agree on the free names give the same value or error |
| `ConditionLaws.ContextExtension` | domain/condition_evaluator.py:52-55 | in a larger context every outcome but a missing key is unchanged |
| `ConditionLaws.FlattenAnd` | domain/condition_evaluator.py:78-83 | a nested conjunction may be spliced in anywhere, errors included |
| `ConditionLaws.FlattenOr` | domain/condition_evaluator.py:84-88 | a nested disjunction may be spliced in anywhere, errors included |
| `ConditionLaws.DeMorgan` | domain/condition_evaluator.py:78-94 | negating a conjunction or disjunction equals the dual of the negated operands, for any number of them |
| `ConditionLaws.ChainIsConjunction` | domain/condition_evaluator.py:97-106 | a chained comparison equals the short-circuit conjunction of its adjacent pairs |
| `ConditionErrors.Blame` | domain/condition_evaluator.py:49-107 | an index error always comes from a subscript that the evaluation reaches and whose index is out of range |
| `ConditionErrors.ReachedRaises` | domain/condition_evaluator.py:49-107 | such a subscript, wherever evaluation reaches it, makes the whole expression raise the index error |
| `ConditionErrors.OverrunIsRaisedIff` | domain/condition_evaluator.py:49-107 | an expression raises an index error if and only if its evaluation reaches an out-of-range subscript |
| `ConditionErrors.EscapeIff` | domain/condition_evaluator.py:40-47 | `evaluate` raises only condition and index errors, and an index error if and only if the text is 1 to 512 characters, parses, and reaches an out-of-range subscript |
| `ConditionErrors.EmptyListSubscriptEscapes` | domain/condition_evaluator.py:46-77 | the condition `[][0]` raises the unwrapped index error |
| `ConditionErrors.ExactOpsAreTame` | domain/condition_evaluator.py:18-34 | the operator tables with exact numbers raise no index error |
| `ConditionErrors.PyMod` | domain/condition_evaluator.py:23 | the remainder takes the sign of the divisor and differs from the dividend by a multiple of it |
| `JsonStrings.StringRoundTripIff` | domain/architecture_contract_v1.py:65-66 | an escaped string is read back unchanged if and only if no high surrogate precedes a low one |
| `JsonStrings.EscapeInjectiveOnUnits` | domain/architecture_contract_v1.py:65-66 | two strings escape alike if and only if they are the same UTF-16 text |
| `JsonStrings.SurrogatesCollide` | domain/architecture_contract_v1.py:65-66 | two different strings with one escaped text |
| `CanonicalJson.PrintRoundTrip` | domain/architecture_contract_v1.py:65-66 | reading a printed value in front of any text gives the value and leaves the text; only after a number the text must not start with a digit |
| `CanonicalJson.PrintInjective` | domain/architecture_contract_v1.py:65-66 | canonical texts are equal if and only if the values are |
| `PythonJson.PrintsAlikeIff` | domain/architecture_contract_v1.py:65-66 | Python values, lone surrogates included, print alike if and only if they agree up to the UTF-16 text of every key and string |
| `PythonJson.PairedPrintsInjective` | domain/architecture_contract_v1.py:65-66 | without a high surrogate in front of a low one, they print alike if and only if they are equal |
| `PythonJson.EmbedPrints` | domain/architecture_contract_v1.py:65-66 | on surrogate-free values this printer is the canonical one, with keys sorted |
| `RawJson.AsciiOfPrint` | dashboard/implementation_apply.py:562-569 | escaping the non-ASCII characters of the raw spelling gives the ASCII spelling |
| `RawJson.PreimageInjective` | dashboard/implementation_apply.py:562-569 | the hashed UTF-8 bytes are equal if and only if the values are |
| `JsonText.ArrayText` | domain/architecture_contract_v1.py:65-66 | in both spellings an array is its elements between brackets, separated by commas alone |
| `JsonText.ObjectText` | domain/architecture_contract_v1.py:65-66 | an object is its fields between braces in code point order of the keys, with a colon and commas alone |
| `JsonText.IntegerText` | domain/architecture_contract_v1.py:65-66 | an integer is its decimal numeral without leading zeros, negative ones after a minus sign |
| `JsonText.ShortEscapes` | domain/architecture_contract_v1.py:65-66 | the seven characters with an escape of two characters |
| `JsonText.LongEscapes` | domain/architecture_contract_v1.py:65-66 | printable ASCII stands for itself, every other unit is spelled by the four hexadecimal digits of its value |
| `JsonText.RawKeepsOrdinary` | dashboard/implementation_apply.py:562-569 | the raw spelling keeps every character but quotes, backslashes and control characters below U+0020 |
| `JsonText.OrdinaryTextIsHashedAsIs` | dashboard/implementation_apply.py:562-569 | of a text without such characters its own UTF-8 bytes between quotes are hashed |
| `JsonText.RawEscapesAlike` | dashboard/implementation_apply.py:562-569 | and escapes those as the ASCII spelling does |
| `ContractChecks.CheckReferences` | domain/architecture_contract_v1.py:403-423 | the loops accept exactly unique ids and rules that name declared layers |
| `ContractChecks.CheckRule` | domain/architecture_contract_v1.py:410-419 | a rule passes exactly when its source and every target is a declared layer |
| `PyText.AsciiSpaces` | domain/architecture_contract_v1.py:59-62 | which ASCII characters stripping takes for white space |
| `ContractLoading.RequireIff` | domain/architecture_contract_v1.py:59-62 | a required text loads exactly from a string, as what remains without the white space around it, if anything does |
| `ContractLoading.LayerIff` | domain/architecture_contract_v1.py:76-98 | the exact condition on a raw entry to load as a layer, and each field it then has |
| `ContractLoading.RuleIff` | domain/architecture_contract_v1.py:108-141 | the same for a dependency rule: severity `block` when absent, ids starting with `DEP-`, targets a list |
| `ContractLoading.ConstraintIff` | domain/architecture_contract_v1.py:154-200 | the same for a constraint: nine types, a pattern or a callee where the type asks for one |
| `ContractLoading.GateIff` | domain/architecture_contract_v1.py:211-245 | the same for a quality gate: required when absent, an integer timeout or none, a command where the type asks for one |
| `ContractLoading.DecisionIff` | domain/architecture_contract_v1.py:255-283 | the same for a decision and its two text lists |
| `ContractLoading.TraceIff` | domain/architecture_contract_v1.py:291-310 | the same for a trace link and its five relations |
| `ContractLoading.WaiverIff` | domain/architecture_exceptions.py:35-97 | the same for an exception: ids starting with `EXC-`, a repository path, an expiry with a time zone or none |
| `ContractLoading.ApprovalIff` | domain/architecture_contract_v1.py:323-363 | the same for an approval: approved only with approver, time and fingerprint |
| `ContractLoading.PartsIff` | domain/architecture_contract_v1.py:510-523 | all parts load exactly when every listed entry does; absent lists are empty and an absent approval is pending |
| `ContractLoading.ContractIff` | domain/architecture_contract_v1.py:387-542 | any dictionary whatsoever loads as a contract exactly when its entries say that contract and the contract is sound |
| `ContractRoundTrip.ReloadIsTrim` | domain/architecture_contract_v1.py:502-542 | saving and loading a valid contract succeeds exactly when its timeouts are integers or absent and the stripped contract is valid, and yields it |
| `ContractRoundTrip.RuleReload` | domain/architecture_contract_v1.py:119-141 | a dependency rule reloads as its stripped form exactly when that is valid |
| `ContractRoundTrip.ConstraintReload` | domain/architecture_contract_v1.py:167-200 | the same for a constraint and its optional fields |
| `ContractRoundTrip.GateReload` | domain/architecture_contract_v1.py:218-245 | the same for a quality gate, whose timeout must be an integer or absent |
| `ContractRoundTrip.WaiverReload` | domain/architecture_exceptions.py:72-97 | the same for an exception and its expiry |
| `ContractRoundTrip.ApprovalReload` | domain/architecture_contract_v1.py:332-363 | the same for an approval and its timestamp |
| `ContractIdentity.RoundTrip` | domain/architecture_contract_v1.py:502-542 | a valid contract with stripped required strings survives unchanged if and only if its timeouts are integers or absent |
| `ContractIdentity.ReloadIsIdempotent` | domain/architecture_contract_v1.py:502-542 | otherwise saving and loading is an idempotent normaliser |
| `ContractIdentity.FingerprintIgnoresWorkflow` | domain/architecture_contract_v1.py:433-459 | status and approval never enter the fingerprint |
| `ContractIdentity.ApproveIff` | domain/architecture_contract_v1.py:467-500 | approving a valid contract succeeds exactly for draft or review and a non-blank approver; it keeps content and fingerprint and is valid, and its approval records the draft's own id, version and fingerprint, the approver and the time |
| `ContractIdentity.ApprovalSurvives` | domain/architecture_contract_v1.py:467-542 | approving such a contract succeeds, and the result survives saving and loading under the same condition |
| `ContractIdentity.TextPinsContent` | domain/architecture_contract_v1.py:433-459 | canonical texts are equal if and only if the contracts differ at most in the workflow |
| `ContractIdentity.FingerprintPinsContent` | domain/architecture_contract_v1.py:456-459 | without a collision the same holds for fingerprints |
| `ContractIdentity.PaddedApprovalIsRefused` | domain/architecture_contract_v1.py:424-431 | an approved contract that stripping would change cannot be loaded |
| `ContractIdentity.ApprovedReloadsIff` | domain/architecture_contract_v1.py:467-542 | for a valid draft and a non-blank approver, without a collision, the approved contract reloads if and only if the draft's timeouts are integers or absent and its required strings are stripped |
| `ContractIdentity.PaddedDraftIsLost` | domain/architecture_contract_v1.py:424-431 | a concrete valid draft that is approved and saved but cannot be loaded |
| `ExceptionPaths.DoubleStarIsRedundant` | domain/architecture_exceptions.py:63-69 | for every valid pattern the double-star clause is implied by the prefix clause |
| `ExceptionPaths.GlobFreeMatchesIff` | domain/architecture_exceptions.py:58-70 | a pattern without wildcards covers exactly its path, trailing slashes aside, and everything below |
| `ExceptionPaths.DottedPatternNeverMatches` | domain/architecture_exceptions.py:58-70 | a pattern with a leading dot, with or without wildcards, matches no path |
| `ExceptionPaths.BackslashNeverMatches` | domain/architecture_exceptions.py:58-70 | a pattern without brackets that holds a backslash matches no path |
| `ExceptionPaths.UsefulIff` | domain/architecture_exceptions.py:58-70 | a valid pattern without brackets matches some path, and itself, if and only if it has no leading dot and no backslash |
| `ExceptionPaths.TrailingStarsIff` | domain/architecture_exceptions.py:58-70 | literal text followed by stars covers what starts with the text, and its directory and everything below |
| `ExceptionPaths.FoundIsFirst` | domain/architecture_exceptions.py:100-115 | the lookup returns the first exception that applies, and nothing exactly when none does |
| `ExceptionPaths.EarlierFindsToo` | domain/architecture_exceptions.py:50-56 | what is found at a later time is found at every earlier time, no later in the list |
| `ExceptionLookup.MatchIffCut` | domain/architecture_exceptions.py:61-62 | a shell pattern matches exactly the texts that can be cut into one fitting piece per token |
| `ExceptionLookup.TokensSpell` | domain/architecture_exceptions.py:61-62 | the tokens of a pattern spell the pattern, and no wildcard is taken literally |
| `ExceptionLookup.NormalizedIff` | domain/architecture_exceptions.py:59 | a path normalises exactly to itself with slashes for backslashes and without its leading dots and slashes |
| `ExceptionLookup.CoversIff` | domain/architecture_exceptions.py:58-70 | a valid exception covers a path exactly when its pattern matches or its base, stars and slashes off the end, is the path or lies above it |
| `ExceptionLookup.FoundIff` | domain/architecture_exceptions.py:100-115 | the lookup finds the first exception for the rule that is in force and covers the path, and only that one |
| `ExceptionLookup.FoundIsInForce` | domain/architecture_exceptions.py:50-56 | nothing found expired before the asked time, or before now when none is asked |
| `ProposalScope.PathAcceptedIff` | dashboard/implementation_proposal.py:543-555 | a path is accepted exactly when trimmed, non-blank, backslash-free and every segment is neither empty nor a dot nor two dots |
| `ProposalScope.ManifestPathIff` | phase4/delivery_certificate.py:28-34 | the manifest check accepts exactly such paths, with backslashes allowed, and a lone dot |
| `ProposalScope.NewScope` | dashboard/implementation_proposal.py:38-55 | the constructor's checks and sorting compute the scope or its first error |
| `ProposalScope.ScopeIgnoresOrder` | dashboard/implementation_proposal.py:38-55 | permuting the declared paths changes neither the scope nor the error |
| `ProposalScope.ScopeIsFixedPoint` | dashboard/implementation_proposal.py:38-55 | rebuilding a scope from its fields gives it back exactly when it is valid |
| `ProposalScope.MadeScopesAreValid` | dashboard/implementation_proposal.py:38-55 | every constructed scope is sorted, distinct and within its budgets |
| `ProposalScope.ScopeMadeIff` | dashboard/implementation_proposal.py:38-55 | a scope is made exactly of one to eight distinct acceptable paths, a file budget within them and one to a thousand lines |
| `ProposalRequest.RequestIsFixedPoint` | dashboard/implementation_proposal.py:183-246 | an emitted request restores its scope, instruction and command id and rebuilds to itself |
| `ProposalRequest.RequestAcceptedIff` | dashboard/implementation_apply.py:87-110 | restoring accepts exactly the requests that could have been emitted for the upstream chain |
| `ProposalRequest.BuiltIff` | dashboard/implementation_proposal.py:183-246 | a request is built exactly for a non-blank instruction of at most 8000 characters, a canonical command id and a complete plan |
| `ProposalRequest.ContextSays` | dashboard/implementation_proposal.py:183-246 | the context repeats the plan's id, fingerprint, action and resource without outer white space |
| `ProposalRequest.ContextSaysMore` | dashboard/implementation_proposal.py:183-246 | and its steps, rationale and confidence, with their defaults |
| `ProposalRequest.ItemsSay` | dashboard/implementation_proposal.py:183-246 | provenance, requirements and plan go along in that order, each under its name and the plan's id |
| `ProposalRequest.CaseRequestIsRefused` | dashboard/case_implementation.py:295-300 | a request with the two added keys is refused |
| `ApplyVerification.VerifySuccessEvidence` | dashboard/implementation_apply.py:524-559 | the loop accepts exactly one passing item of each required kind for this artifact |
| `RestoreLaws.RestoredIff` | dashboard/implementation_apply.py:45-183 | a result is restored exactly when its raw fields qualify: touched paths distinct, among the request's own, within its file and line budgets, an allowing response that succeeded, both digests matching |
| `RestoreLaws.RestoredFields` | dashboard/implementation_apply.py:45-183 | every field of the restored proposal is the result's own |
| `DeliveryAcceptance.ApplyAcceptedIff` | dashboard/implementation_apply.py:419-559 | an apply response is accepted exactly under these conditions on its raw fields, succeeded or failed |
| `Delivery.CollectEvidence` | dashboard/delivery_verification.py:147-168 | the loop returns the ids in order exactly when three items of distinct required kinds pass and are content-addressed |
| `Delivery.CheckItem` | dashboard/delivery_verification.py:154-166 | one item passes exactly when its kind, status, artifact and identity do, and its own id is returned |
| `DeliveryAcceptance.LogIff` | dashboard/delivery_verification.py:325-354 | a log is accepted exactly when its fields are typed, its id is the digest of its content and, untruncated, so is its content digest |
| `DeliveryAcceptance.EvidenceAddressedIff` | dashboard/delivery_verification.py:301-322 | an evidence item is identified exactly when its id is the digest of its own fields and log ids |
| `DeliveryAcceptance.FileIff` | phase4/delivery_certificate.py:27-45 | the exact condition on a raw manifest entry |
| `DeliveryAcceptance.EvidenceIff` | dashboard/delivery_verification.py:147-168 | evidence is accepted exactly as three acceptable items, one of each kind |
| `DeliveryAcceptance.DeliveredIff` | dashboard/delivery_verification.py:47-186 | a result is handed on exactly when its raw fields qualify |
| `DeliveryAcceptance.DeliveredFields` | dashboard/delivery_verification.py:135-186 | every field handed on is the response's own: digests, each file of the manifest, the evidence ids in order |
| `DeliveryLaws.DeliveryRefinesApply` | dashboard/delivery_verification.py:47-186 | every result the delivery check accepts has a response the apply check accepts |
| `DeliveryLaws.ArtifactRefines` | dashboard/implementation_apply.py:494-521 | every artifact the delivery check accepts passes the apply check of artifacts |
| `DeliveryLaws.EvidenceRefines` | dashboard/implementation_apply.py:524-559 | every evidence list the delivery check accepts passes the apply check of evidence |
| `DeliveryLaws.RecordPinsDelivery` | dashboard/delivery_verification.py:135-186 | equal record ids without collisions force equal proposal id, diff, baseline, sorted manifest and ordered evidence ids |
| `DeliveryLaws.RestoredProposal` | dashboard/implementation_apply.py:45-170 | a restored proposal's id is the digest of its content, and its diff digest that of its diff; `RestoreLaws.RestoredIff` says when there is one |
| `DeliveryLaws.ProposalIdPinsPatch` | dashboard/implementation_apply.py:158-170 | equal proposal ids without a collision force the same request, provider, diff, paths and line count |
| `DeliveryLaws.ChainPinsDelivery` | dashboard/delivery_verification.py:29-186 | across two whole chains an equal record id forces the same patch and the same delivery |
| `DeliveryLaws.ChainPinsDiff` | dashboard/implementation_apply.py:129-135 | and, without a collision on the diffs, the same unified diff |
| `DeliveryLaws.EvidenceIdPinsLogs` | dashboard/delivery_verification.py:301-354 | equal evidence ids without collisions force the same tool, kind, status, exit code and both logs |
| `DeliveryLaws.RecordPinsEvidence` | dashboard/delivery_verification.py:147-186 | equal record ids force that for each of the three evidence items |
| `ReleaseEvidence.CollectReport` | ci/release_evidence.py:125-174 | the nested loops build the report of every gate, whose words and evidence the `ReleaseStatus` rows state |
| `ReleaseEvidence.CollectGate` | ci/release_evidence.py:134-166 | the inner loop collects the states and the evidence of one gate in order |
| `ReleaseEvidence.SelectionIsBest` | ci/release_evidence.py:83-112 | the selected check is eligible with the highest id, and none is selected only if none is eligible |
| `ReleaseEvidence.SelectionIgnoresOrder` | ci/release_evidence.py:83-112 | with distinct ids the order of the records does not matter |
| `ReleaseStatus.GateStateIff` | ci/release_evidence.py:77-122 | a gate fails exactly when some requirement's best check is completed without success; else it is missing when some requirement has no check; else pending when some best check is not completed |
| `ReleaseStatus.ReportSays` | ci/release_evidence.py:125-174 | the report's word for each gate of the table is one of these four, each exactly under its condition on the records |
| `ReleaseStatus.EvidenceIsReported` | ci/release_evidence.py:134-166 | under each gate the report shows its number of requirements and, in order, the fields of each best check and of its workflow run |
| `ReleaseStatus.UrlNamesRun` | ci/release_evidence.py:65-74 | a details URL names the run whose digits follow `/actions/runs/` up to a slash or the end |
| `ReleaseCandidate.EvaluateCandidate` | ci/release_candidate.py:70-114 | the code's lists equal the specification's partition of the required gates |
| `ReleaseCandidate.GatesArePartitioned` | ci/release_candidate.py:86-100 | green and blocking gates are disjoint and together exactly the required ones; blocking gates are distinct, green ones if the required are |
| `ReleaseCandidate.PartitionIsExact` | ci/release_candidate.py:86-100 | against a list without repetition both lists are distinct and their lengths add up to it |
| `ReleaseCandidate.EveryGateOnce` | ci/release_candidate.py:18-30 | every evaluation accounts for each of the eleven required gates exactly once |
| `ReleaseCandidate.ReadyIffAllGreen` | ci/release_candidate.py:98-100 | ready exactly when the envelope is valid and every required gate is green |
| `ReleaseCandidate.BadEnvelopeBlocksAll` | ci/release_candidate.py:75-100 | an invalid envelope leaves nothing green and blocks every gate |
| `ReleaseStatus.CertifiedIff` | ci/release_candidate.py:33-114 | any file whatsoever is certified exactly when its envelope and every required gate prove themselves on their raw fields |
| `ReleaseGate.ReleaseIff` | ci/release_evidence.py:83-174 | evaluating the collected report is ready if and only if every requirement's highest-id check, by name, commit and the path and commit of its workflow run, completed with success |
| `ReleaseGate.ReleaseSoundness` | ci/release_candidate.py:70-114 | for any records whatsoever, ready implies a 40-character sha and every requirement met by such a check |
| `ReleaseGate.MetGateHasValidEvidence` | ci/release_candidate.py:33-67 | a gate whose requirements are met carries evidence that the evaluator accepts |
| `ReleaseGate.VerdictIgnoresOrder` | ci/release_evidence.py:125-174 | the whole report ignores the order of the records |
| `ReleasePolling.CollectUntilTerminal` | ci/release_evidence.py:240-269 | at most ceil(timeout/poll)+1 snapshots, at most timeout seconds asked, and the last report is decided or observed past the deadline, no earlier one decided |
| `ReleasePolling.PollUntil` | ci/release_evidence.py:240-269 | the same for any way to judge and to report a snapshot |
| `ReleaseStatus.PollingStops` | ci/release_evidence.py:240-269 | the loop passes by no snapshot with a failed best check and none with everything met, and before the deadline stops at nothing else |
| `EventQueue.Realtime.Publish` | dashboard/realtime.py:94-110 | without interference the event enters at the price of the oldest when the queue is full |
| `EventQueue.Realtime.Drain` | dashboard/realtime.py:84-91 | returns the oldest events in order, at most the limit, and leaves the rest |
| `EventQueue.NothingLostUnseen` | dashboard/realtime.py:84-110 | in every interleaving: removed then queued is what was published, the second put never fails, losses are paid for by full queues, the bound holds |
| `EventQueue.PublishAlone` | dashboard/realtime.py:94-106 | the producer's steps without interference are a run that does to the queue what `Publish` does |
| `EventQueue.NewestIsKept` | dashboard/realtime.py:94-110 | when publishing completes, the new event is the last one in the queue |
| `EventQueue.LossIsOldest` | dashboard/realtime.py:97-102 | an event is lost only by the producer's own get, and it is the oldest |
| `Reconnect.RunLoop` | dashboard/realtime.py:133-168 | goes offline exactly at the first streak beyond the limit, having waited after each earlier failure |
| `Reconnect.StreakIsTail` | dashboard/realtime.py:134-154 | the failure counter is the number of failed rounds since the last one that did not fail |
| `Reconnect.StreakWaits` | dashboard/realtime.py:150-160 | the failures at the end caused the last waits, of half a second doubling up to eight |
| `Reconnect.WaitsFollowStreaks` | dashboard/realtime.py:150-160 | every wait of a run lasts as long as its own streak calls for, between half a second and eight |
| `SseParser.Parse` | dashboard/realtime.py:227-242 | the line loop delivers exactly the framed events that decode to objects, up to the first that does not decode |
| `SseParser.DeliverIs` | dashboard/realtime.py:227-242 | up to the first event that does not decode, exactly the objects are published, in order; an exception exactly when there is such an event |
| `SseParser.RoundTrip` | dashboard/realtime.py:227-242 | any sequence of printable frames parses back to its events, in order |
| `SseParser.FramesRoundTrip` | dashboard/realtime.py:227-242 | the dispatched events give the printed frames themselves back |
| `SseParser.FrameRoundTripIff` | dashboard/realtime.py:227-242 | a frame comes back if and only if its type is trimmed and non-empty and it has lines, none indented |
| `SseParser.FeedFrame` | dashboard/realtime.py:227-242 | what any printed frame dispatches, well-formed or not |
| `SseStandard.DriftIff` | dashboard/realtime.py:227-242 | from the standard's state, one line keeps the parser in it if and only if the line is in step |
| `SseStandard.LockstepIff` | dashboard/realtime.py:227-242 | the parser is in the standard's state after every prefix if and only if every line is in step |
| `SseStandard.RelatedIffObservablyEqual` | dashboard/realtime.py:227-242 | the parser is in the standard's state if and only if no continuation in step makes the two dispatch different events |
| `SseStandard.ConformingAgrees` | dashboard/realtime.py:227-242 | on such streams the subscriber receives what section 9.2.6 of the WHATWG HTML Standard prescribes |
| `SseStandard.StandardRoundTrip` | dashboard/realtime.py:227-242 | printed frames conform, and the standard reads them back too |
| `SseStandard.TidyConforms` | dashboard/realtime.py:227-242 | lines whose values carry at most one leading space, without bare field names, and with data between an event line and the next blank one, conform |
| `SseStandard.StaleType` | dashboard/realtime.py:230-242 | after a typed frame without data the next frame inherits the type, where the standard fires a message event |
| `BuildIdentity.ListingGivesSources` | dashboard/build_identity.py:63-66 | sorting and filtering any directory listing enumerates the included files in path order |
| `BuildIdentity.IncludedIff` | dashboard/build_identity.py:15-56 | a file is hashed exactly when no directory above it and not its name is one to skip, the names and suffixes written out |
| `BuildIdentity.PreImageInjective` | dashboard/build_identity.py:59-71 | among trees without NUL, pre-images are equal if and only if the included files are |
| `BuildCollisions.PreImageIdentifies` | dashboard/build_identity.py:59-71 | a tree without NUL is also told apart from every other tree of at least as many files, whatever those hold |
| `BuildCollisions.RecordsZeros` | dashboard/build_identity.py:66-70 | the pre-image holds two zero bytes per file, and exactly two if and only if no content holds one |
| `BuildCollisions.TwinIff` | dashboard/build_identity.py:59-71 | another tree has the same pre-image if and only if there are two files or more, or one whose content spells the record of a later source file |
| `BuildIdentity.MergedFilesCollide` | dashboard/build_identity.py:66-70 | merging any two neighbouring files with NULs in between gives a different tree with the same pre-image |
| `BuildMetadata.BuildRoot.SourceFingerprint` | dashboard/build_identity.py:59-71 | the digest loop hashes the pre-image, whatever the listing's order and extra entries |
| `BuildMetadata.BuildRoot.ResolveBuildIdentity` | dashboard/build_identity.py:99-112 | file, environment and repository are consulted in that order; undecodable text raises |
| `BuildMetadata.ResolvedRevisionIff` | dashboard/build_identity.py:74-107 | the revision is the file's unless a placeholder; without one the environment's; and git's only after both |
| `BuildMetadata.ResolvedFingerprintIff` | dashboard/build_identity.py:109-112 | the fingerprint is the file's, and the digest of the sources only without one |
| `BuildMetadata.BuildRoot.WriteBuildMetadata` | dashboard/build_identity.py:119-133 | writes the two files and nothing else, reports the identity and keeps the pre-image |
| `BuildMetadata.BakingKeepsSources` | dashboard/build_identity.py:119-130 | baking leaves the fingerprint of the tree as it was |
| `BuildMetadata.BakeThenResolve` | dashboard/build_identity.py:74-133 | after baking, resolving returns the written fingerprint and the revision as text mode reads it |
| `BuildMetadata.RevisionAgreesIff` | dashboard/build_identity.py:74-133 | exactly when the resolved identity is the reported one |
| `BuildMetadata.NoneIsReportedButNotResolved` | dashboard/build_identity.py:79-81 | a revision that is reported but not resolved |
| `BuildMetadata.FingerprintIdentifies` | dashboard/build_identity.py:57-71 | without a collision, a tree without NUL shares its fingerprint with no other tree of at least as many files nor with any other tree without NUL |
| `CaseProjection.CollectAllowedActions` | dashboard/case_process_projection.py:261-275 | the nested loops collect each named action once, in order of mention |
| `CaseProjection.NormalizeActions` | dashboard/case_process_projection.py:246-258 | the loop keeps the non-empty actions of a list, each once |
| `CaseProjection.CollectedIffListed` | dashboard/case_process_projection.py:261-275 | an action is collected if and only if one of the two snapshots lists it |
| `CaseProjection.NextActionIsListed` | dashboard/case_process_projection.py:301-368 | whatever action is offered is listed by a snapshot, and only for a case that asks for a human |
| `CaseProjection.NeverProjected` | dashboard/case_process_projection.py:371-417 | three of the attention states are never projected |
| `CaseStates.OpenCaseIff` | dashboard/case_process_projection.py:371-417 | for an open case with a recognised execution: each of the eight attention states exactly under its condition on the snapshot's fields |
| `CaseStates.ClosedAndIdle` | dashboard/case_process_projection.py:371-417 | a closed project says how it closed, one without an execution is ready, an unrecognised state is unknown |
| `CaseStates.OwnerIff` | dashboard/case_process_projection.py:62-71 | a human owns decisions and ready cases, DOR its own work and rework, nobody the rest |
| `CaseStates.OfferIff` | dashboard/case_process_projection.py:301-368 | a decision offers the first listed approval, a blocked case rework before retry, a case at work or closed nothing |
| `CaseStates.StatusDecidesOffer` | dashboard/case_process_projection.py:332-368 | a ready or failed case, and a decision without a listed approval, offers what the project's status prefers |
| `CaseStates.StatusOffers` | dashboard/case_process_projection.py:332-368 | which action each status prefers among those allowed |
| `CaseStates.ListedIff` | dashboard/case_process_projection.py:246-258 | an action is listed exactly when an entry is it or names it by id, action or name |
| `CaseStates.TitleIs` | dashboard/case_process_projection.py:462-498 | a case is called by its project's name, else its title, else its number |
| `Workbench.BuildCaseWorkbench` | dashboard/case_workbench.py:112-168 | the loops over a dictionary of buckets build the snapshot that the specification describes by filters and sorts |
| `Workbench.Distribute` | dashboard/case_workbench.py:127-138 | buckets and unlinked rows are exactly the executions that name, or do not name, a known project, in order |
| `WorkbenchLaws.ExecutionsAreConserved` | dashboard/case_workbench.py:112-168 | linked counts plus unlinked rows cover all executions, and add up if and only if no execution names an id two projects share |
| `WorkbenchLaws.DistinctProjectsConserve` | dashboard/case_workbench.py:112-168 | with distinct project ids they always add up |
| `WorkbenchLaws.NewestIsMaximum` | dashboard/case_workbench.py:147-152 | the shown execution has the greatest order key and comes first among its equals |
| `WorkbenchLaws.CasesAreSortedItems` | dashboard/case_workbench.py:141-168 | cases and unlinked rows are sorted permutations of what was built |
| `WorkbenchLaws.CasesAreInOrder` | dashboard/case_workbench.py:88-109 | no case stands before one that asks for something more urgent; equally urgent ones by title, then by id |
| `WorkbenchLaws.OrderIsComplete` | dashboard/case_workbench.py:88-109 | that order of urgency names every attention state |
| `WorkbenchLaws.KeysAreRead` | dashboard/case_workbench.py:68-85 | ids and order keys are the stripped texts of the rows' own fields |
| `WorkbenchLaws.GroupsPartition` | dashboard/case_workbench.py:33-65 | the four groups are disjoint and omit exactly the blocked, failed and unknown cases; the external one is empty |
| `Overview.NormalizeExecutionOverview` | dashboard/operator_overview.py:31-90 | the two sorts in place give one sort by urgency and then recency |
| `Overview.TwoSortsAreOne` | dashboard/operator_overview.py:84-90 | the same for every list of rows |
| `Overview.RowsAreInOrder` | dashboard/operator_overview.py:13-90 | no row stands before a more urgent one, and among equally urgent ones the later update comes first |
| `Overview.RowIff` | dashboard/operator_overview.py:31-82 | a row is kept exactly when it is an object with a workflow id, and repeats the object's own fields |
| `Overview.RowAction` | dashboard/operator_overview.py:31-82 | a row's action is the required word when known, else none |
| `SortKeys.TwoPassSort` | dashboard/operator_overview.py:84-90 | sorting by a minor key and then stably by a major key is one lexicographic sort, for any two orders |
| `StableSort.StableSortIsUnique` | dashboard/operator_overview.py:84-90 | sorted and stable determines the result |

## Left out

- Rendering, routing, HTTP clients, argument parsing, logging, signal handling and console output: input and output only.
- Digest computation, JWT, password hashing: library calls; digests are function parameters.
- Restoring the onboarding, audit and plan chain: what it yields enters the proposal model as a value.
- The constructor of the delivery candidate, which checks its fields once more, sorts them and hashes them: the model stops at the data handed to it.
- `str()` of a list or dictionary where the code accepts one in place of text: modelled as some fixed text of the value.
- Python's equality of `True` with `1` when whole requests are compared: values are compared structurally; the relevance of a context item is the integer one.
- A set test with an unhashable value raises a type error in the checks of responses: modelled as a refusal.
- Order of the error messages inside one evidence item: the delivery loop's checks of one item are grouped, and all refuse alike.
- `CanonicalJson.PrintRoundTrip`: speaks of strings without surrogates; `PythonJson` has the law for all Python strings.
- `CanonicalJson.PrintInjective`: speaks of strings without surrogates; `PythonJson.PrintsAlikeIff` has the law for all Python strings.
- `ContractIdentity.FingerprintPinsContent`: contracts hold Unicode text without lone surrogates, for which `JsonStrings.SurrogatesCollide` shows two strings with one text.
- Check ids that are not integers, and digits outside ASCII in the run id of a URL.
- `ExceptionPaths.MatchesPath` takes membership in a bracket expression of a shell pattern as a parameter.
- `ConditionErrors.ExactOps` leaves out float rounding and overflow, `%` formatting of strings, repetition of strings, lists and tuples by `*`, and the ordering of lists and tuples; the theorems about evaluation hold for every operator table.
- Floats in JSON values, such as a plan's confidence: JSON numbers are integers in this model.
- Python 3.14's change of `PurePath.suffix`, symbolic links and unreadable files in the source tree; newline translation on writing outside POSIX.
- The byte-order mark, line splitting and the `id` and `retry` fields of event streams: the parser starts from lines.
- Task counts, labels, phases, evidence milestones and explanations of the case views: they take no part in selection, grouping or order.
- Fairness of the swarm's scheduler: the theorems bound what every run does and say which runs exist, not that a thread is scheduled.
- `Swarm` treats a lock-protected region of a worker or of the sentinel as one step; the healer's writes, which race with unlocked writes, are separate steps.
