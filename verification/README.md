# Verification of mcp-swagger

The server reads an OpenAPI document, resolves it, offers search over it, generates and checks request
bodies, and sends guarded calls upstream. This project models the parts of it that branch, recurse or share
state, and proves what they promise, for every input, every run and every interleaving.

* `Text`, `Json`, `Sets`, `Sorting`: strings as the server handles them (trimming, case, splitting,
  comparing) with what trimming, case and reading a number mean, dynamic JSON values, finite sets, and what any
  sort gives.
* `Validator`, `ValidatorRules`, `Generator`, `GeneratorRules`, `Soundness`, `GeneratorBounds`, `TreeBounds`,
  `DepthBudget`, `InheritedKeys`, `Overrides`: the schema validator decides a declarative meaning, which is spelled
  out keyword by keyword; the payload generator, with its depth budget and its random draws, is sound for that
  meaning; which keyword decides what is generated; exactly when lengths, counts and ranges hold in whole generated
  trees, and exactly where soundness stops; merging of overrides.
* `Pointer`, `RefExpansion`, `RefRules`, `RefUnfolding`, `RefExactness`, `RefResidue`, `RefExamples`: JSON pointers
  and the expansion of local `$ref`s with the shared, backtracking set of open pointers.
* `SchemaGraph`, `SchemaPaths`, `SchemaContents`: the resolution of a schema graph with cycles, what the output
  holds at every path, and what a resolved schema holds itself.
* `SnapshotCache`, `Endpoints`, `EndpointRules`, `EndpointIndexes`: the cached snapshot under concurrency and the
  endpoint indexes.
* `Policy`, `Confirmation`, `ConfirmationRules`, `ConfirmationRuns`, `GuardedCalls`, `GuardedRuns`,
  `GuardedOutcomes`: policy, the confirmation store, the guarded call, its safety over all interleavings, and exactly
  which calls are sent.
* `RateLimit`, `RateBounds`, `Limiter`, `LimiterRuns`: the fixed-window limiter, how much it grants in a minute,
  and the two-level limiter around a call.
* `SearchIndex`, `Search`, `SearchMeaning`: the search index against a scan, what matches and for how many points,
  and ranking.
* `Redaction`, `AuditRecords`, `JsonText`: redaction of JSON values, through JSON that is held in strings; what it
  makes of the two halves of an audit record; and JSON text for which the laws that redaction rests on hold.

Code that updates state is modelled by classes and by methods with loops, each proved against a function; the
theorems are lemmas about those functions. The modules named after rules, contents, outcomes or meaning say what
those functions give in terms of their inputs' own fields, with keywords, method names and codes written out.
Concurrent code is a set of steps; a run is any sequence of them. Clock readings, random draws, fresh identifiers,
JSON text and the printing of numbers are parameters. Map keys are visited in arbitrary order. Where a lock is held
during a whole method, that method is one step.

## What turned out otherwise

* Ranking the pointers of a document is not enough for expansion to be plain unfolding: the siblings of a
  `$ref` are expanded while its pointer is still open (`internal/swagger/store.go:430-436`), so a reference
  that is repeated beside itself is marked as circular although nothing is cyclic
  (`RefExamples.RepeatedSiblingDiffers`). `RefExactness.ExpandIsUnfoldExactly` gives the exact condition.
* Redaction does not reach response bodies. The response body is logged as a struct
  (`internal/tool/swagger_execute.go:360-361`), and redaction leaves what is no map, list or string as it is
  (`internal/audit/logger.go:126-168`). The request half of a record never shows a listed field
  (`AuditRecords.RequestHalfIsClean`); the response half shows none if and only if no body was read, or the decoded
  body and the struct's field names are clean already (`AuditRecords.ResponseHalfExactly`). So the same object is
  redacted as a request body and shown as a response body (`AuditRecords.SecretShowsInResponse`).
* A `$ref` whose value is itself a reference to a text leaves behind a local reference although its target
  exists (`RefExamples.NestedRefEscapes`, in a document: `RefExamples.NestedRefEscapesHere`).
  `RefResidue.SettledExactly` gives the exact condition for every document and value: at each object that is kept
  and is no local reference itself, the lone references from its `$ref` end at no text that is a resolvable one, up
  to siblings that cannot be laid over. Texts under every `$ref` are enough for it (`RefResidue.ExpandSettled`).
* A key that one `allOf` branch requires and another defines is filled with the text `value`, over what the
  other branch generated if that branch comes first. For any number of plain branches the body is right if and
  only if the definition of every such key takes that text (`InheritedKeys.InheritedExactly`; a schema for which
  it is not: `InheritedKeys.InheritedKeyFails`).
* The rate limiter reads the clock before it takes its lock (`internal/httpclient/client.go:231-233`). Fewer than
  twice the limit in every minute: that holds for all runs if and only if no reading is older than the lock
  (`RateBounds.PromptExactly`). With readings up to a given age, `RateBounds.RateBound` gives the bound and
  `RateBounds.RateBoundIsTight` a run that reaches it; `RateBounds.StaleReadingsEscape` is three grants in one
  minute with limit one.
* An operation is found by id if and only if its id has no surrounding spaces and no later operation has the same
  id (`EndpointIndexes.FoundExactly`); in `EndpointIndexes.SpacedIdIsNeverFound` the one operation of a document
  is listed and cannot be found.
* Consuming a confirmation comes before the request is checked and sent
  (`internal/tool/swagger_execute.go:265-340`). A confirmation is used up without any request going out if and only
  if it was ripe and the request then fails a check or is kept back by the client, as it is over a rate limit
  (`GuardedCalls.UsedUpExactly`); the corrected request is refused with it (`GuardedCalls.RetryIsRefused`).
* Without a declared minimum, a generated number keeps its maximum for every draw if and only if the strategy is
  the maximal one or the maximum leaves room for the largest draw (`GeneratorBounds.EveryIntegerExact`).

## Model

| member | source | states |
|---|---|---|
| `Validator.ValidateValue` | internal/tool/swagger_http_common.go:839-910 | the issue list is empty if and only if the value satisfies allOf, anyOf, exactly one of oneOf, type, required, properties, items and enum, whatever the path argument; the early return on a type mismatch and the deduplication do not change the verdict |
| `ValidatorRules.SatisfiesExactly` | internal/tool/swagger_http_common.go:839-1031 | that meaning in terms of the schema's own keywords: the six type names, required keys that are there, every property and item right, all, some or exactly one of the branches accepting, an enum value that prints alike |
| `ValidatorRules.AnythingGoes` | internal/tool/swagger_http_common.go:840-843 | what is no schema object accepts every value |
| `ValidatorRules.PrintedForms` | internal/tool/swagger_http_common.go:1024-1031 | how every kind of value prints when it is compared with an enum |
| `Validator.MatchesAnyOf` | internal/tool/swagger_http_common.go:913-920 | true exactly if there are no branches or some branch accepts |
| `Validator.MatchesOneOf` | internal/tool/swagger_http_common.go:856-866 | counting the accepting branches decides "exactly one" |
| `Validator.ValidateAllOf` | internal/tool/swagger_http_common.go:846-850 | no issues exactly if every branch accepts |
| `Validator.ValidateObject` | internal/tool/swagger_http_common.go:876-893 | no issues exactly if the required keys are there and every present property satisfies its schema, met in any order |
| `Validator.ValidateArray` | internal/tool/swagger_http_common.go:894-901 | no issues exactly if every item satisfies the item schema |
| `Validator.SchemaRequired` | internal/tool/swagger_http_common.go:1001-1021 | lists exactly the trimmed non-blank required keys, each once |
| `Validator.EnumContains` | internal/tool/swagger_http_common.go:1024-1031 | membership by printed form |
| `Validator.UniqueFacts` | internal/tool/swagger_http_common.go:1529-1550 | deduplication keeps each visible string once, trimmed, and nothing else |
| `Validator.UniqueStrings` | internal/tool/swagger_http_common.go:1529-1550 | the loop with its set computes that deduplication |
| `Validator.UniqueInOrder` | internal/tool/swagger_http_common.go:1529-1550 | in the order of first occurrences |
| `Validator.UniqueKeepsVerdict` | internal/tool/swagger_http_common.go:909 | deduplicating visible issues neither empties nor fills the list |
| `Generator.PayloadGenerator.Generate` | internal/tool/swagger_generate_payload.go:223-273 | the mutating generator yields the specified value and leaves the random source at the specified position; warnings only grow. What is specified is said by the next rows |
| `GeneratorRules.NothingToGenerate` | internal/tool/swagger_generate_payload.go:224-231 | deeper than 32, and for what is no schema or an empty one, there is null |
| `GeneratorRules.ExampleDecides` | internal/tool/swagger_generate_payload.go:233-235 | within the depth budget, an example that is not null is copied and nothing is drawn, whatever else the schema says |
| `GeneratorRules.ListedExampleDecides` | internal/tool/swagger_generate_payload.go:480-508 | without one, the first entry of a list of examples that is not null |
| `GeneratorRules.NamedExampleDecides` | internal/tool/swagger_generate_payload.go:480-508 | or the entry of the least key of an object of examples that is not null |
| `GeneratorRules.EnumDecides` | internal/tool/swagger_generate_payload.go:237-239 | without examples, the first value of an enum |
| `GeneratorRules.EnumOfTextsDecides` | internal/tool/swagger_generate_payload.go:547-562 | likewise for an enum that is a list of plain texts |
| `GeneratorRules.OneOfDecides` | internal/tool/swagger_generate_payload.go:241-245 | then the first branch of oneOf, or the last one in the maximal strategy, one level deeper |
| `GeneratorRules.AnyOfDecides` | internal/tool/swagger_generate_payload.go:246-250 | then a branch of anyOf, likewise |
| `GeneratorRules.AllOfDecides` | internal/tool/swagger_generate_payload.go:251-253 | then the merge of the objects that the branches of allOf give, or null |
| `GeneratorRules.FlagsAndNulls` | internal/tool/swagger_generate_payload.go:254-273 | then the type, declared or told by properties and items: true, or null |
| `GeneratorRules.IntegersDecided` | internal/tool/swagger_generate_payload.go:403-413 | an integer by strategy, maximum and minimum, rounded inwards, or a draw below a hundred |
| `GeneratorRules.NumbersDecided` | internal/tool/swagger_generate_payload.go:416-426 | a number by strategy, maximum and minimum, or a draw and a half |
| `GeneratorRules.FormatsDecided` | internal/tool/swagger_generate_payload.go:365-400 | the text of every known format, and which of them draw |
| `GeneratorRules.LengthsDecided` | internal/tool/swagger_generate_payload.go:365-400 | padding with `x` to the minimum length, then cutting at the maximum |
| `GeneratorRules.RoundIsNearest` | internal/tool/swagger_generate_payload.go:620-626 | a declared count or length is read as the nearest integer, halves away from zero |
| `Generator.PayloadGenerator.GenerateAllOf` | internal/tool/swagger_generate_payload.go:276-293 | merges the object parts in order and yields null if there is none |
| `Generator.PayloadGenerator.GenerateObject` | internal/tool/swagger_generate_payload.go:296-332 | sorted properties, required ones always and all of them in the maximal strategy, missing required keys filled in |
| `GeneratorRules.ObjectsDecided` | internal/tool/swagger_generate_payload.go:296-332 | an object has exactly its required keys, and in the maximal strategy all its properties; a property holds what its schema gives, a required key without a property the text `value`; without properties it is empty |
| `Generator.PayloadGenerator.GenerateArray` | internal/tool/swagger_generate_payload.go:335-362 | as many items as the strategy and the declared counts give |
| `GeneratorRules.ArraysDecided` | internal/tool/swagger_generate_payload.go:335-362 | how many items for every strategy and declared counts, with the defaults one and three and the cap of eight, each what the item schema gives |
| `Soundness.GeneratorSound` | internal/tool/swagger_generate_payload.go:223-362 | for every strategy, every stream of draws and every supported schema, the generated value satisfies the schema the validator decides |
| `Soundness.BranchesGood` | internal/tool/swagger_generate_payload.go:276-293 | every branch of a supported `allOf` generates an object within its own keys that satisfies it and whose verdict depends on those keys alone |
| `Soundness.MergedSound` | internal/tool/swagger_generate_payload.go:276-293 | merging such parts, whose branches look at no common key, satisfies every branch |
| `Soundness.OneOfSound` | internal/tool/swagger_generate_payload.go:241-245 | the chosen branch's value satisfies a oneOf whose other branches reject it |
| `Soundness.Frame` | internal/tool/swagger_http_common.go:876-893 | the verdict of an object schema depends only on the keys it looks at |
| `TreeBounds.GeneratedTreeBounded` | internal/tool/swagger_generate_payload.go:223-426 | for every schema, strategy, depth and stream of draws: at every node of the generated tree that is produced from a type, along object properties, array items, the chosen oneOf or anyOf branch and the parts of an allOf, a text meets the declared lengths if and only if the maximum, if any, is positive and not below the minimum; an array the declared counts if and only if the maximum leaves room for the minimum and for one item; a number with a declared minimum the declared range if and only if that is not empty, and without one whenever the maximum is taken itself or leaves room for every draw |
| `TreeBounds.MergedBodyBounded` | internal/tool/swagger_generate_payload.go:276-293 | in the merged body of an allOf of object schemas without common keys, nested to any depth, every property of every branch is there if generated and is bounded by that branch |
| `GeneratorBounds.StringLengthExact` | internal/tool/swagger_generate_payload.go:365-400 | a string meets both declared lengths if and only if the maximum, if any, is positive and not below the minimum |
| `GeneratorBounds.ItemCountExact` | internal/tool/swagger_generate_payload.go:335-355 | a count meets both declared counts if and only if the maximum leaves room for the minimum and for one item |
| `GeneratorBounds.IntegerRangeExact` | internal/tool/swagger_generate_payload.go:403-413 | with a declared minimum, an integer lies in the range if and only if the range holds an integer |
| `GeneratorBounds.NumberRangeExact` | internal/tool/swagger_generate_payload.go:416-426 | with a declared minimum, a number lies in the range if and only if the range is not empty |
| `GeneratorBounds.EveryIntegerExact` | internal/tool/swagger_generate_payload.go:403-413 | all draws keep the declared range if and only if it holds an integer or, without a minimum, the maximum is taken itself or is at least 99 |
| `GeneratorBounds.EveryNumberExact` | internal/tool/swagger_generate_payload.go:416-426 | all draws keep the declared range if and only if it is not empty or, without a minimum, the maximum is taken itself or is at least 99.5 |
| `DepthBudget.BudgetExactly` | internal/tool/swagger_generate_payload.go:223-362 | a chain of object, array, oneOf, anyOf and allOf levels in any order yields a valid value if and only if the depth it accumulates stays within 32 |
| `GeneratorBounds.ObjectNodeExact` | internal/tool/swagger_generate_payload.go:296-332 | an object node with supported properties is right if and only if it requires nothing or declares a property |
| `GeneratorBounds.OneOfExact` | internal/tool/swagger_generate_payload.go:241-245 | a oneOf node is right if and only if no other branch accepts the value |
| `InheritedKeys.InheritedExactly` | internal/tool/swagger_generate_payload.go:276-332 | plain branches that define nothing twice: the merged body is right if and only if the definition of every key that another branch requires and fills in takes the text `value` |
| `InheritedKeys.InheritedKeyFails` | internal/tool/swagger_generate_payload.go:322-330 | a parent with a Boolean property and a child that requires it: the body is wrong for every strategy and stream of draws |
| `InheritedKeys.LastWins` | internal/tool/swagger_generate_payload.go:276-293 | under every key the merge of parts holds what the last part with that key holds |
| `Overrides.DeepMergeMaps` | internal/tool/swagger_generate_payload.go:644-660 | the loop over the patch, in any order, computes the merge |
| `Overrides.PatchWins` | internal/tool/swagger_generate_payload.go:644-660 | every patch path that ends in a non-object holds the patch's value |
| `Overrides.UntouchedKept` | internal/tool/swagger_generate_payload.go:644-660 | every base path the patch does not touch keeps its value |
| `Overrides.MergeOrigin` | internal/tool/swagger_generate_payload.go:644-660 | every other value in the result comes from the patch or from an untouched base path |
| `Overrides.OverridesIdempotent` | internal/tool/swagger_generate_payload.go:629-641 | applying the same overrides twice equals applying them once, also when the body is not an object |
| `Overrides.OverridesPrevail` | internal/tool/swagger_generate_payload.go:629-641 | an override prevails at its path, replaces a body that is no object, and none change nothing |
| `Json.CloneFacts` | internal/tool/swagger_generate_payload.go:663-673 | a copy through JSON text is plain, and is the identity exactly on plain values |
| `Pointer.LookupPointer` | internal/swagger/store.go:376-402 | the loop that moves down the document finds what the decoded tokens name |
| `Pointer.PointerRoundTrip` | internal/swagger/store.go:376-409 | escaping the tokens of any nonempty path, joining them and looking the pointer up gives exactly that node |
| `Pointer.PointerLeadsThere` | internal/swagger/store.go:376-402 | and looking up any such path, with keys in objects and indices in lists, finds nothing exactly where the path leads nowhere |
| `Pointer.DecodeEncode` | internal/swagger/store.go:405-409 | decoding undoes the escaping of section 4 of RFC 6901 for every token |
| `Pointer.DecodeOrder` | internal/swagger/store.go:405-409 | replacing in the other order decodes `~01` wrongly |
| `RefExpansion.ResolveRefs` | internal/swagger/store.go:412-458 | terminates on every document, cyclic or not, restores the shared set on every path, and its result does not depend on the order of map keys |
| `RefExpansion.FollowRef` | internal/swagger/store.go:419-440 | opens the pointer, and either replaces the reference or leaves everything as it was |
| `RefExpansion.UnseenTarget` | internal/swagger/store.go:419-422 | following an unseen pointer uses up one of finitely many |
| `RefRules.LocalRefMeans` | internal/swagger/store.go:461-467 | a local reference is a text under `$ref` that starts with `#/` after trimming |
| `RefRules.OpenReference` | internal/swagger/store.go:417-420 | one that is open becomes an object with just its text under `x-circularRef` |
| `RefRules.LoneReference` | internal/swagger/store.go:421-428 | one without siblings becomes what its target expands to |
| `RefRules.SiblingsOverObject` | internal/swagger/store.go:429-439 | siblings prevail over the keys of the target, whose others stay |
| `RefRules.SiblingsOverOther` | internal/swagger/store.go:429-448 | over a target that is no object, the reference stays, expanded field by field |
| `RefRules.KeptObject` | internal/swagger/store.go:443-448 | what is no reference, or has no target, is expanded field by field |
| `RefRules.OtherValues` | internal/swagger/store.go:449-456 | lists are expanded item by item, and everything else stays |
| `RefUnfolding.ExpandAgrees` | internal/swagger/store.go:412-458 | on a ranked document, expansion equals plain unfolding everywhere except below markers |
| `RefUnfolding.ExpandExact` | internal/swagger/store.go:412-458 | and it equals plain unfolding if and only if it puts no marker |
| `RefUnfolding.ExpandIsUnfold` | internal/swagger/store.go:412-458 | if siblings rank below their reference too, expansion is plain unfolding |
| `RefExamples.RepeatedSiblingDiffers` | internal/swagger/store.go:430-436 | a ranked document and a node of it whose expansion is not its unfolding |
| `RefExactness.ExpandIsUnfoldExactly` | internal/swagger/store.go:412-458 | expansion equals plain unfolding if and only if no reference that is kept is used again beside itself |
| `RefExactness.MarkExact` | internal/swagger/store.go:417-419 | with any pointers open: no marker in what is kept if and only if the unfolding is clear and uses no open pointer |
| `RefResidue.SettledExactly` | internal/swagger/store.go:412-458 | for every document and value: the only local references left are those with a missing target, or with siblings and a target that ends at no object, if and only if wherever an object without a local reference of its own is kept, what its `$ref` ends at is no text, no local reference, or one that may stay among the object's keys and those laid over it |
| `RefResidue.EndDecides` | internal/swagger/store.go:424-440 | expansion gives an object, or a text, exactly where the lone references end at one |
| `RefResidue.ExpandSettled` | internal/swagger/store.go:412-458 | if every `$ref` holds a text, that condition holds, and only such references are left; compare section 4.7.23 of OpenAPI Specification 3.0.3 |
| `RefExamples.NestedRefEscapes` | internal/swagger/store.go:415-417 | an instance that is not settled: an object under `$ref` that refers to a text which is a resolvable reference |
| `RefExamples.NestedRefEscapesHere` | internal/swagger/store.go:415-417 | such a document, and the node of it |
| `SchemaGraph.ExpandSchema` | internal/swagger/resolver.go:275-405 | terminates on every finite graph, restores the open set and computes the resolution |
| `SchemaContents.ContentsExactly` | internal/swagger/resolver.go:275-405 | a schema that is not open resolves to an object with its literal keywords unless an extension overrides them, its extensions, its reference text under `x-originRef` exactly if that is not empty, the Boolean of its additional properties, one entry for every schema it lists, and no other key |
| `SchemaContents.MarkersExactly` | internal/swagger/resolver.go:261-284 | what stands for a schema that is open, unresolved or missing: the reference text under `x-circularRef`, or true, under `x-unresolvedRef`, or null |
| `SchemaGraph.FollowRef` | internal/swagger/resolver.go:261-272 | missing references, unresolved references and references to schemas |
| `SchemaGraph.FollowRefs` | internal/swagger/resolver.go:408-414 | resolves a list entry by entry, in order |
| `SchemaGraph.FollowProperties` | internal/swagger/resolver.go:383-393 | resolves every property, in sorted order |
| `SchemaPaths.EntryOfSchema` | internal/swagger/resolver.go:368-402 | below an expanded schema the output holds, keyword by keyword, exactly what the schema refers to, resolved with this schema open |
| `SchemaPaths.PathOutput` | internal/swagger/resolver.go:275-405 | the output holds exactly the paths that go through no schema twice, and at the end of each the last reference resolved with the schemas of the path open |
| `SchemaPaths.MarkedExactlyOnReturn` | internal/swagger/resolver.go:279-284 | a circularity marker stands at the end of a path if and only if the path has been through that schema already |
| `SchemaPaths.AcyclicUnfolds` | internal/swagger/resolver.go:275-405 | on an acyclic graph the resolution equals the plain unfolding, which is defined on the rank and knows no open set |
| `SchemaPaths.AcyclicIsComplete` | internal/swagger/resolver.go:275-405 | in an acyclic graph every path is in the output and none ends in a marker |
| `Text.CollectSet` | internal/policy/policy.go:144-177 | the loop keeps exactly the cleaned-up values that are not blank |
| `Policy.NewEvaluator` | internal/policy/policy.go:41-54 | all lists cleaned up; a blank mode is plan-only |
| `Policy.DecisionTable` | internal/policy/policy.go:57-121 | for every configuration and call: when it is allowed, when it needs a confirmation and when it is plan-only, with which code, in terms of the configured lists and with every method and mode by name |
| `Policy.ModeMeans` | internal/policy/policy.go:41-54 | the modes that execute, by name, whatever their case and the spaces around them |
| `Policy.ActiveMeansNonEmpty` | internal/policy/policy.go:77-97 | an allow list counts exactly if some entry is not blank |
| `Policy.MoreDenialsRefuseMore` | internal/policy/policy.go:62-74 | longer deny lists turn decisions into refusals only |
| `Confirmation.MemoryStore.constructor` | internal/confirmation/memory_store.go:25-34 | an empty store, with ten minutes for a time to live that is not positive |
| `Confirmation.MemoryStore.Cleanup` | internal/confirmation/memory_store.go:133-143 | drops exactly the expired records except the skipped one |
| `Confirmation.MemoryStore.Request` | internal/confirmation/memory_store.go:37-66 | the whole new state and the reply, also when no identifier can be drawn |
| `Confirmation.MemoryStore.Confirm` | internal/confirmation/memory_store.go:69-93 | the whole new state and the reply on every path |
| `Confirmation.MemoryStore.ConsumeApproved` | internal/confirmation/memory_store.go:96-130 | the whole new state and the reply on every path |
| `ConfirmationRules.AskedRecord` | internal/confirmation/memory_store.go:37-66 | the record of a new request field by field, and the others that stay |
| `ConfirmationRules.NothingAsked` | internal/confirmation/memory_store.go:45-49 | without an identifier nothing is asked, and only expired records go |
| `ConfirmationRules.ConfirmTable` | internal/confirmation/memory_store.go:69-93 | for every record: which complaint is made, in which order, what the answer changes and what it leaves |
| `ConfirmationRules.ConsumeTable` | internal/confirmation/memory_store.go:96-130 | likewise for consuming: missing, expired, used, not approved, not fitting, or consumed |
| `Confirmation.CleaningIsInvisible` | internal/confirmation/memory_store.go:37-151 | over every run the self-cleaning store answers like one that never deletes, except that an expired record may be reported as missing |
| `Confirmation.SpentForGood` | internal/confirmation/memory_store.go:96-130 | a record that was consumed or reported as expired never succeeds again |
| `ConfirmationRuns.ConsumeSucceedsExactly` | internal/confirmation/memory_store.go:96-130 | over every run, consuming succeeds if and only if the record was created, last answered with approval, is within its time to live, fits the request on every recorded field and was not consumed before |
| `ConfirmationRuns.FitsMeans` | internal/confirmation/memory_store.go:120-124 | a stored record fits a call if and only if the call agrees with the original request on every field that is not blank, up to spaces and the case of the method |
| `ConfirmationRuns.HistoryExplains` | internal/confirmation/memory_store.go:37-130 | every record is what the history of calls about it says |
| `GuardedCalls.ExecuteTool.Execute` | internal/tool/swagger_execute.go:115-392 | the gates in order: policy, consumption, request checks, send; at most one send; one audit entry on every way out, with the code of the refusal or of what went wrong after the request went out; the in-flight count restored |
| `GuardedOutcomes.OutcomeExactly` | internal/tool/swagger_execute.go:215-361 | the end of every prepared call: a call the policy allows, or for which it asks for a confirmation and the store holds a ripe one under the trimmed identifier, goes on to its checks and the sending; any other is refused with the decision's code, or with `confirmation_required` |
| `GuardedOutcomes.DeliveredExactly` | internal/tool/swagger_execute.go:215-361 | a call is delivered if and only if it was prepared, is so admitted, passes its checks and goes out |
| `GuardedOutcomes.AdmittedCallsAreSent` | internal/tool/swagger_execute.go:215-340 | and the log gets its send under the same condition, from every state |
| `GuardedOutcomes.DecisionShape` | internal/policy/policy.go:57-121 | the codes of the decisions |
| `GuardedCalls.ExecuteIsASchedule` | internal/tool/swagger_execute.go:115-392 | the procedure of one call, with or without a store, is one of the interleavings of its steps; it logs its one send exactly if it sends |
| `GuardedCalls.UsedUpExactly` | internal/tool/swagger_execute.go:265-340 | a call that needs a confirmation consumes a good one and sends nothing if and only if the confirmation is ripe for the request and the request fails a check or the sending fails before it goes out |
| `GuardedCalls.RetryIsRefused` | internal/tool/swagger_execute.go:265-283 | after that, the next request with the same confirmation is refused |
| `GuardedRuns.DoKeeps` | internal/tool/swagger_execute.go:215-319 | every step of anybody keeps the safety invariant |
| `GuardedRuns.SentWasGuarded` | internal/tool/swagger_execute.go:215-319 | in every interleaving: no confirmation turns a deny-list, allow-list or plan-only refusal into a send; read-only mode sends GET, HEAD and OPTIONS alone; with confirmations required in a write mode, every POST, PUT, PATCH and DELETE that is sent is preceded by its own consumption of an unexpired, last-approved, fitting and unused record |
| `GuardedRuns.PermitsAreInjective` | internal/tool/swagger_execute.go:265-283 | different sends carry different confirmations |
| `GuardedRuns.OneSendPerCall` | internal/tool/swagger_execute.go:314-340 | in every interleaving, different sends are of different calls |
| `GuardedRuns.DecideFacts` | internal/tool/swagger_execute.go:215-289 | a call waits for a confirmation only if the policy asks for one, and passes without only if it is allowed |
| `RateLimit.MinuteLimiter.Attempt` | internal/httpclient/client.go:231-248 | the locked section; after a refusal there is always a positive time to wait |
| `RateLimit.MinuteLimiter.Wait` | internal/httpclient/client.go:229-262 | waiting takes exactly one grant, in its last turn, or none; it succeeds if and only if some turn before the cancellation is granted |
| `RateLimit.WindowLength` | internal/httpclient/client.go:233-239 | a window lasts a minute to the nanosecond |
| `RateLimit.WindowsApart` | internal/httpclient/client.go:233-239 | windows start at least a minute apart, whatever the readings are |
| `RateLimit.GrantsFitWindows` | internal/httpclient/client.go:240-244 | over any run the grants fit into the windows, at most the limit each |
| `RateBounds.RateBound` | internal/httpclient/client.go:229-262 | with no reading older than a given age when the lock is taken, no half-open minute holds more grants than a bound in the limit and that age, which is `2 * max - 1` at age zero |
| `RateBounds.RateBoundIsTight` | internal/httpclient/client.go:229-262 | the bound is reached, for every limit and every age |
| `RateBounds.PromptExactly` | internal/httpclient/client.go:231-233 | all runs with readings up to an age keep `2 * max - 1` if and only if that age is zero |
| `RateBounds.StaleReadingsEscape` | internal/httpclient/client.go:231-234 | three turns with readings a minute apart, locked in one instant, are three grants of limit one in that minute |
| `Limiter.Client.Acquire` | internal/httpclient/client.go:176-200 | both slots or none; no other key is touched |
| `Limiter.Client.LimiterFor` | internal/httpclient/client.go:293-303 | the limiter of a key is created when first needed, and nothing else changes |
| `Limiter.Client.Do` | internal/httpclient/client.go:126-155 | on every exit both slots are back; which of the five results it is; a request goes out exactly if both rates grant it, after one grant of each, and no other key is charged |
| `Limiter.KeysNormalised` | internal/httpclient/client.go:363-371 | callers without a name share the key `anonymous`, and spaces around a name do not count |
| `LimiterRuns.Conservation` | internal/httpclient/client.go:126-208 | in every reachable state global tokens equal the calls between taking and giving back, each key's tokens equal its holders, both within their limits, no release finds its channel empty, and per-key grants summed never exceed global grants |
| `LimiterRuns.AllBack` | internal/httpclient/client.go:176-208 | when every call has ended, however it ended, all slots are free |
| `LimiterRuns.NoDeadlock` | internal/httpclient/client.go:176-200 | if a call is blocked on a slot, some call holds both slots, can take its key's slot, or is giving its slot back |
| `LimiterRuns.AlwaysProgress` | internal/httpclient/client.go:126-155 | while some call has not ended, some call can be brought closer to its end without a cancellation |
| `LimiterRuns.RunsKeepTheRates` | internal/httpclient/client.go:147-152 | in every run of any number of calls, the global rate and every key's rate keep the bound for the age of the readings that the run had |
| `SnapshotCache.CachedStore.Snapshot` | internal/swagger/store.go:131-160 | one caller: when it loads, what the state is afterwards and what it gets |
| `SnapshotCache.BuildsApart` | internal/swagger/store.go:131-160 | with reload off, a build starts at least the time to live after the end of every successful one before it |
| `SnapshotCache.FreshReadersNeverBuild` | internal/swagger/store.go:131-144 | in every interleaving, a call whose first reading comes less than the time to live after the end of the last successful build is answered at once and builds at no moment of the run |
| `SnapshotCache.ReadersDecide` | internal/swagger/store.go:131-152 | a call is answered at its first look, and builds after its second, exactly as its reading finds the last successful build fresh or not |
| `SnapshotCache.AnswersAreLatest` | internal/swagger/store.go:150-159 | in every interleaving an answer is the latest successful build at its moment: a failed build changes nothing and serves the old state, and errors occur exactly before the first success |
| `SnapshotCache.AnswersNeverGoBack` | internal/swagger/store.go:131-160 | later answers are never older |
| `Endpoints.CollectOperations` | internal/swagger/store.go:226-276 | the nested loops compute the collection |
| `Endpoints.Collected` | internal/swagger/store.go:226-276 | the collection holds exactly the declared operations, in strict path-then-method order, so path and method are unique together |
| `Endpoints.BeforeLawful` | internal/swagger/store.go:289-303 | the comparison is a lawful order |
| `Endpoints.SortKeyOrder` | internal/swagger/store.go:279-286 | comparing the key texts orders by the rank of the method, then by its name |
| `Endpoints.SortKeyInjective` | internal/swagger/store.go:279-286 | equal sort keys mean equal methods |
| `EndpointRules.Ranks` | internal/swagger/resolver.go:15-24 | the place of each of the eight methods |
| `EndpointRules.OthersLast` | internal/swagger/store.go:279-286 | any other method comes after these |
| `EndpointRules.EntryMeans` | internal/swagger/resolver.go:559-568 | an entry has the method in upper case and the operation's id, or else one made of method and path, without braces and with underscores for slashes |
| `EndpointIndexes.BuildIndexes` | internal/swagger/store.go:181-201 | one pass fills the list, the lists by method and the map by id |
| `EndpointIndexes.MethodListIsScan` | internal/swagger/store.go:181-201 | the endpoints are a sorted permutation of the collection, and the list of a method is their filter, in the same order |
| `EndpointIndexes.LookupIsLast` | internal/swagger/store.go:85-95 | a lookup finds the last declared operation with the trimmed id, and finds one if and only if there is one |
| `EndpointIndexes.FoundExactly` | internal/swagger/store.go:85-95 | a declared operation is found by some text if and only if its id has no surrounding spaces and no later operation has that id |
| `EndpointIndexes.SpacedIdIsNeverFound` | internal/swagger/store.go:85-95 | in a document with one operation, whose id has surrounding spaces, it is listed and never found |
| `Sorting.OrderedUnique` | internal/swagger/store.go:289-303 | there is one ordered permutation, so the sorting algorithm does not matter |
| `SearchIndex.NamesAreMentioned` | internal/tool/swagger_search.go:472-488 | the collected names are those that some marker gives at any depth |
| `SearchMeaning.ComponentIsNamed` | internal/tool/swagger_search.go:490-520 | the reference to a component, or to anything inside it, names it, for every name, escaped as in section 4 of RFC 6901 |
| `SearchMeaning.OthersAreNotNamed` | internal/tool/swagger_search.go:491-503 | a reference to anything else names no schema |
| `SearchMeaning.ReferenceIsMention` | internal/tool/swagger_search.go:472-488 | such a reference under any of the three markers mentions it |
| `SearchIndex.CollectNames` | internal/tool/swagger_search.go:460-488 | the recursion with its shared set collects exactly those names, in any order of keys |
| `SearchIndex.AddNames` | internal/tool/swagger_search.go:181-196 | marks exactly the named schemas for one operation |
| `SearchIndex.AddResponses` | internal/tool/swagger_search.go:162-175 | marks exactly the schemas and positive statuses of the responses |
| `SearchIndex.BuildIndexes` | internal/tool/swagger_search.go:144-178 | after the nested loops the indexes say what the endpoints use, and have no empty entries |
| `Search.SchemaEntryMeans` | internal/tool/swagger_search.go:317-324 | an entry exists, and reports request or response use, exactly if some endpoint with that trimmed id names the schema there, ignoring case |
| `Search.StatusEntryMeans` | internal/tool/swagger_search.go:327-334 | likewise for positive statuses among successes and errors |
| `Search.IndexScoresLikeScan` | internal/tool/swagger_search.go:213-284 | evaluation through the index equals evaluation by scanning the endpoints |
| `Search.IncludeSet` | internal/tool/swagger_search.go:441-457 | a part is shown if the caller's list names it; the endpoints also if the list names no known part |
| `Search.Execute` | internal/tool/swagger_search.go:59-92 | counts all matches and returns the first `min(limit, n)` of their ranking, or nothing if the endpoints are not to be shown; what matches is said by the next rows |
| `SearchMeaning.MatchesExactly` | internal/tool/swagger_search.go:213-310 | an endpoint matches if and only if each condition that the query sets holds of its own fields: the method, a tag, the text in its id, path, summary, description or a tag, the schema in a request or response, the status among successes or errors |
| `SearchMeaning.ScoreMeans` | internal/tool/swagger_search.go:213-310 | and its score is one point plus what each condition adds, field by field |
| `SearchMeaning.CountMeans` | internal/tool/swagger_search.go:59-92 | the count is the number of such endpoints |
| `Search.ResultsAreBest` | internal/tool/swagger_search.go:67-92 | the results are matches, as many as the limit allows, by descending score and ascending id, and no match that was cut off ranks higher |
| `Search.RankingUnique` | internal/tool/swagger_search.go:67-72 | with distinct ids the ranking by descending score, then id, is unique, whatever sort is used |
| `Redaction.RedactNode` | internal/audit/logger.go:137-169 | on JSON values: terminates by total text length and computes the redaction, in any order of keys |
| `Redaction.RedactedPath` | internal/audit/logger.go:137-169 | of a JSON value, at every path, through JSON inside strings too: "[REDACTED]" at a listed key, nothing below it, and elsewhere what stood there, redacted |
| `Redaction.TextsOpened` | internal/audit/logger.go:153-165 | a text is redacted as the JSON it holds if it starts with a brace or a bracket, spaces aside, and parses; every other text stays |
| `Redaction.NoListedEntrySurvives` | internal/audit/logger.go:137-169 | of a JSON value, every entry with a listed key is "[REDACTED]" at any depth |
| `AuditRecords.SlogLogger.LogCall` | internal/audit/logger.go:57-87 | nothing if disabled, and otherwise the record with both halves' headers redacted, plain bodies redacted, and a struct as it came |
| `AuditRecords.RecordKeeps` | internal/audit/logger.go:57-125 | no header is lost, those that are not listed keep their values |
| `AuditRecords.DecodingDecided` | internal/tool/swagger_http_common.go:1207-1240 | how a response body is decoded: as JSON if it is announced as that or looks like it and parses, else as text, else in base 64, with the content types that go with these |
| `AuditRecords.LeaksExactly` | internal/audit/logger.go:137-169 | some path leads to a listed key with another value than "[REDACTED]" if and only if the value is not clean, entry by entry |
| `AuditRecords.LoggedExactly` | internal/audit/logger.go:127-169 | what is logged shows no listed entry if and only if it is plain JSON, or a struct whose fields were clean when it came |
| `AuditRecords.RequestHalfIsClean` | internal/tool/swagger_execute.go:197-202 | for every call, no listed header and no listed field shows in the request half |
| `AuditRecords.ResponseHalfExactly` | internal/tool/swagger_execute.go:346-361 | for every call, no listed header shows in the response half; no listed field does if and only if no body was read, or the decoded body and the names of the struct's fields are clean without redaction |
| `AuditRecords.SecretShowsInResponse` | internal/tool/swagger_http_common.go:1207-1240 | one and the same object with a listed key: "[REDACTED]" as a request body, its value as a response body |
| `Redaction.OthersUntouched` | internal/audit/logger.go:137-169 | a plain value on a path without listed keys is unchanged |
| `Redaction.RedactTwice` | internal/audit/logger.go:137-169 | a second pass changes nothing |
| `Redaction.LowerSet` | internal/audit/logger.go:172-187 | exactly the trimmed, lower-cased, non-blank entries |
| `JsonText.TextCodecIsLawful` | internal/audit/logger.go:154-166 | JSON text with objects, lists, texts, integers, Booleans and null meets the laws that redaction asks of it |
| `JsonText.WrittenUnique` | internal/audit/logger.go:154-166 | a text is read in one way only: two texts of values that agree, whatever follows them, are of the same value |
| `Redaction.RedactHeaders` | internal/audit/logger.go:112-125 | listed headers are replaced, all others kept |

## Left out

- Validator.ValidateValue: the wording and the paths of the issues are not stated, only when there are none.
- Generator.PayloadGenerator.Generate: the wording of the warnings is not stated, only that warnings grow; the random source is a stream of draws, not a particular generator.
- Generator: numbers are reals; 64-bit overflow of very large bounds and floating-point rounding are not modelled, nor are the Go kinds a number can come in (`json.Number` and the integer kinds).
- Text: upper and lower case are those of ASCII letters; text is a sequence of characters, so invalid UTF-8 is not modelled.
- Json: maps and lists are values, so aliasing between a caller's map and a stored copy is not captured; this covers the in-place overwriting of cloned nodes in expansion and redaction, and the copies the stores hand out.
- RateBounds.RateBound: instants are whole nanoseconds of one clock that does not run backwards.
- Limiter.Client.Do: the sending itself, redirects and timeouts are one environment step.
- SchemaGraph.ExpandSchema: the copied keywords (type, title, limits, enum and so on) are one group.
- SchemaPaths.PathOutput: extension keys that shadow keywords or markers are set aside, since a path through such a key would end in the extension.
- GuardedCalls.ExecuteTool.Execute: finding the endpoint, choosing and checking the URL and preparing the request are one preliminary outcome; headers, metrics other than the in-flight count, the content of the response and its validation are not modelled.
- Policy.DecisionTable: the wording of reasons is not modelled; other evaluators than the default one are not either.
- Confirmation.MemoryStore.Request: the summary is stored as a value; identifiers are assumed fresh.
- SnapshotCache.CachedStore.Snapshot: what a build loads is represented by its number; loading and parsing are not part of this model.
- Endpoints.Collected: methods are in upper case and without spaces, as the parsing library delivers them.
- Endpoints.CollectOperations: of a resolved operation only method, path, id and an opaque rest are kept; resolving parameters, requests and responses only adds easy members.
- Search.Execute: match reasons and the schema and usage payloads are not modelled; scores are in tenths.
- JsonText.TextCodecIsLawful: an example of JSON text, to show that the laws can be met; it has integers, the escapes of quotes and backslashes, and no optional white space.
- JsonText.WrittenUnique: likewise about that notation alone.
- AuditRecords.SlogLogger.LogCall: headers, bodies and the enabled flag; the other fields of a record, the text handler's layout and the sanitising of the URL are not modelled.
- Redaction.RedactNode: a Go `[]string` is left alone by the program and by the model; URL sanitising rests on net/url and is not part of this model. JSON text is an abstract codec with the laws stated in the file; `JsonText` shows that they can be met.
- The inverse of the pointer round trip for non-canonical array indices such as `+1`, which the program accepts.
- Authentication, prompts, metrics, transport, configuration, the parser and the loader: thin or built on libraries that are not part of this model.
