# Verified models of the Kubernetes core logic

A Dafny model of seven pieces of Kubernetes whose correctness needs induction, interleaving or loop
invariants, with proofs of what they promise:

- deep copy and conversion by reflection (`pkg/conversion`): a copy equals its original and shares nothing
  with it except what unexported fields and map keys, which are not copied, force; conversion between matching
  types carries the value there and back unless an unexported field stops it, with the scope stacks restored
  on every path; registered functions are called just as registered;
- controller expectations (`pkg/controller`) as interleaved atomic steps: a check made of two separate loads
  is linearizable as long as counters only fall, every counter is a ledger of the calls made, and tracked
  deletions count exactly the announced UIDs still to be observed;
- API enablement and storage routing (`pkg/genericapiserver`): when the merge of overrides is independent of
  map iteration order, what the texts of keys and values come to, and when cohabiting resources are stored together;
- field selectors (`pkg/fields`): parser, printer and evaluator, with the exact set of selectors that survive
  a round trip;
- the Docker keyring (`pkg/credentialprovider`): an ordered index beside a map, over any sequence of additions;
- pod totals, conditions, sysctl annotations and pod ordering (`pkg/api`, `pkg/controller`);
- macro blocks in documents (`cmd/mungedocs`): when running the analytics pass again changes nothing.

Code that only computes is a function; code that works by updating things is a class or a method with a
loop, proved equal to a specification function, and the laws are proved of that function. Loops over Go maps
pick keys in an arbitrary order, and the theorems hold for every order.

Where a promise does not hold of the code, the model keeps the code as it is, gives a concrete failing input
and proves the exact condition: unprintable selector terms, private pointer fields, pointers as map keys,
conversion of structs with unexported fields, maps converted into structs, raised add counters during a check,
ExpectCreations over pending deletions, the two spellings of the legacy API version, cohabiting resources none of
which is enabled, and documents that end inside an open fence.

`dafny verify dfyconfig.toml` checks the whole project.

Files: `Wrappers`, `Permutations`, `Strings`, `LineScan` (shared definitions); `GoValues`, `Reachability`,
`ClonerSpec`, `Cloner`, `ClonerIsolation`; `ConverterSpec`, `Converter`, `ConverterFields`, `ConverterRoundTrip`,
`ConverterFlags`, `ConverterExample` (types and a converter that meet the assumptions of the conversion theorems);
`Expectations`, `ExpectationHistory`, `ExpectationCounters`, `UidExpectations`; `ResourceConfig`, `ApiMerge`,
`ApiMergeOrder`, `ApiMergeText`, `StorageFactory`; `FieldSelector`, `FieldSelectorRoundTrip`,
`FieldSelectorMeaning`, `FieldSet`; `Keyring`; `MungeDocs`, `Analytics`, `AnalyticsText`; `PodResources`,
`PodConditions`, `PodSysctls`, `PodOrder`.

## Model

| member | source | states |
|---|---|---|
| FieldSelector.MatchesIsConjunction | pkg/fields/selector.go:61-189 | for every selector tree, Matches holds of the fields iff each of its flattened Requirements holds |
| FieldSelector.EmptyMeansMatchesAll | pkg/fields/selector.go:65-156 | Empty() iff the selector matches all fields whatsoever (a breaking assignment is built for every non-empty one) |
| FieldSelector.ExactMatchIsRequired | pkg/fields/selector.go:69-168 | RequiresExactMatch finds a value iff some flattened requirement is an equality on that field, and the value it gives is one of them |
| FieldSelector.ExactMatchHolds | pkg/fields/selector.go:69-168 | if RequiresExactMatch(f) gives v, every matching assignment has Get(f) equal to v |
| FieldSelectorRoundTrip.RoundTripIffPrintable | pkg/fields/selector.go:191-272 | ParseSelector(t.String()) succeeds with the same multiset of requirements iff every requirement of t is printable; both directions, all trees |
| FieldSelectorRoundTrip.RoundTripMeaning | pkg/fields/selector.go:191-272 | a selector of printable terms, printed and parsed, matches exactly the fields it matched before |
| FieldSelectorRoundTrip.AcceptedButNotReadBack | pkg/fields/selector.go:242-272 | the family a==b=c: accepted by the parser, but the term it yields prints to a text the parser rejects |
| FieldSelectorRoundTrip.ParseIgnoresPartOrder | pkg/fields/selector.go:250-272 | permuting the comma parts of the input gives the identical selector or the identical failure, under any transform |
| FieldSelectorRoundTrip.ParseThenTransform | pkg/fields/selector.go:170-180 | parsing with a transform equals parsing and then Transform, failures included |
| FieldSelectorRoundTrip.SameRequirementsSameMeaning | pkg/fields/selector.go:134-189 | selectors with the same multiset of requirements match the same fields |
| FieldSelectorMeaning.SameMatchesIffSameConstraints | pkg/fields/selector.go:61-189 | two selectors match the same fields iff the requirements of each follow from those of the other, by a rule on the terms |
| FieldSelectorMeaning.KeepsMeaningIff | pkg/fields/selector.go:191-272 | the printed and reparsed selector matches the same fields iff the text parses and the requirements read from it and the original ones follow from each other |
| FieldSelectorMeaning.OneTermKeepsMeaningIff | pkg/fields/selector.go:92-130 | a single term keeps its meaning through printing and parsing iff it is printable |
| FieldSelectorMeaning.UnprintableKeepsMeaning | pkg/fields/selector.go:191-272 | a conjunction with an unprintable term that is read back differently and yet matches the same fields |
| FieldSet.SetString | pkg/fields/fields.go:38-46 | whatever order the loop visits, the result is the text that every order gives |
| FieldSet.SelectorFromSet | pkg/fields/selector.go:201-213 | nil gives Everything; one entry gives a bare term, any other number an AND over all entries |
| FieldSet.FromSetMeaning | pkg/fields/selector.go:201-213 | the selector of a set matches exactly the fields that agree with the set on each of its keys |
| FieldSet.SetTextIgnoresOrder | pkg/fields/fields.go:38-46 | Set.String does not depend on map iteration order |
| FieldSet.SetTextParsesBack | pkg/fields/fields.go:36-46 | the text of a set parses back to its entries iff every entry is printable |
| FieldSet.SetTextMeansFromSet | pkg/fields/fields.go:36-46 | for such sets the parsed text and SelectorFromSet match the same fields |
| FieldSet.ParseWith | pkg/fields/selector.go:250-272 | the parser as its loop over the sorted parts computes Parse, early failure included |
| FieldSet.TransformSelector | pkg/fields/selector.go:170-180 | the transform loop over an AND computes Transform |
| FieldSelector.TransformRewrites | pkg/fields/selector.go:81-180 | Transform rewrites field and value of each requirement by the function, keeping its operator, and fails iff the function refuses one |
| FieldSet.RequirementsOf | pkg/fields/selector.go:182-189 | the loop over an AND collects the flattened requirements |
| PodSysctls.SysctlsFromPodAnnotation | pkg/api/helpers.go:602-618 | the array-filling loop computes Parse, with failure at the first bad pair |
| PodSysctls.PodAnnotationsFromSysctls | pkg/api/helpers.go:621-631 | the array-filling loop computes Format |
| PodSysctls.FormatUndoesParse | pkg/api/helpers.go:602-631 | every accepted annotation is reproduced exactly, and holds only clean pairs |
| PodSysctls.ParseUndoesFormatIffClean | pkg/api/helpers.go:602-631 | a list survives printing and parsing iff all names are non-empty and no name or value has a comma or equals sign |
| PodSysctls.AnnotationText | pkg/api/helpers.go:621-631 | the text is name=value pairs with commas between |
| Cloner.Cloner.DeepCopy | pkg/conversion/cloner.go:121-135 | on any value acyclic but for map keys: no existing cell changes; success gives a structurally equal value; in a memory without dangling references the copy can get at the cells below opaque structs and behind map keys and at no other old cell, leaving to registered functions only which of the former they keep; it fails only at a channel, function, unsafe pointer or uintptr or in a registered function that may fail; for a registered pointer type the outcome is that of the function itself |
| Cloner.Cloner.DeepCopyValue | pkg/conversion/cloner.go:137-157 | the same for the dispatch over nil, registered and default copying; for a registered pointer type success, memory and result are those of the function registered by hand, else of the generated one, called on memory with one new zero cell |
| Cloner.Cloner.CustomDeepCopy | pkg/conversion/cloner.go:147-169 | success, memory and result are those of the call on a new zero cell; a function that fills it with an equal value sharing at most what the default copy would gives a true copy and leaves all old cells alone |
| Cloner.Cloner.DefaultDeepCopy | pkg/conversion/cloner.go:171-249 | the same for the switch over kinds |
| Cloner.Cloner.CopyPtr | pkg/conversion/cloner.go:203-213 | pointer case: fresh cell holding a copy of the target |
| Cloner.Cloner.CopyMap | pkg/conversion/cloner.go:190-202 | map case, keys in any order: fresh map, same keys, copied values; empty stays empty and non-nil |
| Cloner.Cloner.CopyEntry | pkg/conversion/cloner.go:195-200 | one key of the map case: its value copied against the memory as it was at the start and stored, or a value that cannot be copied |
| Cloner.Cloner.CopySlice | pkg/conversion/cloner.go:214-226 | slice case: fresh backing array of the slice's elements, copied |
| Cloner.Cloner.CopyElements | pkg/conversion/cloner.go:219-225 | the loop of the slice case: all elements copied in order, or the first one that cannot be |
| Cloner.Cloner.CopyElement | pkg/conversion/cloner.go:219-224 | one element of the slice case, likewise |
| Cloner.Cloner.CopyNext | pkg/conversion/cloner.go:177-240 | one array element or struct field, likewise, held inline |
| Cloner.Cloner.CopyArray | pkg/conversion/cloner.go:175-184 | array case: element-wise copy held inline |
| Cloner.Cloner.CopyStruct | pkg/conversion/cloner.go:227-243 | struct case: field-wise copy, or the struct itself as soon as an unsettable field is met |
| Cloner.Cloner.RegisterDeepCopyFunc | pkg/conversion/cloner.go:96-104 | only the named type's entry changes; honest functions stay honest if the new one is |
| Cloner.Cloner.RegisterGeneratedDeepCopyFunc | pkg/conversion/cloner.go:115-118 | the same for generated functions |
| Cloner.Cloner.constructor | pkg/conversion/cloner.go:32-42 | a new cloner knows the byte-slice function and nothing else |
| Cloner.CopyBytes | pkg/conversion/cloner.go:32-53 | a new cloner copies every pointer to a byte slice, nil or not, without failing |
| Cloner.ByteSliceDeepCopyIsHonest | pkg/conversion/cloner.go:45-53 | the built-in byte-slice function meets the contract asked of registered functions: nil stays nil, otherwise a fresh array |
| Cloner.AssignmentDeepCopyIsHonest | pkg/apis/meta/v1/time.go:43-45 | copying by assignment a struct with unexported pointers, as generated functions do with times, meets that contract too |
| Cloner.AssignmentFills | pkg/apis/meta/v1/time.go:43-45 | and it copies every such struct |
| Cloner.SuccessIsExact | pkg/conversion/cloner.go:137-249 | where of registered types only pointers are met on which the function succeeds in any later memory, or none, a copy succeeds iff the traversal meets no channel, function, unsafe pointer or uintptr |
| ClonerSpec.SettableSharesKeysOnly | pkg/conversion/cloner.go:190-243 | if all structs have only settable fields, the copy can get at an old cell iff it is behind a map key; registered functions of any honest kind |
| ClonerSpec.KeysAreShared | pkg/conversion/cloner.go:195-200 | original and copy hold exactly the same cells through their map keys |
| Reachability.HeldSplits | pkg/conversion/cloner.go:190-202 | a cell can be got at from a value iff it is reached through values or hangs from some map key inside, keys being allowed to be cyclic |
| ClonerSpec.DisjointIffNothingKept | pkg/conversion/cloner.go:171-249 | where no registered type intervenes, no cell can be got at from both original and copy iff nothing hangs below a struct with an unsettable field or from a map key |
| ClonerSpec.SharingIsExact | pkg/conversion/cloner.go:171-249 | where no registered type intervenes the copy can get at exactly those old cells that hang below a struct with an unsettable field or from a map key |
| ClonerSpec.DisjointIfNothingMay | pkg/conversion/cloner.go:137-249 | with registered functions of any honest kind: if nothing hangs below such a struct or from a map key, original and copy are disjoint |
| ClonerSpec.OriginalIsIsolated | pkg/conversion/cloner.go:171-249 | if the original reaches through values no cell that hangs below such a struct or from a map key, then whatever is done to any cell the copy can get at, map keys included, the original keeps its value; registered functions of any honest kind |
| ClonerIsolation.IsolatedIff | pkg/conversion/cloner.go:171-249 | where no registered type intervenes: no writes through the copy, its map keys included, can be seen through the original iff no cell that shows in the original hangs below a struct with an unsettable field or from a map key; a write that shows is built for every such cell |
| ClonerIsolation.NothingShownIsolates | pkg/conversion/cloner.go:137-249 | one half with registered functions of any honest kind: if no such cell shows, every write through the copy, its map keys included, leaves the original as it was |
| ClonerIsolation.KeyIsNotCopied | pkg/conversion/cloner.go:195-200 | counterexample: a struct of a map with a pointer as key and of that pointer, all fields settable; writing through the key of any copy shows in the original |
| ClonerSpec.PrivatePointerStaysShared | pkg/conversion/cloner.go:230-236 | counterexample: a pointer in an unexported field still points into the original |
| Expectations.CheckInvStep | pkg/controller/controller_utils.go:141-242 | every atomic step of every operation, del raises included, keeps the invariant that an add counter seen at or below zero stays there |
| Expectations.AnswerIsTrueWhenDecided | pkg/controller/controller_utils.go:233-242 | in every interleaving that never raises an add counter, Fulfilled's answer is the truth about the object at the load that decides it |
| Expectations.CheckedEntry | pkg/controller/controller_utils.go:141-151 | the object a check loads from is the one the store held for the key when the check began |
| Expectations.CheckIsLinearizable | pkg/controller/controller_utils.go:130-205 | there a whole SatisfiedExpectations call equals an atomic read of its entry at one of its two loads |
| Expectations.RaiseBreaksChecks | pkg/controller/controller_utils.go:199-205 | for every x > 0 and every d: a run whose only adjustments are by (x, d) in which a check says yes about an object that was never fulfilled |
| Expectations.ChecksAreSoundIff | pkg/controller/controller_utils.go:190-242 | for every set of permitted adjustments: all answers in all runs are true at the deciding load iff no permitted adjustment raises the add counter, and iff no yes is ever given about a never fulfilled object |
| UidExpectations.UidInvStep | pkg/controller/controller_utils.go:181-340 | every atomic step of the tracked operations, ExpectCreations, CreationObserved and checks keeps the invariant tying counters, UID sets and lock |
| UidExpectations.UidInvAlways | pkg/controller/controller_utils.go:181-340 | so it holds in every state of every run |
| UidExpectations.DeletionsCountUids | pkg/controller/controller_utils.go:297-340 | whenever the lock is free: del is at most the number of UIDs of the last announced list not observed since, both read from the calls; for an entry of the tracked ExpectDeletions it equals that number, so its deletions are fulfilled iff every UID of the list was observed |
| ExpectationHistory.MadeIsLast | pkg/controller/controller_utils.go:130-187 | which call made the entry of a key, read from the calls alone: the last that stored one, with no deletion since |
| ExpectationHistory.UidsAreAwaited | pkg/controller/controller_utils.go:297-340 | in every run, whenever the lock is free, the UID set of a key is exactly the list of the last announcement not forgotten since, without the UIDs observed since |
| ExpectationCounters.EntryFollowsCalls | pkg/controller/controller_utils.go:130-230 | in every state of every run a key has an entry iff the calls say so; its maker is the one that stored it last, and its add and del are the amounts given plus the amounts added since by the calls that found it; while none of these is under way, of all of them |
| ExpectationCounters.ChecksProceed | pkg/controller/controller_utils.go:141-167 | each step of a check goes to the next load or to the answer that the calls so far give |
| ExpectationCounters.AnswerFollowsCalls | pkg/controller/controller_utils.go:141-242 | without raises of an add counter: a check says yes iff by the calls alone both counters are at or below zero at the load that decides |
| ExpectationCounters.YesNeedsObservations | pkg/controller/controller_utils.go:141-242 | in every interleaving, raises included: a check says yes only if the calls that found the entry lowered each counter by at least what it was given |
| ExpectationCounters.CreationsAreAwaited | pkg/controller/controller_utils.go:181-215 | after ExpectCreations(k, n) a check says yes only once n creations were observed |
| UidExpectations.DeletionsToldTrulyIff | pkg/controller/controller_utils.go:181-340 | an entry awaits no deletion exactly when every UID of the announced list was observed, iff the tracked ExpectDeletions made the entry or all were observed; so not when ExpectCreations made it with UIDs still to come |
| UidExpectations.CreationsForgetDeletions | pkg/controller/controller_utils.go:181-183 | counterexample run: ExpectCreations resets del while a UID is still awaited |
| Converter.DoConversion | pkg/conversion/converter.go:543-564 | fails unless both arguments are non-nil pointers, else gives the outcome of Conv, and for an ignored or registered pair what the registration says; no stack top is read on an empty stack |
| Converter.Convert | pkg/conversion/converter.go:575-633 | an ignored pair leaves the destination; otherwise the function registered for the pair, by hand before generated, gives the result from the defaulted source, destination, flags and tags; otherwise the default one, as Conv says; both scope stacks exactly as at entry on every path |
| Converter.DefaultConvert | pkg/conversion/converter.go:637-672 | settability, name check and direct assignment as DefConv says; both stacks exactly as at entry on every path |
| Converter.ConvertKind | pkg/conversion/converter.go:674-742 | the switch over kinds computes KindConv; only the top frames may be relabelled |
| Converter.ConvertInFrame | pkg/conversion/converter.go:666-742 | the switch inside a frame of its own, after which both stacks are exactly as at entry |
| Converter.ConvertPtr | pkg/conversion/converter.go:690-702 | into a pointer: nil stays nil, otherwise a new target filled from what the source refers to; both stacks as at entry |
| Converter.ConvertIface | pkg/conversion/converter.go:726-737 | into an interface: nil stays nil, otherwise a value of the dynamic type is converted and stored if it implements the interface; both stacks as at entry |
| Converter.ConvertSlice | pkg/conversion/converter.go:677-689 | the element loop computes SliceFrom; only the top frames may be relabelled |
| Converter.ConvertMap | pkg/conversion/converter.go:703-725 | the key loop, each key and value converted into a fresh zero, computes MapFrom; only the top frames may be relabelled |
| Converter.ConvertKV | pkg/conversion/converter.go:843-896 | the field loop in either direction computes StructConv; only the top frames may be relabelled |
| Converter.ConvertKeys | pkg/conversion/converter.go:859-895 | the loop over the listed keys computes KVFrom, stopping at the first failure |
| Converter.ConvertKey | pkg/conversion/converter.go:859-894 | one field: field-copy rules, missing fields, tags, conversion, store |
| Converter.CheckFieldRules | pkg/conversion/converter.go:900-953 | the field-copy rules compute CheckField; only the top frames may be relabelled |
| Converter.Scope.Push | pkg/conversion/converter.go:245-247 | both stacks grow by one frame |
| Converter.Scope.Pop | pkg/conversion/converter.go:240-243 | both stacks lose their top frame |
| Converter.Scope.Relabel | pkg/conversion/converter.go:278-287 | the labels of the top frames become the given ones, their tags and all else stay |
| ConverterFields.OneField | pkg/conversion/converter.go:859-894 | one field without rules: the source field that the key or the mapping names is converted into the destination field it names, under the tags of the key; a missing one is skipped or fails, as the flag says |
| ConverterFields.OneSourceRule | pkg/conversion/converter.go:902-928 | if one field-copy rule for a destination field applies, the source field it names is converted into it, whatever the field's own name |
| ConverterFields.OneDestRule | pkg/conversion/converter.go:930-953 | if one field-copy rule for a source field applies, it is converted into the destination field the rule names |
| ConverterFields.RefusedByDefault | pkg/conversion/converter.go:640-649 | without a registered function an unsettable destination, or type names that differ without leave, are refused |
| ConverterFields.IntoPointer | pkg/conversion/converter.go:690-702 | for any converter: nil stays nil; otherwise what the source refers to is converted into a new zero target |
| ConverterFields.IntoInterface | pkg/conversion/converter.go:726-737 | for any converter: nil stays nil; otherwise the value referred to is converted at its own type and stored, a panic unless it implements the interface |
| ConverterFields.SliceByElements | pkg/conversion/converter.go:677-689 | for any converter: a slice is converted element by element into fresh zero values, and the first element that does not convert decides |
| ConverterFields.MapByEntries | pkg/conversion/converter.go:703-725 | for any converter: a converted map has just the converted entries, unless two keys fall together |
| ConverterRoundTrip.ConvCarries | pkg/conversion/converter.go:597-742 | between types that match all the way down, without special rules, for values whose interfaces hold types that match themselves: conversion succeeds iff every struct inside the value has only exported fields; then it yields the same tree at the destination type, and otherwise it fails without a panic |
| ConverterRoundTrip.DestinationOverwritten | pkg/conversion/converter.go:637-742 | what the destination held before makes no difference to that outcome, success or failure |
| ConverterRoundTrip.RoundTrip | pkg/conversion/converter.go:597-742 | converting there and back, into any destinations, succeeds iff every struct inside the value has only exported fields, and then restores the original value exactly |
| ConverterRoundTrip.LikeSymmetric | pkg/conversion/converter.go:637-742 | carrying the same tree is a symmetric relation on values |
| ConverterRoundTrip.LikeUnique | pkg/conversion/converter.go:637-742 | a type has at most one value carrying a given tree |
| ConverterFlags.LoopIsFieldwise | pkg/conversion/converter.go:843-896 | whichever list of keys the loop walks: it succeeds iff the shared listed fields convert, converts exactly those, leaves the others |
| ConverterFlags.StructConvIsFieldwise | pkg/conversion/converter.go:843-896 | a struct conversion with missing fields ignored converts the shared fields and leaves all others untouched |
| ConverterFlags.ConvAgrees | pkg/conversion/converter.go:487-506 | SourceToDest and DestFromSource succeed on the same inputs with the same destination, at every nesting level and under every name setting, unless a non-empty string-keyed map goes into a struct |
| ConverterFlags.DirectionsAgreeIff | pkg/conversion/converter.go:487-506 | SourceToDest succeeds iff DestFromSource does and no non-empty string-keyed map goes into a struct, and then with the same destination |
| ConverterFlags.EmptyIntoStruct | pkg/conversion/converter.go:773-804 | an empty or nil string-keyed map leaves the struct as it was, in both directions |
| ConverterExample.HiddenFieldFails | pkg/conversion/converter.go:637-642 | counterexample: between matching types without special rules, a struct with an unexported field is refused under all flags |
| ConverterExample.MapIntoStructDisagrees | pkg/conversion/converter.go:779-792 | counterexample: a map with one entry goes into the struct field from the destination, and panics from the source |
| ResourceConfig.Config.EnableVersions | pkg/genericapiserver/resource_config.go:77-86 | the loop switches each listed version on, creating missing ones, and keeps their resource sets |
| ResourceConfig.Config.DisableVersions | pkg/genericapiserver/resource_config.go:66-75 | the same, off |
| ResourceConfig.Config.EnableResources | pkg/genericapiserver/resource_config.go:100-111 | each listed resource is added to the enabled set of its version and lifted from the disabled set, creating missing versions |
| ResourceConfig.Config.DisableResources | pkg/genericapiserver/resource_config.go:88-98 | each listed resource is added to the disabled set of its version; the enabled set stays |
| ResourceConfig.Config.FindEnabledVersion | pkg/genericapiserver/resource_config.go:116-128 | the loop over the map, in any order, finds whether some version of the group has the resource enabled |
| ResourceConfig.SetVersionsPointwise | pkg/genericapiserver/resource_config.go:66-86 | switching a list of versions touches exactly those versions, whatever the order and repetitions |
| ResourceConfig.SetResourcesPointwise | pkg/genericapiserver/resource_config.go:88-111 | switching a list of resources moves exactly those and no version's switch, whatever the order and repetitions |
| ResourceConfig.NewVersionsAreOn | pkg/genericapiserver/resource_config.go:61-111 | a version first heard of by a switch of one of its resources is on, and that resource as switched |
| ApiMerge.VersionLoopResult | pkg/genericapiserver/default_storage_factory_builder.go:93-125 | after the first loop each version's switch is the last word any key had on it, and nothing else moved |
| ApiMerge.ResourceLoopOk | pkg/genericapiserver/default_storage_factory_builder.go:128-162 | the second loop succeeds iff every key is acceptable at its start, in any order, and leaves the last word on each resource |
| ApiMerge.MergeAccepts | pkg/genericapiserver/default_storage_factory_builder.go:67-164 | without contradicting keys, success does not depend on iteration order: it is the declarative Accepted |
| ApiMerge.MergeEntry | pkg/genericapiserver/default_storage_factory_builder.go:67-164 | without contradicting keys, each stored switch and set is the declarative one; a version key beats api/all, which beats the default |
| ApiMerge.MergeIsDeclarative | pkg/genericapiserver/default_storage_factory_builder.go:67-164 | for all iteration orders: success iff Accepted, and every ResourceEnabled answer is the declarative ResourceOn |
| ApiMergeOrder.OrderFreeIffNoConflict | pkg/genericapiserver/default_storage_factory_builder.go:93-162 | once some order succeeds: all iteration orders give the same result iff no two keys contradict each other |
| ApiMergeOrder.OnlyLegacyKeysCollide | pkg/genericapiserver/default_storage_factory_builder.go:102-111 | two different keys name one target only as api/v1 and /v1, with the same resource if any |
| ApiMergeOrder.OneSpellingNoConflict | pkg/genericapiserver/default_storage_factory_builder.go:102-141 | overrides that spell the legacy version one way only never contradict each other |
| ApiMergeOrder.BothSpellingsDependOnOrder | pkg/genericapiserver/default_storage_factory_builder.go:102-125 | counterexample: both spellings, one on and one off, make the answer depend on iteration order |
| ApiMergeOrder.ParseTwoParts | pkg/runtime/schema/group_version.go:218-234 | a text of two slash-free parts parses to exactly that group and version |
| ApiMergeOrder.MergeAPIResourceConfigs | pkg/genericapiserver/default_storage_factory_builder.go:67-164 | the merge in place, with arbitrary visiting orders, ends in a state that Merge gives for some orders; without contradicting keys, in the declarative one |
| ApiMergeOrder.ApplyVersionKey | pkg/genericapiserver/default_storage_factory_builder.go:94-124 | one key of the first loop: skipped, refused or applied as VersionStep says |
| ApiMergeOrder.ApplyResourceKey | pkg/genericapiserver/default_storage_factory_builder.go:129-161 | one key of the second loop: skipped, refused or applied as ResourceStep says |
| ApiMergeText.VersionKeysAreNames | pkg/genericapiserver/default_storage_factory_builder.go:94-111 | the keys that switch a version are exactly the texts group/version of two slash-free parts, and api/v1 for the version v1 of the nameless group |
| ApiMergeText.ResourceKeysAreNames | pkg/genericapiserver/default_storage_factory_builder.go:129-144 | likewise group/version/resource for resources |
| ApiMergeText.VersionFollowsText | pkg/genericapiserver/default_storage_factory_builder.go:93-125 | a successful merge has a version on if its keys carry no value or a spelling of true, and off if they carry a spelling of false |
| ApiMergeText.ResourceFollowsText | pkg/genericapiserver/default_storage_factory_builder.go:128-161 | the same for a resource, as ResourceEnabled answers |
| ApiMergeText.BadKeysFail | pkg/genericapiserver/default_storage_factory_builder.go:112-178 | a key for an unregistered version, or any other text as value, makes the merge fail |
| ApiMergeText.AllSwitchesTheRest | pkg/genericapiserver/default_storage_factory_builder.go:71-80 | api/all with exactly true or false switches the registered versions without keys of their own; all others keep their default |
| StorageFactory.Factory.SetEtcdLocation | pkg/genericapiserver/storage_factory.go:133-137 | changes the servers of the one resource, creating its entry if missing, and nothing else |
| StorageFactory.Factory.SetEtcdPrefix | pkg/genericapiserver/storage_factory.go:139-143 | changes the base prefix of the one resource and nothing else |
| StorageFactory.Factory.SetResourceEtcdPrefix | pkg/genericapiserver/storage_factory.go:146-150 | changes the resource prefix of the one resource and nothing else |
| StorageFactory.Factory.SetSerializer | pkg/genericapiserver/storage_factory.go:152-157 | changes media type and serializer of the one resource and nothing else |
| StorageFactory.Factory.AddCohabitatingResources | pkg/genericapiserver/storage_factory.go:160-166 | the loop links every member to the whole list |
| StorageFactory.Factory.GetStorageGroupResource | pkg/genericapiserver/storage_factory.go:172-180 | the loop finds the first enabled member of the list, or the resource itself |
| StorageFactory.Factory.NewConfig | pkg/genericapiserver/storage_factory.go:184-245 | the configuration of ConfigFor: exact settings beat group settings beat defaults; encoding and codec failures are passed on |
| StorageFactory.Factory.ResourcePrefix | pkg/genericapiserver/storage_factory.go:301-318 | the prefix of PrefixFor, falling back to the lower-cased resource name |
| StorageFactory.Factory.Backends | pkg/genericapiserver/storage_factory.go:249-256 | sorted, without repetition, exactly the configured servers, and holds every server any successful NewConfig hands out |
| StorageFactory.RunKeepsLastWrites | pkg/genericapiserver/storage_factory.go:133-166 | after any sequence of calls each setting of a resource is what the last call about exactly that setting said |
| StorageFactory.FirstOnWins | pkg/genericapiserver/storage_factory.go:172-180 | the first member of the list that is enabled in some version of its group is where the resource is stored |
| StorageFactory.LastCallsDecide | pkg/genericapiserver/storage_factory.go:184-245 | after any calls: servers, prefix, media type and serializer are what was last set for the chosen resource, else for all resources of its group, else the default; storage version from the chosen, memory version from the asked resource |
| StorageFactory.LastCallsDecidePrefix | pkg/genericapiserver/storage_factory.go:301-319 | the same for the key prefix, down to the lower-cased resource name |
| StorageFactory.StoredTogetherIffSomeEnabled | pkg/genericapiserver/storage_factory.go:160-180 | after any calls, the members of a linked list are stored in one place iff some member is enabled or the list has one member |
| StorageFactory.CohabitantsAgree | pkg/genericapiserver/storage_factory.go:172-318 | then they share the resource prefix, and successful configurations agree on everything but the in-memory version |
| StorageFactory.DisabledCohabitantsSplit | pkg/genericapiserver/storage_factory.go:172-180 | counterexample: with no member enabled two linked resources are stored apart |
| Keyring.BasicDockerKeyring.Add | pkg/credentialprovider/keyring.go:75-129 | keeps the index strictly descending and equal to the key set of the credentials; credentials become AddAll of the entries in visiting order |
| Keyring.ReadEntry | pkg/credentialprovider/keyring.go:82-118 | one location: its registry key and credentials, or nothing if it does not parse |
| Keyring.VersionPathIsIgnored | pkg/credentialprovider/keyring.go:107-116 | a location under /v1/ or /v2/ has the same key as the location without that version path |
| Keyring.BasicDockerKeyring.Lookup | pkg/credentialprovider/keyring.go:239-264 | the loop over the index gives Answer |
| Keyring.UrlsMatch | pkg/credentialprovider/keyring.go:206-234 | says yes iff ports agree, the hosts have equally many parts that all match, and the path is a prefix; fails only on a bad pattern |
| Keyring.UrlsMatchStr | pkg/credentialprovider/keyring.go:186-196 | says yes iff both texts parse and match |
| Keyring.DefaultRegistryImages | pkg/credentialprovider/keyring.go:139-161 | only the part before the first slash decides whether an image comes from the default registry |
| Keyring.IndexUnique | pkg/credentialprovider/keyring.go:121-128 | the index is determined by the key set alone |
| Keyring.AddAppends | pkg/credentialprovider/keyring.go:80-119 | Add appends to each key exactly the entries that name it; what was there stays in front |
| Keyring.EntryIsKept | pkg/credentialprovider/keyring.go:80-119 | no entry whose location parses is lost |
| Keyring.VisitOrderOnlyPermutes | pkg/credentialprovider/keyring.go:80-119 | the visiting order of the configuration only permutes the credentials within a key |
| Keyring.RunKeepsEverything | pkg/credentialprovider/keyring.go:75-129 | after any sequence of Adds a key holds every entry ever added for it, in order, and nothing else |
| Keyring.MoreSpecificFirst | pkg/credentialprovider/keyring.go:121-128 | all credentials of a matching key come before those of a matching key that is its proper prefix |
| Keyring.LookupGives | pkg/credentialprovider/keyring.go:239-264 | exactly the credentials of the matching keys; the default registry only if no key matches; failure iff that gives nothing either |
| Keyring.AnswerIsFindable | pkg/credentialprovider/keyring.go:75-264 | after any sequence of Adds a lookup finds exactly the credentials the configurations supply for matching keys, else for the default registry, whatever the visiting orders |
| Keyring.EntryIsFound | pkg/credentialprovider/keyring.go:65-128 | an entry of any configuration is found for the images its key matches, with its user, password and email, or its provider alone |
| Keyring.PlainKey | pkg/credentialprovider/keyring.go:91-116 | a location without scheme or version path has its host as key, with the path unless that is empty or a slash |
| Keyring.FallsBackToDockerHub | pkg/credentialprovider/keyring.go:129-263 | an image without a registry that no key matches gets the credentials of index.docker.io, if there are any |
| Keyring.MatchesMeans | pkg/credentialprovider/keyring.go:165-236 | a key matches an image iff the ports are equal, the hosts have as many parts that fit one by one, and the key's path begins the image's |
| Keyring.LazyLookup | pkg/credentialprovider/keyring.go:268-276 | adding every provider's configuration in turn and looking up finds exactly that, in the order of the index |
| MungeDocs.GetMungeLines | cmd/mungedocs/util.go:248-270 | the loop flags each line as Scan does |
| MungeDocs.RemoveMacroBlock | cmd/mungedocs/util.go:81-112 | the loop computes Remove, failures on unbalanced marks included |
| MungeDocs.UpdateMacroBlock | cmd/mungedocs/util.go:33-67 | the loop computes Update, failures on unbalanced marks included |
| MungeDocs.LastUpdateWins | cmd/mungedocs/util.go:33-67 | updating a block twice equals updating it once with the later lines, if the earlier lines hold no mark |
| MungeDocs.RemoveUnmarks | cmd/mungedocs/util.go:81-112 | a successful removal leaves no mark outside preformatted text |
| MungeDocs.BlockIsRemoved | cmd/mungedocs/util.go:81-112 | a block goes with its marks and its text but preformatted lines; the lines around it stay |
| MungeDocs.UnbalancedIsRefused | cmd/mungedocs/util.go:81-112 | an end mark first, a second begin mark, or no end mark is refused |
| MungeDocs.BlockIsRefilled | cmd/mungedocs/util.go:33-67 | updating puts the new lines between the marks in place of all that was there |
| MungeDocs.FenceMeans | cmd/mungedocs/util.go:209-212 | a fence is space, three backquotes and a rest; it is an inline one iff the rest has three backquotes again |
| MungeDocs.FencedLines | cmd/mungedocs/util.go:248-270 | the lines from a fence that opens up to, and not with, the next fence are preformatted, and no others |
| MungeDocs.FlagsOf | cmd/mungedocs/util.go:213-232 | the header flag is a leading #, the tag flags are the mark texts anywhere in the line |
| Analytics.UpdateAnalytics | cmd/mungedocs/analytics.go:27-58 | the sequence of passes computes Analyze; a file name that cannot be made relative is a failure |
| Analytics.AnalyzeShape | cmd/mungedocs/analytics.go:27-58 | the pass succeeds iff the old blocks can be removed; the result is the kept lines, at most one blank line, one filled block |
| Analytics.OnlyStrayLinksGo | cmd/mungedocs/analytics.go:41-51 | exactly the lines that begin with the analytics link, outside code, headers and marks, are dropped |
| Analytics.BlankBeforeBlock | cmd/mungedocs/util.go:126-134 | a blank line stands before the block unless nothing does, and it is added only where there was none |
| Analytics.SecondRunIff | cmd/mungedocs/analytics.go:27-58 | on lines: a second pass changes nothing iff the block written removes itself without a trace |
| Analytics.SecondRunChangesNothing | cmd/mungedocs/analytics.go:27-58 | for file names on one line the second pass returns the very same lines |
| AnalyticsText.ReadBack | cmd/mungedocs/util.go:195-246 | writing newline-free lines and splitting the text again gives the same texts |
| AnalyticsText.RemoveKeepsFences | cmd/mungedocs/util.go:81-112 | removing blocks without fences inside leaves every line's preformatted flag as a new reading would set it |
| AnalyticsText.SecondRunOnTextIff | cmd/mungedocs/analytics.go:27-58 | on whole documents: a second run leaves the text alone iff the kept text, read afresh, ends outside fences and shows no mark and no stray link |
| AnalyticsText.FencelessBlocksSettle | cmd/mungedocs/util.go:248-270 | without fences inside blocks that condition is just: the document does not end inside an open fence |
| AnalyticsText.UnclosedFenceIsNotStable | cmd/mungedocs/util.go:248-270 | counterexample: a document that is one opening fence changes again on the second run |
| PodResources.AddContainer | pkg/api/resource_helpers.go:189-196 | the loop over one container's resources, in any order, adds them to the totals |
| PodResources.RaiseToInit | pkg/api/resource_helpers.go:208-217 | the loop over one init container's resources, in any order, raises the totals to them |
| PodResources.PodRequestsAndLimits | pkg/api/resource_helpers.go:186-230 | the nested loops compute Total over the containers' requests and over their limits |
| PodResources.TotalIsMaximum | pkg/api/resource_helpers.go:186-230 | the totals hold exactly the resources named anywhere, each at the maximum of the sum over containers naming it and every init value |
| PodResources.PodOrderDoesNotMatter | pkg/api/resource_helpers.go:186-230 | any order of containers and of init containers gives the same totals |
| PodConditions.GetPodCondition | pkg/api/resource_helpers.go:118-128 | the first condition of the type, or -1, also for a nil status |
| PodConditions.UpdatePodCondition | pkg/api/resource_helpers.go:147-172 | adds or replaces in place, keeping the transition time while the status is the same; true iff the stored conditions changed |
| PodConditions.RunFollowsHistory | pkg/api/resource_helpers.go:147-172 | over any sequence of updates from unique types: types stay unique and each transition time is that of the latest status change or addition, or the initial one |
| PodConditions.StoredTimeIsLastChange | pkg/api/resource_helpers.go:147-172 | by position: the stored transition time is that of the last request that changed the status of the type; if none did, status and time are the initial ones |
| PodConditions.StoredIsLastRequest | pkg/api/resource_helpers.go:147-172 | over any sequence of updates what is stored for a type is the last request for it, reason, message and probe time included, but for the transition time |
| PodOrder.PodReadyTime | pkg/controller/controller_utils.go:714-724 | the loop finds the time of the first true ready condition of a ready pod, else zero |
| PodOrder.MaxContainerRestarts | pkg/controller/controller_utils.go:726-732 | the largest restart count, or zero |
| PodOrder.LoggingIsRank | pkg/controller/controller_utils.go:634-663 | ByLogging.Less is the field-by-field comparison of eight-part ranks, zero times last |
| PodOrder.ActiveIsRank | pkg/controller/controller_utils.go:671-712 | ActivePods.Less is the field-by-field comparison of eight-part ranks, zero times first |
| PodOrder.PodOrdersAreStrictWeak | pkg/controller/controller_utils.go:634-732 | both are strict weak orders over all pods; ties are exactly equal ranks |
| PodOrder.AssignmentDecides | pkg/controller/controller_utils.go:634-677 | an unassigned pod is deleted before an assigned one and read from after it |
| PodOrder.PhaseDecides | pkg/controller/controller_utils.go:639-682 | then pending, unknown, running for deletion, the reverse for logs |
| PodOrder.ReadinessDecides | pkg/controller/controller_utils.go:644-687 | then not ready before ready for deletion, the reverse for logs |
| PodOrder.ReadyTimeDecides | pkg/controller/controller_utils.go:650-694 | then ready later, or at no known time, before ready earlier for deletion, the reverse for logs |
| PodOrder.RestartsDecide | pkg/controller/controller_utils.go:654-698 | then the pod with a higher restart count, in both orders |
| PodOrder.AgeDecides | pkg/controller/controller_utils.go:658-703 | last, newer or undated before older for deletion, the reverse for logs |
| PodOrder.ReplicaSetOrdersAreTotal | pkg/controller/controller_utils.go:792-823 | the replica set comparators are transitive and tie only on equal (replicas, timestamp, name) |
| PodOrder.ReplicaSetPreferences | pkg/controller/controller_utils.go:792-823 | more replicas first; then older or newer first, as the name of the order says; then by name |

## Left out

- Interior pointers, the capacity of slices beyond their length, and values with a cycle that does not pass through a map key: a value is given with a bound on its reference chains, keys left out, which every other value has. A map shows which keys it has, not what lies behind them.
- Cloner.Cloner.RegisterDeepCopyFunc: does not model the signature check by reflection, because registered functions are typed here; only pointer types are registered.
- Cloner.Cloner.CustomDeepCopy: registered functions are any functions that give equal values and share at most what the default copy would; what a function that does neither leads to is not modelled.
- Converter.Convert: the destination is a value that is returned, not storage written in place, so aliasing of source and destination and a destination half written before an error are not captured.
- Converter.ConvertMap: the order in which a Go map yields its keys is a parameter of the model; the theorems hold for every such order.
- Converter.ConvertKind: arrays, channels, functions and panics on unexported source fields are not part of this model.
- Converter: embedded fields, generic conversion functions, custom functions that change their source, the registration methods and error texts.
- Expectations.CheckIsLinearizable: counters are unbounded integers; expiry by wall clock and failures of the store itself are not part of this model; DeleteExpectations is the one step that removes the entry.
- ConverterFlags.ConvAgrees: which of several errors is reported first is left open, because the two loops may meet a different one first.
- ApiMergeOrder.MergeAPIResourceConfigs: on failure the configuration has been changed by the keys already applied, as in the source; only success fixes the result. The registered group versions are a parameter.
- StorageFactory.Factory.NewConfig: encoding lookups and codec assembly are function parameters that may fail; logging is not part of this model.
- Keyring.BasicDockerKeyring.Add: URL parsing, host and port splitting and path matching are function parameters.
- AnalyticsText.SecondRunOnTextIff: file names are on one line; for others only the result on lines, Analytics.SecondRunIff, is stated.
- MungeDocs.GetMungeLines: the link flag of a line is left out, because no modelled pass reads it.
- PodConditions.UpdatePodCondition: the clock is a parameter, times are instants without a time zone, and the condition passed in is not the stored entry itself; given a pointer to that entry the source overwrites its time and reports no change.
- PodResources.PodRequestsAndLimits: quantities are exact numbers; their textual format is not part of this model.
- PodOrder.ReplicaSetOrdersAreTotal: replica counts are read through a non-nil pointer in the source; a nil count is not part of this model.
- Strings are sequences of characters; byte encodings and Unicode case folding do not appear, lower-casing is a parameter.
- The other enablement queries of the resource configuration, label selectors, preformatted-block munging, link checking, tables of contents and the remaining document passes are not modelled.
- The pod control, client builders, lookup cache, API types and generated copies, HTTP serving and the command mains are not modelled.
