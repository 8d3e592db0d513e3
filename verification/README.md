# Verified models of the SDK's core

Two families of code carry the hard logic of this repository. They share no state and are modelled side by side.

**The JSON document algebra** (the vendored `nlohmann::json`): escaping and parsing of JSON Pointers, checked access,
JSON Patch, `diff`, JSON Merge Patch, `flatten` and `unflatten`, the destructor that works with a stack, and the
adapters that turn UTF-32 and UTF-16 input into UTF-8 bytes. A document is an inductive value (`Documents.Json`);
objects are maps that are visited in sorted key order, as `std::map` does.

**The rolling-window feature engine** (`nimblenet/UserEvents`): a table keeps a log of events, each preprocessor keeps
one feature vector per group, each window drives incremental aggregate columns that write into slots of that vector.
It is modelled with the program's own objects: `UserEventsManager` (for one table), `TableStore`, `PreProcessor`,
`TimeBasedRollingWindow`, `AggregateColumn` and `Slot` (an element of a feature vector that a column addresses). The
aggregate computed from scratch (`Aggregates.Aggregate` of `Aggregates.Values`) is the reference for all of them.
`TableModels` describes the same table without objects, as a function from calls to answers; `TableRuns` proves that
the objects answer any calls as it does, and `TableHistories` proves what holds of it over whole runs.

Beside them stand the smaller components with arithmetic or concurrency: the base64 codec, row-major tensor printing,
the ring of inference inputs, and the protocol between the loader and the readers of a feature store.

`dafny verify dfyconfig.toml` checks the whole project.

| files | about |
|---|---|
| `Results`, `Ordering` | outcomes of throwing operations; the order of `std::map` |
| `Escaping`, `Pointer`, `Documents` | RFC 6901: tokens, texts, access and assignment |
| `Patch`, `OperationLaws` | RFC 6902: operations, `patch_inplace`, and what each operation does |
| `Diff`, `DiffCorrect`, `DiffExact`, `DiffOrder` | `diff`: that patching with a diff works, and which operations it consists of, in which order |
| `MergePatch` | RFC 7396 |
| `Flatten`, `FlattenPaths`, `Rebuild`, `FlattenOrder`, `FlattenCorrect`, `FlattenExact`, `UnflattenExact` | `flatten`, `unflatten`, when the round trip succeeds, and what `unflatten` makes of any object |
| `Destroying`, `WideInputs` | destruction without recursion; UTF-8 streams |
| `Aggregates`, `Columns`, `RollingWindows`, `GroupKeys`, `PreProcessors`, `TableStores`, `Lookups` | the feature engine, from one column to a lookup |
| `TableModels`, `TableRuns`, `TableHistories`, `NamedAnswers` | any calls to a table: what they answer, that the engine answers so, and what follows, by names and rows |
| `Base64`, `Tensors`, `InferenceInputs`, `FeatureStores` | the smaller components |

## Main results

- Patching with a diff never fails and yields the target, for all pairs of documents, and touches nothing outside its
  path (`DiffCorrect.PatchOfDiff`, `DiffCorrect.DiffTurns`, `DiffCorrect.DiffElsewhere`). Its operations are exactly
  those that the differences between the two values call for, location by location (`DiffExact.DiffExactly`), one for
  each and in one order (`DiffOrder.DiffInOrder`).
- Each operation of a patch does what RFC 6902 says, found out by running it and looking at the document: where it
  fails, what is then where, and that a move is a removal and an addition (`OperationLaws`).
- `unflatten(flatten(j))` gives `j` back, with empty containers as null, exactly when every non-empty object shows as
  an object, in particular whenever no object has the key "0" (`FlattenExact.RoundTripExact`).
- JSON Pointer texts and token lists are in one-to-one correspondence, and the texts are those of the RFC 6901 grammar.
- `merge_patch` computes the RFC 7396 function, whatever the order of the members, and is idempotent; what the outcome
  has at every path is read off the target and the patch (`MergePatch.MergedAt`).
- `unflatten` succeeds exactly when every key can be read, has a primitive value, and finds its place free, and what
  it makes of the object is known at every location (`UnflattenExact.UnflattenExactly`, `UnflattenedHas`).
- Every column, after any adds and removals, holds the aggregate computed from scratch over the events it covers.
- Whatever events, new preprocessors and lookups an application interleaves, the engine gives the answers of the table
  without objects, and every event ends with one key per preprocessor (`TableRuns.Session`,
  `TableRuns.UserEventsManager.Perform`). There, over any run, a lookup is about all unexpired events, and about
  exactly those unless the window has expired only in part (`TableHistories.LookupAfterRun`), and each number of an
  answer is the aggregate over the events that match the entity (`TableModels.AnswerOfMatching`).
- In terms of the calls alone: each number of a lookup's answer is the aggregate that the last configuration for the
  model input names, over the numbers in the named column of those rows that hold in the named group columns what the
  entity gives (`NamedAnswers.AnswerInRun`); and a lookup goes unanswered exactly for the stated reasons
  (`NamedAnswers.UnansweredInRun`).
- A reader of a feature sees one load, in a live buffer, while it holds the lock; and from every state some run
  loads a given feature and lets the reader read it (`FeatureStores.ReaderSeesOneLoad`, `FeatureStores.AnyLoadIsRead`).
- A preprocessor created late and replayed answers as one that was fed row by row at that moment
  (`TableHistories.EarlyOrLate`, `PreProcessors.ReplayedAlike`).

## Where the code differs from what is expected of it

- `update_window` returns at the first event that has not expired (`TimeBasedRollingWindow.cpp:35`), so columns forget
  events only when the whole window has expired. `RollingWindows.TimeBasedRollingWindow.UpdateWindow` keeps this and
  states exactly when the columns agree with the window; `UpdateWindowEndingScan` is the variant that merely ends the
  scan, with which they always do. `Lookups.PartlyExpiredExample` is an input, `Lookups.CountsExpired` its effect.
  To agree is to hold the right value and the right number of events. The value alone can be right by luck, as the
  maximum is when the expired event is not the greatest; for counts `Lookups.CountsVisible` says that it never is.
- A Sum, Count or Avg column without events has `_oldestIndex == -1` and compares it as a signed number
  (`SumColumn.cpp:26`): told of any boundary from 0 on, it first reads the event at index -1. As written, a removal
  therefore stays in the log, and is right, exactly when the column has an event or is told -1
  (`Columns.UnguardedExact`, `Columns.AggregateColumn.RemoveEventsAsWritten`; `Columns.UnguardedExample` has inputs).
  For a window that is: exactly when the scan meets an unexpired event, or the window never accepted one, or every
  Sum, Count and Avg column has an event (`RollingWindows.TimeBasedRollingWindow.UpdateWindowAsWritten`). Two lookups
  after one event that has expired are enough to fail (`RollingWindows.TwoUpdates`). The rest of the model has a guard
  there (`Columns.AggregateColumn.RemoveEvents`), as Min and Max get from their unsigned comparison.
- `unflatten` takes an object whose first flattened path goes through the key "0" for an array
  (`FlattenExact.ZeroKeyIsLost`).
- Removing a missing location below a primitive value is not reported (`Patch.RemoveMissing`,
  `Patch.RemoveMissingExample`), and adding below one reaches an assertion that the code's comment calls impossible
  (`Patch.AddAssertionReached`, `Patch.AddToPrimitiveParent`).
- Group keys put a plus sign after every cell. With two or more group columns a key belongs to a single row exactly
  when no cell contains a plus sign (`GroupKeys.IdentifiesExactly`).
- An inference id that is added again can be answered with its older inputs (`InferenceInputs.RepeatedIdFindsOlder`).
  A retained entry is the one found exactly when no other retained entry of its id is in an earlier slot
  (`InferenceInputs.RepeatedExact`).
- Two loaders of one feature at once free its buffer twice (`FeatureStores.TwoLoadersFreeTwice`).

## Model

| member | source | states |
|---|---|---|
| `Escaping.ReplaceSubstring` | thirdparty/json/include/nlohmann/detail/string_escape.hpp:31-40 | the in-place loop replaces exactly the occurrences found from left to right, never looking again at text it has put in |
| `Escaping.EscapeIsEncode` | thirdparty/json/include/nlohmann/detail/string_escape.hpp:50-55 | the two passes `~` then `/` are the character-wise encoding of RFC 6901 section 3 |
| `Escaping.EscapeIsByCharacter` | thirdparty/json/include/nlohmann/detail/string_escape.hpp:50-55 | `~` becomes `~0`, a slash `~1`, any other character stays, and a text is escaped one character after the other |
| `Escaping.UnescapeIsDecode` | thirdparty/json/include/nlohmann/detail/string_escape.hpp:65-69 | on every reference token the two passes `~1` then `~0` are the character-wise decoding |
| `Escaping.EscapeRoundTrip` | thirdparty/json/include/nlohmann/detail/string_escape.hpp:50-69 | escaping gives a reference token of the grammar, and unescaping it gives the text back, for every text |
| `Escaping.UnescapeRoundTrip` | thirdparty/json/include/nlohmann/detail/string_escape.hpp:50-69 | escaping undoes unescaping, for every reference token |
| `Pointer.Split` | thirdparty/json/include/nlohmann/detail/json_pointer.hpp:666-724 | the index loop, with its checks and errors, is the recursive parse of the text token by token |
| `Pointer.TokenIsEscaped` | thirdparty/json/include/nlohmann/detail/json_pointer.hpp:703-716 | the scan for `~` accepts exactly the reference tokens of the grammar |
| `Pointer.ParseToString` | thirdparty/json/include/nlohmann/detail/json_pointer.hpp:68-76 | parsing the text of any token list gives that list |
| `Pointer.ToStringParse` | thirdparty/json/include/nlohmann/detail/json_pointer.hpp:666-724 | printing what any accepted text was parsed to gives the text |
| `Pointer.ParseAcceptsGrammar` | thirdparty/json/include/nlohmann/detail/json_pointer.hpp:666-724 | a text is accepted if and only if it is a json-pointer of RFC 6901 section 3 |
| `Pointer.ParseRefuses` | thirdparty/json/include/nlohmann/detail/json_pointer.hpp:676-715 | a text that is not accepted is refused as 107 when it does not start with a slash, and as 108 otherwise |
| `Pointer.ToStringInjective` | thirdparty/json/include/nlohmann/detail/json_pointer.hpp:68-76 | different token lists have different texts |
| `Pointer.ArrayIndexOfDigits` | thirdparty/json/include/nlohmann/detail/json_pointer.hpp:214-249 | the decimal text of every number below the largest `size_type` is accepted as that array index |
| `Pointer.DigitsOfArrayIndex` | thirdparty/json/include/nlohmann/detail/json_pointer.hpp:214-249 | every accepted array index is the decimal text of its number: no sign, no leading zero |
| `Documents.AtPut` | thirdparty/json/include/nlohmann/detail/json_pointer.hpp:422-464 | through a reference that `at` returned, what is assigned is found, later assignments replace it, and assigning what was there changes nothing |
| `Documents.AtConcat` | thirdparty/json/include/nlohmann/detail/json_pointer.hpp:422-464 | following two token lists one after the other is following their concatenation |
| `Documents.PutElsewhere` | thirdparty/json/include/nlohmann/detail/json_pointer.hpp:422-464 | assigning at one location leaves every location on a diverging path as it was |
| `Patch.Document.PatchInPlace` | thirdparty/json/include/nlohmann/json.hpp:4674-4941 | the loop over the patch array leaves the document, and throws, as the operations run one by one up to the first failure do; what each does is stated by `OperationLaws` |
| `Patch.Document.PatchCopy` | thirdparty/json/include/nlohmann/json.hpp:4945-4950 | patching a copy returns the patched document or the error, and leaves the original alone |
| `Patch.RunConcat` | thirdparty/json/include/nlohmann/json.hpp:4814-4940 | running a concatenated patch is running its parts one after the other, unless the first fails |
| `Patch.RemoveUndoesAdd` | thirdparty/json/include/nlohmann/json.hpp:4711-4805 | removing what was just added restores the document exactly when the addition replaced nothing and made no object |
| `Patch.TestAfterAdd` | thirdparty/json/include/nlohmann/json.hpp:4711-4776 | what was added passes a `test` where it was added; only after adding at "-" of an array the test of that location fails |
| `Patch.TestMeansEqual` | thirdparty/json/include/nlohmann/json.hpp:4909-4930 | a test passes if and only if the location resolves to an equal value, and changes nothing |
| `Patch.RemoveMissing` | thirdparty/json/include/nlohmann/json.hpp:4779-4805 | removing a missing location is silently accepted exactly when its parent is a primitive value |
| `Patch.RemoveMissingExample` | thirdparty/json/include/nlohmann/json.hpp:4779-4805 | an input for which it is, and one for which it is not |
| `Patch.AddAssertionReached` | thirdparty/json/include/nlohmann/json.hpp:4765-4775 | the branch declared impossible is reached exactly when the parent resolves to a primitive value other than null |
| `Patch.AddToPrimitiveParent` | thirdparty/json/include/nlohmann/json.hpp:4765-4775 | an input that reaches it |
| `Patch.FailureKeepsPrefix` | thirdparty/json/include/nlohmann/json.hpp:4814-4940 | a failing `patch_inplace` leaves the effect of the operations before the failing one |
| `OperationLaws.MoveIsRemoveThenAdd` | thirdparty/json/include/nlohmann/json.hpp:4877-4892 | running one `move` object is running a `remove` of its source and then an `add` of the value that was there; without such a value it fails and changes nothing |
| `OperationLaws.CopyIsAdd` | thirdparty/json/include/nlohmann/json.hpp:4894-4907 | running one `copy` object is running an `add` of the value at its source |
| `OperationLaws.TestIsComparison` | thirdparty/json/include/nlohmann/json.hpp:4909-4930 | a `test` object passes if and only if its location resolves to its value, and changes nothing |
| `OperationLaws.ReplaceIsAssignment` | thirdparty/json/include/nlohmann/json.hpp:4870-4875 | a `replace` needs a value to replace; the new one is then there, diverging locations stay, and replacing it by the old one restores the document |
| `OperationLaws.AddAtRoot` | thirdparty/json/include/nlohmann/json.hpp:4713-4718 | an `add` at the root makes its value the document |
| `OperationLaws.AddSucceeds` | thirdparty/json/include/nlohmann/json.hpp:4720-4775 | an `add` succeeds exactly when the parent resolves and takes in the token: null and objects any, arrays "-" or an index up to their length |
| `OperationLaws.AddToObject` | thirdparty/json/include/nlohmann/json.hpp:4735-4741 | in an object, or null, the member then has the value and every other member is as before |
| `OperationLaws.AddToArray` | thirdparty/json/include/nlohmann/json.hpp:4743-4763 | in an array the value is at the index, or at the end for "-"; what was before it stays, what was from there on is one further |
| `OperationLaws.RemoveFromObject` | thirdparty/json/include/nlohmann/json.hpp:4786-4799 | what resolves in an object can be removed, and only that member is then missing |
| `OperationLaws.RemoveFromArray` | thirdparty/json/include/nlohmann/json.hpp:4800-4804 | in an array the elements after the removed one move up by one |
| `OperationLaws.RemoveFails` | thirdparty/json/include/nlohmann/json.hpp:4779-4805 | removing what does not resolve fails and changes nothing, except below a primitive value |
| `OperationLaws.MalformedFails` | thirdparty/json/include/nlohmann/json.hpp:4814-4940 | an operation that is no object, lacks a member it needs, or is of no known kind fails and changes nothing, with error 104, 105 or that of its path |
| `Diff.DiffValues` | thirdparty/json/include/nlohmann/json.hpp:4955-5085 | the recursive program with its loops and positional inserts emits the specified operations in order; which those are is stated by `DiffExact.DiffExactly` |
| `Diff.DiffArrays` | thirdparty/json/include/nlohmann/json.hpp:4979-5021 | common elements first, then removals highest index first, then appends |
| `Diff.DiffSourceKeys` | thirdparty/json/include/nlohmann/json.hpp:5025-5045 | one pass over the source's keys: recurse on shared ones, remove the others |
| `Diff.AddTargetKeys` | thirdparty/json/include/nlohmann/json.hpp:5047-5060 | one pass over the target's keys: add those the source lacks |
| `DiffCorrect.DiffTurns` | thirdparty/json/include/nlohmann/json.hpp:4981-5060 | wherever the path resolves to the source, running the diff changes exactly that subtree to the target |
| `DiffCorrect.PatchOfDiff` | thirdparty/json/include/nlohmann/json.hpp:4955-5085 | applying `diff(s, t)` to `s` succeeds and yields `t`, for all `s` and `t` |
| `DiffCorrect.DiffThenPatch` | thirdparty/json/include/nlohmann/json.hpp:4945-5085 | the same of the program's two calls |
| `DiffCorrect.DiffEmpty` | thirdparty/json/include/nlohmann/json.hpp:4961-4965 | a diff is empty if and only if the values are equal |
| `DiffCorrect.DiffElsewhere` | thirdparty/json/include/nlohmann/json.hpp:4981-5060 | locations on paths that diverge from the diff's path are not changed by it |
| `DiffCorrect.OperationsUnder` | thirdparty/json/include/nlohmann/json.hpp:4981-5060 | every operation of a diff lies at or below its path |
| `DiffExact.DiffExactly` | thirdparty/json/include/nlohmann/json.hpp:4955-5085 | a diff has a `replace` exactly where both values have different ones that are not two arrays or two objects, a `remove` exactly where only the source has one, an `add` (at "-" in arrays) exactly where only the target has one, each right below locations that are arrays or objects on both sides; and nothing else |
| `DiffOrder.DiffInOrder` | thirdparty/json/include/nlohmann/json.hpp:4979-5060 | the operations are one for each place at which the values differ, and in order: in arrays by index, but removals last index first; in objects first the source's keys, then the target's others, each by key |
| `DiffOrder.EarlierOnce` | thirdparty/json/include/nlohmann/json.hpp:4979-5060 | of two places not both come first, so that order leaves just one list of operations |
| `MergePatch.MergeInPlace` | thirdparty/json/include/nlohmann/json.hpp:5097-5121 | the method that changes the target in place computes the recursive function of RFC 7396 section 2, whose outcome at every path is stated by `MergePatch.MergedAt` |
| `MergePatch.MergeOrderIrrelevant` | thirdparty/json/include/nlohmann/json.hpp:5107-5118 | visiting the patch members in any order gives the same object |
| `MergePatch.MergeIdempotent` | thirdparty/json/include/nlohmann/json.hpp:5097-5121 | applying the same merge patch twice is applying it once |
| `MergePatch.MergedAt` | thirdparty/json/include/nlohmann/json.hpp:5097-5121 | by paths: below objects of the patch, a member the patch does not have is the target's with all below it, a member that is null there is gone, any other that is not an object is the patch's; and where the patch has an object the outcome has one |
| `Flatten.FlattenValue` | thirdparty/json/include/nlohmann/detail/json_pointer.hpp:735-793 | the recursion writes into the result object what the specification function says |
| `Flatten.Unflatten` | thirdparty/json/include/nlohmann/detail/json_pointer.hpp:807-832 | the loop over the sorted members with `get_and_create` is the specified fold, with its four errors |
| `UnflattenExact.UnflattenExactly` | thirdparty/json/include/nlohmann/detail/json_pointer.hpp:274-332 | unflattening succeeds if and only if the value is an object whose keys are pointers with primitive values, no key has another below it unless its value is null, and tokens that lead into an array are array indices |
| `UnflattenExact.UnflattenedHas` | thirdparty/json/include/nlohmann/detail/json_pointer.hpp:807-832 | at every location the outcome has a key's value, a container where longer keys go on (an array exactly when the first of them goes on with "0"), or nothing or null |
| `UnflattenExact.ValueWithMoreBelow` | thirdparty/json/include/nlohmann/detail/json_pointer.hpp:319-328 | two keys of which one goes on from the other, whose value is not null, are refused with exception 313 |
| `FlattenPaths.FlattenWrites` | thirdparty/json/include/nlohmann/detail/json_pointer.hpp:735-793 | flattening below a path overwrites exactly the texts of the leaves below it, and nothing else |
| `FlattenPaths.FlattenIsLeaves` | thirdparty/json/include/nlohmann/detail/json_pointer.hpp:735-793 | the flattened object has exactly one member per leaf, under the text of its path, with its value or null |
| `FlattenOrder.IndexZeroFirst` | thirdparty/json/include/nlohmann/detail/json_pointer.hpp:817-829 | in the order of the texts, the paths through element 0 come before those through any other element |
| `FlattenOrder.BeforeZero` | thirdparty/json/include/nlohmann/detail/json_pointer.hpp:817-829 | which keys' paths come before those through a key "0" |
| `FlattenOrder.AfterZero` | thirdparty/json/include/nlohmann/detail/json_pointer.hpp:817-829 | and that all other keys' paths come after them |
| `Rebuild.PartialStep` | thirdparty/json/include/nlohmann/detail/json_pointer.hpp:274-332 | creating the next leaf in what was built from the leaves so far gives what is built with it, when the token decides the container's kind rightly |
| `Rebuild.PartialOfAll` | thirdparty/json/include/nlohmann/detail/json_pointer.hpp:274-332 | built from all leaves, the document is the original with empty containers as null |
| `FlattenExact.RoundTripExact` | thirdparty/json/include/nlohmann/detail/json_pointer.hpp:735-832 | `unflatten(flatten(j))` is `j` with empty containers as null if and only if every non-empty object shows as an object |
| `FlattenExact.FlattenThenUnflatten` | thirdparty/json/include/nlohmann/detail/json_pointer.hpp:735-832 | the same of the program's two calls |
| `FlattenExact.RoundTripWithoutZeroKey` | thirdparty/json/include/nlohmann/detail/json_pointer.hpp:735-832 | in particular for every document in which no object has the key "0" |
| `FlattenExact.ZeroKeyIsLost` | thirdparty/json/include/nlohmann/detail/json_pointer.hpp:284-297 | the object with the single key "0" does not come back |
| `Destroying.Destroy` | thirdparty/json/include/nlohmann/json.hpp:556-605 | every descendant is visited exactly once, each is handed on without children, and the loop ends because the nodes on the stack decrease |
| `Destroying.StackStep` | thirdparty/json/include/nlohmann/json.hpp:580-601 | replacing the last item by its children loses nothing but the item |
| `Destroying.BelowArray` | thirdparty/json/include/nlohmann/json.hpp:564-568 | the descendants of an array are its elements and what is below each |
| `Destroying.BelowObject` | thirdparty/json/include/nlohmann/json.hpp:569-576 | the descendants of an object are those without a member, the member, and what is below it, whichever member it is |
| `WideInputs.Utf8IsUtf8` | thirdparty/json/include/nlohmann/detail/input/input_adapters.hpp:200-230 | the bytes written for a code point are its UTF-8 form by the table of RFC 3629 section 3 |
| `WideInputs.Utf8IsUnique` | thirdparty/json/include/nlohmann/detail/input/input_adapters.hpp:200-230 | a code point has only one such form |
| `WideInputs.Stream32OfText` | thirdparty/json/include/nlohmann/detail/input/input_adapters.hpp:181-232 | what the UTF-32 adapter has to hand out for a text is its UTF-8 form |
| `WideInputs.Stream16OfText` | thirdparty/json/include/nlohmann/detail/input/input_adapters.hpp:239-294 | what the UTF-16 adapter has to hand out for the UTF-16 form of a text (RFC 2781 section 2.1) is its UTF-8 form |
| `WideInputs.JoinedBack` | thirdparty/json/include/nlohmann/detail/input/input_adapters.hpp:276-281 | surrogate pairs are joined to the code point they were made from |
| `WideInputs.WideStringInputAdapter.FillBuffer32` | thirdparty/json/include/nlohmann/detail/input/input_adapters.hpp:185-232 | one refill: the bytes put into the buffer and those of the units left are those of before; at the end one EOF |
| `WideInputs.WideStringInputAdapter.FillBuffer16` | thirdparty/json/include/nlohmann/detail/input/input_adapters.hpp:243-294 | the same for 16-bit units, which are taken in pairs after a surrogate |
| `WideInputs.WideStringInputAdapter.GetCharacter` | thirdparty/json/include/nlohmann/detail/input/input_adapters.hpp:307-322 | one call hands out the next byte of the stream and keeps the index within the filled part; after the end, EOF again and again |
| `WideInputs.CallsReadText` | thirdparty/json/include/nlohmann/detail/input/input_adapters.hpp:307-322 | successive calls on the stream of a text hand out its UTF-8 bytes and then only EOF, which no byte is mistaken for |
| `WideInputs.ReadText` | thirdparty/json/include/nlohmann/detail/input/input_adapters.hpp:296-322 | an adapter of a text, UTF-16 or UTF-32, called any number of times: byte `i` of the text's UTF-8 form at call `i`, and from its end on EOF |
| `Columns.AggregateColumn.constructor` | nimblenet/UserEvents/AggregateColumn/include/AggregateColumn.h:18-24 | the default is what the slot holds when the column is made |
| `Columns.AggregateColumn.AddEvent` | nimblenet/UserEvents/AggregateColumn/src/MaxColumn.cpp:7-23 | after one more event the column holds the aggregate from scratch over the group's covered events, for all five operators |
| `Columns.AggregateColumn.RemoveEvents` | nimblenet/UserEvents/AggregateColumn/src/MaxColumn.cpp:26-58 | with the guard that Min and Max have: after removing events before the boundary the column holds the aggregate, and the count, of those from the boundary on, or the default when none is left |
| `Columns.AggregateColumn.RemoveEventsAsWritten` | nimblenet/UserEvents/AggregateColumn/src/SumColumn.cpp:25-39 | for all five operators as written: no event outside the log is read if and only if the operator is Min or Max, or the column has an event, or the boundary is -1; and then the column is right |
| `Columns.AggregateColumn.RemoveBySubtracting` | nimblenet/UserEvents/AggregateColumn/src/SumColumn.cpp:25-39 | the loop of Sum, Count and Avg from the remembered index, -1 included, is the specified one, which fails at a read outside the log |
| `Columns.AggregateColumn.RemoveFromExtreme` | nimblenet/UserEvents/AggregateColumn/src/MinColumn.cpp:26-58 | the same for Min and Max, scanning again only when a removed value equals the extreme; the loop that resets its own index terminates |
| `Columns.AggregateColumn.ScanEvent` | nimblenet/UserEvents/AggregateColumn/src/MaxColumn.cpp:28-51 | one turn of that loop, before and during the rescan |
| `Columns.AddedAgrees` | nimblenet/UserEvents/AggregateColumn/src/SumColumn.cpp:7-22 | the incremental step of each operator agrees with the aggregate from scratch |
| `Columns.SettledAgrees` | nimblenet/UserEvents/AggregateColumn/src/AverageColumn.cpp:24-41 | after the subtractions the default is restored exactly when no event is left, and the number an average is divided by is positive |
| `Columns.ScanningStep` | nimblenet/UserEvents/AggregateColumn/src/MaxColumn.cpp:42-49 | a value that is not the extreme can be dropped without a rescan |
| `Columns.UnguardedExact` | nimblenet/UserEvents/AggregateColumn/src/SumColumn.cpp:25-39 | the removal as written succeeds if and only if the column has an event or is told -1, and then agrees with the aggregate from scratch |
| `Columns.UnguardedExample` | nimblenet/UserEvents/AggregateColumn/src/SumColumn.cpp:25-39 | two inputs for which it does not: a sum emptied before, and an empty log |
| `Aggregates.ExtremeIsBest` | nimblenet/UserEvents/AggregateColumn/src/MinColumn.cpp:7-23 | the maximum is one of the values and no value is greater; the minimum is one of the values and no value is less |
| `Aggregates.AverageIs` | nimblenet/UserEvents/AggregateColumn/src/AverageColumn.cpp:15-20 | times the number of values the average is their total; where the type is integral it differs from that by less than that number, towards zero; it lies between the least and the greatest value |
| `Aggregates.AggregateIs` | nimblenet/UserEvents/AggregateColumn/src/AverageColumn.cpp:15-20 | what each of the five aggregates is, by name: a total, a number of values, an average, a least or greatest value, or the default of no values |
| `RollingWindows.TimeBasedRollingWindow.AddEvent` | nimblenet/UserEvents/RollingWindow/src/TimeBasedRollingWindow.cpp:12-25 | a fresh event reaches exactly the columns of its group; a stale one is only passed over; the first accepted index is remembered |
| `RollingWindows.TimeBasedRollingWindow.UpdateWindow` | nimblenet/UserEvents/RollingWindow/src/TimeBasedRollingWindow.cpp:28-44 | with the early return as written and guarded columns: the columns keep covering all unexpired events, forget only when all have expired, and (when every group has columns) agree with the window if and only if it has not expired only in part |
| `RollingWindows.TimeBasedRollingWindow.UpdateWindowAsWritten` | nimblenet/UserEvents/RollingWindow/src/TimeBasedRollingWindow.cpp:28-44 | without the guard: the same if and only if the scan meets an unexpired event, or the window never accepted one, or every Sum, Count and Avg column has an event; otherwise an event outside the log is read |
| `RollingWindows.TwoUpdates` | nimblenet/UserEvents/RollingWindow/src/TimeBasedRollingWindow.cpp:28-44 | a run in which it is read: one summed event that expires, and two updates |
| `RollingWindows.ExpiresOnce` | nimblenet/UserEvents/RollingWindow/src/TimeBasedRollingWindow.cpp:15 | an event of exactly the window's age is still fresh, one second later it is not, when the window is a whole number of seconds; once expired it stays so |
| `RollingWindows.FirstFreshExact` | nimblenet/UserEvents/RollingWindow/src/TimeBasedRollingWindow.cpp:29-37 | the scan stops at the first event whose age is at most the window's |
| `RollingWindows.TimeBasedRollingWindow.UpdateWindowEndingScan` | nimblenet/UserEvents/RollingWindow/src/TimeBasedRollingWindow.cpp:28-44 | with the scan ended instead of the method, the columns cover exactly the unexpired events in every run |
| `RollingWindows.TimeBasedRollingWindow.SkipExpired` | nimblenet/UserEvents/RollingWindow/src/TimeBasedRollingWindow.cpp:30-37 | the scan moves the index to the first event that has not expired, and tells whether there is none |
| `RollingWindows.TimeBasedRollingWindow.RemoveFromAll` | nimblenet/UserEvents/RollingWindow/src/TimeBasedRollingWindow.cpp:38-43 | every column of every group is told once |
| `RollingWindows.TimeBasedRollingWindow.CoversExactly` | nimblenet/UserEvents/RollingWindow/src/TimeBasedRollingWindow.cpp:28-44 | columns that are right from one index on are right from a later one only if there is no event between |
| `RollingWindows.TimeBasedRollingWindow.CreateAggregateColumnsForGroup` | nimblenet/UserEvents/RollingWindow/src/RollingWindow.cpp:8-41 | a new group gets one column per known operator over the given slots, fails at the first unknown operator, and leaves all other groups alone |
| `RollingWindows.TimeBasedRollingWindow.ValidAlike` | nimblenet/UserEvents/RollingWindow/src/TimeBasedRollingWindow.cpp:12-44 | keys of other preprocessors and later events make no difference to a window |
| `GroupKeys.KeysOfPlusFree` | nimblenet/UserEvents/PreProcessor/src/PreProcessor.cpp:24-31 | for cells without plus signs two rows share a key if and only if they agree on the group columns |
| `GroupKeys.IdentifiesExactly` | nimblenet/UserEvents/PreProcessor/src/PreProcessor.cpp:24-31 | with two or more group columns a key belongs to a single row if and only if no cell contains a plus sign |
| `GroupKeys.Collides` | nimblenet/UserEvents/PreProcessor/src/PreProcessor.cpp:24-31 | another row with the same key, for any row that has a plus sign |
| `GroupKeys.SingleColumnIdentifies` | nimblenet/UserEvents/PreProcessor/src/PreProcessor.cpp:24-31 | with one group column the key always identifies the cell |
| `PreProcessors.PreProcessor.constructor` | nimblenet/UserEvents/PreProcessor/src/PreProcessor.cpp:7-21 | one window per configured time, no group, and a default vector whose every block is the configured defaults |
| `PreProcessors.BlocksApart` | nimblenet/UserEvents/RollingWindow/src/RollingWindow.cpp:15-33 | different pairs of window and column have different places in a vector |
| `PreProcessors.TiledBlock` | nimblenet/UserEvents/PreProcessor/src/PreProcessor.cpp:15-20 | a vector filled modulo the number of columns consists of equal blocks |
| `PreProcessors.PreProcessor.GetGroupFromEvent` | nimblenet/UserEvents/PreProcessor/src/PreProcessor.cpp:24-31 | the loop computes the key of the cells in the group columns |
| `PreProcessors.PreProcessor.GetGroupFromRow` | nimblenet/UserEvents/PreProcessor/src/PreProcessor.cpp:34-46 | the same for an entity, or the empty text when a group column is not given |
| `PreProcessors.PreProcessor.MakeGroup` | nimblenet/UserEvents/PreProcessor/src/PreProcessor.cpp:78-86 | a new group gets a vector and columns in every window that share no slot with any other; an unknown operator makes the preprocessor useless |
| `PreProcessors.PreProcessor.AddEvent` | nimblenet/UserEvents/PreProcessor/src/PreProcessor.cpp:74-89 | the invariant of all windows, groups and vectors is kept, the event's group is known, and each window covers what it should |
| `PreProcessors.PreProcessor.UpdateWindows` | nimblenet/UserEvents/PreProcessor/src/PreProcessor.cpp:56-58 | every window is updated, and none disturbs another |
| `PreProcessors.PreProcessor.VectorHolds` | nimblenet/UserEvents/PreProcessor/src/PreProcessor.cpp:59-69 | block `w` of a group's vector holds the aggregates from scratch of window `w` |
| `PreProcessors.PreProcessor.DefaultRow` | nimblenet/UserEvents/PreProcessor/src/PreProcessor.cpp:62-64 | for a group of which no event was met these aggregates are the defaults |
| `PreProcessors.PreProcessor.GetModelInput` | nimblenet/UserEvents/PreProcessor/src/PreProcessor.cpp:49-71 | nothing exactly when useless; otherwise part `i` of the output holds, window by window, the aggregates of group `i` |
| `PreProcessors.FedCoversFresh` | nimblenet/UserEvents/RollingWindow/src/TimeBasedRollingWindow.cpp:12-25 | fed at one moment with events in time order, a window covers exactly those that have not expired |
| `PreProcessors.ReplayedAlike` | nimblenet/UserEvents/TableStore/src/TableStore.cpp:48-97 | two preprocessors of one setting fed with the same rows at the same moment have the same groups, windows and vectors, whatever their ids |
| `TableStores.TableStore.constructor` | nimblenet/UserEvents/TableStore/src/TableStore.cpp:133-141 | an empty table whose columns are numbered in sorted order of their names, at the given moment |
| `TableStores.TableStore.SetToFillInMemory` | nimblenet/UserEvents/TableStore/include/TableStore.h:33 | from then on rows are taken, and nothing else changes |
| `TableStores.TableStore.CheckColumnsOfRow` | nimblenet/UserEvents/TableStore/src/TableStore.cpp:4-23 | a row passes if and only if it has exactly the table's columns |
| `TableStores.TableStore.AddRow` | nimblenet/UserEvents/TableStore/src/TableStore.cpp:25-45 | the row becomes the last event with a key from every preprocessor, each of which takes it in; or, when not ready or with an unknown column, nothing changes |
| `TableStores.TableStore.CreatePreprocessor` | nimblenet/UserEvents/TableStore/src/TableStore.cpp:48-97 | accepted exactly when the columns exist and text is only counted; position `k` is then where the `k`-th name stands among the columns; then every event gets one more key and the new preprocessor, made of new objects, is as if fed from the start; the others stay right |
| `TableStores.TableStore.Replay` | nimblenet/UserEvents/TableStore/src/TableStore.cpp:88-92 | the loop over the log gives each event the new key and feeds it |
| `TableStores.TableStore.Resolve` | nimblenet/UserEvents/TableStore/src/TableStore.cpp:53-78 | the `k`-th position is where the `k`-th name stands among the columns, for group columns and aggregated columns; refused exactly when a name is missing or text is not only counted |
| `TableStores.TableStore.IdsArePositions` | nimblenet/UserEvents/TableStore/src/TableStore.cpp:60-79 | looking the names up one by one gives for each the place of that name among the columns |
| `TableStores.TableStore.AcceptableSuits` | nimblenet/UserEvents/TableStore/src/TableStore.cpp:53-78 | a configuration is accepted if and only if its columns are in the schema and those of type varchar, in any case, are only counted |
| `TableStores.GivenExact` | nimblenet/UserEvents/TableStore/src/TableStore.cpp:109-121 | what an entity gives for a column is the value of the last pair with its name |
| `TableStores.TableStore.RowOf` | nimblenet/UserEvents/TableStore/src/TableStore.cpp:109-121 | an entity's cells by column, the last of several values counting and unknown keys passed over |
| `TableStores.TableStore.GetModelInput` | nimblenet/UserEvents/TableStore/src/TableStore.cpp:99-131 | the vectors of the entities' groups, or nothing exactly when the input has no preprocessor, a group column is missing, or an operator was not known; only the asked preprocessor's windows are updated |
| `TableStores.ShareNothing` | nimblenet/UserEvents/TableStore/src/TableStore.cpp:41-44 | preprocessors of one table share no window, column or slot |
| `Lookups.OneKeyEach` | nimblenet/UserEvents/TableStore/src/TableStore.cpp:41-44 | every event has one key per preprocessor, computed by it from the event's row, whose positions are the columns' ids |
| `Lookups.UnexpiredIsCovered` | nimblenet/UserEvents/RollingWindow/src/TimeBasedRollingWindow.cpp:12-44 | in every valid table, as `TableRuns.Session` leaves it after any calls, every window of every preprocessor covers all events that have not expired |
| `Lookups.PositionsMatch` | nimblenet/UserEvents/TableStore/src/TableStore.cpp:32-38 | a cell's position in its event is the position of its column in the table |
| `Lookups.RowByRow` | nimblenet/UserEvents/TableStore/src/TableStore.cpp:41-44 | fed row by row at one moment, a preprocessor is as if told of the whole log at that moment |
| `Lookups.KeyStandsForCells` | nimblenet/UserEvents/PreProcessor/src/PreProcessor.cpp:24-31 | without plus signs the values of a group are those of the events whose group columns hold its cells |
| `Lookups.BlockOfMatching` | nimblenet/UserEvents/PreProcessor/src/PreProcessor.cpp:59-69 | so each element of a block is the aggregate over the events matching the entity, or the default |
| `Lookups.CoversExactlyUnlessPartly` | nimblenet/UserEvents/RollingWindow/src/TimeBasedRollingWindow.cpp:28-44 | an updated window covers exactly its unexpired events if and only if it has not expired only in part |
| `Lookups.CountsExpired` | nimblenet/UserEvents/RollingWindow/src/TimeBasedRollingWindow.cpp:33-36 | then the count for a group with an expired event still covered is too high |
| `Lookups.CountsVisible` | nimblenet/UserEvents/AggregateColumn/src/CountColumn.cpp:7-21 | counts over two ranges are the same for all groups if and only if the ranges are |
| `Lookups.PartlyExpiredExample` | nimblenet/UserEvents/RollingWindow/src/TimeBasedRollingWindow.cpp:33-36 | an input for which this happens |
| `TableModels.AnswerOfMatching` | nimblenet/UserEvents/TableStore/src/TableStore.cpp:99-131 | each number of an answer, by entity, window and column, is the aggregate over the covered events whose group columns hold the entity's cells, when no cell has a plus sign |
| `TableModels.OutputAt` | nimblenet/UserEvents/PreProcessor/src/PreProcessor.cpp:59-69 | where in the answer the number for an entity, a window and a column stands |
| `TableHistories.RowsOfRun` | nimblenet/UserEvents/UserEventsManager/src/UserEventsManager.cpp:58-86 | after any calls the table has the rows it had and those that came with the columns of the table, in order, whenever preprocessors were created |
| `TableHistories.RunKept` | nimblenet/UserEvents/RollingWindow/src/TimeBasedRollingWindow.cpp:12-44 | over any calls in the order of their clock readings, what a window has passed over has expired |
| `TableHistories.LookupAfterRun` | nimblenet/UserEvents/RollingWindow/src/TimeBasedRollingWindow.cpp:12-44 | after any calls, a lookup is about all unexpired events, and about exactly those if and only if the window has not expired only in part |
| `TableHistories.RunFed` | nimblenet/UserEvents/TableStore/src/TableStore.cpp:41-97 | after any calls at one moment every preprocessor covers what a new one would |
| `TableHistories.EarlyOrLate` | nimblenet/UserEvents/TableStore/src/TableStore.cpp:41-131 | two runs at one moment that bring the same rows, with preprocessors and lookups at any points: preprocessors of one setting answer alike |
| `NamedAnswers.RunSetting` | nimblenet/UserEvents/TableStore/src/TableStore.cpp:94-95 | after any calls a model input has a preprocessor exactly when a call made one, with the configuration of the last such call and the positions of its names |
| `NamedAnswers.NumberByNames` | nimblenet/UserEvents/TableStore/src/TableStore.cpp:99-131 | in any state: a number of an answer is the named aggregate of the numbers, in the named column, of the covered rows that hold in the named group columns what the entity gives |
| `NamedAnswers.AnswerInRun` | nimblenet/UserEvents/UserEventsManager/src/UserEventsManager.cpp:58-267 | the same for any lookup in any run, in terms of the calls before it: their rows and the last configuration; rows before the covered ones have expired, and no covered one has unless the window has expired only in part |
| `NamedAnswers.UnansweredInRun` | nimblenet/UserEvents/TableStore/src/TableStore.cpp:99-131 | a lookup in any run goes unanswered exactly when no call made a preprocessor for it, an entity lacks a group column or there are none, or rows have shown that an operator is not known |
| `NamedAnswers.AnswersToOthers` | nimblenet/UserEvents/TableStore/src/TableStore.cpp:4-97 | an event is taken in exactly when its columns are the table's, and a preprocessor made exactly when its configuration suits them |
| `TableRuns.UserEventsManager.constructor` | nimblenet/UserEvents/UserEventsManager/src/UserEventsManager.cpp:40-56 | a table that follows no rows yet, over a database that may hold some |
| `TableRuns.UserEventsManager.AddEvent` | nimblenet/UserEvents/UserEventsManager/src/UserEventsManager.cpp:204-250 | refused exactly when the columns are not the table's; otherwise stored, and taken in by every preprocessor |
| `TableRuns.UserEventsManager.Load` | nimblenet/UserEvents/UserEventsManager/src/UserEventsManager.cpp:71-81 | the first preprocessor of a table makes it take in the rows of the database, in order |
| `TableRuns.UserEventsManager.CreatePreprocessor` | nimblenet/UserEvents/UserEventsManager/src/UserEventsManager.cpp:58-86 | the table after it, and the answer, are those of the table without objects |
| `TableRuns.UserEventsManager.GetModelInput` | nimblenet/UserEvents/UserEventsManager/src/UserEventsManager.cpp:252-267 | the vectors handed out, or nothing, and the table after it, are those of the table without objects |
| `TableRuns.UserEventsManager.Perform` | nimblenet/UserEvents/UserEventsManager/src/UserEventsManager.cpp:58-267 | any calls one after the other: all answers, and the table after them, are those of the table without objects |
| `TableRuns.Session` | nimblenet/UserEvents/UserEventsManager/src/UserEventsManager.cpp:40-267 | the same from the start on: any interleaving ends in a valid table with one key per event and preprocessor |
| `FeatureStores.RunKeeps` | nimblenet/FeatureStore/src/FeatureStore.cpp:12-59 | the protocol invariant holds in every state of every run of one loader and any number of readers, step by step |
| `FeatureStores.ReaderSeesOneLoad` | nimblenet/Executors/onnx/src/ONNXExecutor.cpp:266-273 | a reader that copied the feature under the lock has data, length, type and version of one load, in a buffer that is not freed |
| `FeatureStores.HeldFeatureStays` | nimblenet/FeatureStore/src/FeatureStore.cpp:48-56 | while a reader holds the lock neither the feature nor its buffer changes |
| `FeatureStores.BuffersAreFreedOnce` | nimblenet/FeatureStore/src/FeatureStore.cpp:46-57 | no buffer is freed twice, and between loads only the feature's own buffer is left |
| `FeatureStores.LoadedFeatureIsRead` | nimblenet/FeatureStore/src/FeatureStore.cpp:12-18 | from every state after a load, or while one is being written, some run leads any reader to a complete copy of that load's feature |
| `FeatureStores.AnyLoadIsRead` | nimblenet/FeatureStore/src/FeatureStore.cpp:12-59 | from every reachable state some run loads any given feature and leads any reader to a complete copy of it |
| `FeatureStores.TwoLoadersFreeTwice` | nimblenet/FeatureStore/src/FeatureStore.cpp:43-59 | from every state with a loaded feature, a run of two loaders after which the second is about to free a buffer that the first has freed |
| `Base64.Base64Encode` | nimblenet/util/src/base64.cpp:12-45 | the loop with its three-byte array computes the encoding by groups |
| `Base64.Base64Decode` | nimblenet/util/src/base64.cpp:48-84 | the loop with its four-byte array computes the decoding of the accepted prefix |
| `Base64.DecodeEncode` | nimblenet/util/src/base64.cpp:12-84 | decoding undoes encoding, for every sequence of bytes |
| `Base64.EncodeDecodeExact` | nimblenet/util/src/base64.cpp:12-84 | encoding undoes decoding if and only if the text is one that RFC 4648 section 4 allows: full groups, then at most one padded group with zero bits |
| `Base64.EncodeIsCanonical` | nimblenet/util/src/base64.cpp:12-45 | every encoding is such a text |
| `Base64.Encode` | nimblenet/util/src/base64.cpp:12-45 | its length is four times the number of groups of three, rounded up |
| `Base64.EncodeOfThree` | nimblenet/util/src/base64.cpp:20-31 | three octets become the four characters of their 24 bits taken six by six, the most significant first |
| `Base64.EncodeOfFewer` | nimblenet/util/src/base64.cpp:33-42 | one or two last octets are encoded as if zeros followed, with padding in place of what the zeros alone give |
| `Base64.SextetsOfBits` | nimblenet/util/src/base64.cpp:23-26 | the masks and shifts cut 24 bits into four groups of six, the most significant first |
| `Base64.FillerIsIgnored` | nimblenet/util/src/base64.cpp:73-81 | the places that no character was read for do not reach the octets handed out |
| `Tensors.SizeOf` | nimblenet/Executors/onnx/src/ONNXExecutorStructs.cpp:19-22 | the size is the product of the dimensions |
| `Tensors.RecursiveString` | nimblenet/Executors/onnx/src/ONNXExecutor.cpp:236-252 | the text is that of the nested lists of the shape, and every index read is in bounds |
| `Tensors.NestedExample` | nimblenet/Executors/onnx/src/ONNXExecutor.cpp:236-252 | the text of a two by two tensor of any elements |
| `Tensors.ReadsAll` | nimblenet/Executors/onnx/src/ONNXExecutor.cpp:236-252 | exactly the indices from 0 to the size are read, each once and in order, as every division of a stride is exact |
| `Tensors.IndexIsRowMajor` | nimblenet/Executors/onnx/src/ONNXExecutor.cpp:243-245 | the element at given coordinates is the one at their place in row-major order |
| `InferenceInputs.InferenceInputsDatabase.AddInput` | nimblenet/Executors/onnx/include/Executor.h:65-71 | one more entry overwrites the oldest slot, and the slots hold the last entries |
| `InferenceInputs.InferenceInputsDatabase.GetInputs` | nimblenet/Executors/onnx/src/ONNXExecutor.cpp:125-133 | the loop returns the entry of the first slot with the id |
| `InferenceInputs.LookupExact` | nimblenet/Executors/onnx/src/ONNXExecutor.cpp:125-133 | with distinct ids each of the last entries is found under its own id and no older one is found |
| `InferenceInputs.RepeatedExact` | nimblenet/Executors/onnx/src/ONNXExecutor.cpp:125-133 | for every history, ids repeated or not: a retained entry's slot is the first with its id if and only if every retained entry of the id is in that slot or a later one, and then it is returned |
| `InferenceInputs.FoundExact` | nimblenet/Executors/onnx/src/ONNXExecutor.cpp:125-133 | something is returned if and only if an entry of the id is retained |
| `InferenceInputs.RepeatedIdFindsOlder` | nimblenet/Executors/onnx/src/ONNXExecutor.cpp:125-133 | an input for which an older entry is returned |

## Left out

- Documents.Put: `at` returns references; the model names the place by its path and puts the changed value back, so two references into one document at a time are not modelled. `get_and_create` is modelled the same way.
- Patch.Document.PatchInPlace: a patch that is part of the document it changes is not modelled.
- Patch.TestMeansEqual: the value of a `test` operation is looked up before its location; C++ leaves the order of the two open, which shows only in which error is thrown when both fail.
- DiffCorrect.PatchOfDiff: asks that no array is longer than `size_type` can count, as holds of every document in memory; `FlattenExact.RoundTripExact` asks the same.
- Documents.Json: the three number types are merged and compared by value; NaN and discarded values, and parent pointers for diagnostics, are left out.
- Columns.AggregateColumn.RemoveEvents: has a guard for Sum, Count and Avg columns without events that the program lacks; `RemoveEventsAsWritten` has none. What the program reads at index -1 is not defined, and is modelled as a failure. `UpdateWindow` and everything above it use the guarded form.
- Aggregates.Cell: what a cell's text is read as (`GetAs`) is given with the cell; text that is not a number ends the program there.
- Aggregates.Total: sums and averages are exact; overflow and rounding of the column's type are left out, except that integer averages drop the fraction.
- RollingWindows.TimeBasedRollingWindow.AddEvent: an event that is stale when it comes must not follow one the window has accepted; this holds for events in time order and one clock reading per call or replay, which `TableStores.TableStore` guarantees.
- TableStores.TableStore.AddRow: rows come in time order and not from the future, and are stamped with the current time once a preprocessor exists, as the loading query and the caller do; a row that lacks a column is kept out by `CheckColumnsOfRow`. `TableRuns.UserEventsManager.AddEvent` asks none of this.
- TableRuns.UserEventsManager: one table. The database is the sequence of its rows, which come from it in that order, as the query sorts them by time; with their cells as stored; failing database calls, dropped tables and the deletion of old rows are left out. Clock readings do not go backwards, and each call reads the clock once.
- TableHistories.EarlyOrLate: all calls at one moment. At different moments a preprocessor that expired in part and a new one differ, as `TableHistories.LookupAfterRun` says.
- TableStores.TableStore.CreatePreprocessor: the lists of a configuration have one length; allocation failure is left out.
- FeatureStores.Step: one loader. With two the safety results do not hold, see `FeatureStores.TwoLoadersFreeTwice`.
- FeatureStores.State: memory is sequentially consistent; the expiry time and the flags around downloads are left out.
- Base64.Base64Encode: lengths beyond the range of `int` are not modelled.
- Tensors.RecursiveString: the elements are given as text; overflow of `int` indices is left out.
- WideInputs.WideStringInputAdapter: iterators over other containers, files and streams as input are left out.
- SQLite, network, JNI and file access, logging, metrics and retry wrappers: no logic beyond the calls themselves.
- ONNX Runtime and Torch sessions: not part of this repository.
- The JSON lexer, parser, serializer and binary formats: values are modelled, not their text.
- Allocators, iterators, templates over string and number types, and exception messages.
