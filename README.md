# lsp4j message model: `Either`, `TextDocumentSaveReason` and validated request records

lsp4j is a JSON-RPC 2.0 messaging engine for the Language Server Protocol and
the Debug Adapter Protocol. This project models, in Dafny, the parts of it
that hold checkable logic:

- **`Either<L, R>`** (`java_lang.dfy`, `either.dfy`, module `Messages`): the
  two-alternative union used for protocol fields whose JSON shape varies.
  It is immutable, so it is a datatype with two nullable fields. The factories
  `forLeft`/`forRight` and the tests `isLeft`/`isRight` are functions.
  `isEither` and the flattening of nested `Either<...>` type arguments
  (`getDisjoinTypes`) work over type terms instead of Java reflection. The
  flattening is specified by a recursive function, `DisjoinTypes`. Lemmas
  prove that it works left to right, that it yields exactly the non-`Either`
  leaves with one entry per leaf, and that it is idempotent. It fails exactly
  when a raw `Either` class is reached. The source's imperative
  `collectDisjoinTypes` is a recursive method with a loop that appends to a
  `TypeList` object, the model of the `ArrayList` accumulator. That method is
  proved against `DisjoinTypes`.
- **`TextDocumentSaveReason`** (`text_document_save_reason.dfy`): the int
  codec for the reason sent with `textDocument/willSave`. `forValue` checks
  that its argument is in range. The model proves the round trip in both
  directions.
- **Request parameter records** with null-checked setters. From the Language
  Server Protocol: `SemanticTokensRangeParams` and `CallHierarchyItem`. From
  the Debug Adapter Protocol: `VariablesArguments`, `StackTraceArguments`,
  `StepInArguments`, `StepOutArguments` and `RestartFrameArguments`. Each is
  a Dafny class with nullable (`Option`) fields. Each setter changes only
  its own field, as its `modifies` frame shows. A `@NonNull` setter rejects
  null before it assigns, so the old value stays. `equals` is the null-aware
  field-by-field comparison. Lemmas prove that it is an equivalence. Further
  lemmas prove that `hashCode`, computed with Java `int` wrap-around from the
  same fields, agrees with it. `SemanticTokensRangeParams` has only a
  checking constructor, so "both fields non-null" is a class invariant
  (`Valid()`), kept by every method.

`JavaLang` holds the Java vocabulary these share. Null is `None`. A thrown
exception is a `Failure`/`Fail` value. `int` and `long` are `Int32` and
`Int64`. The module also has `Preconditions.checkNotNull`, the null-aware
field comparison, `Arrays.deepEquals`/`deepHashCode` and the
`31 * result + h` hash step.

The factories carry `@NonNull` on their argument (Either.java:27, 31), so a
union is meant to hold exactly one alternative. The code does not enforce
this: the annotation is not checked, and `isLeft`/`isRight` test for non-null. The
model follows the code, so `forLeft(null)` builds a union with neither side
(`NullFactoryArgumentHasNoSide`). The invariant holds only for non-null
arguments (`FactoriesHaveExactlyOneSide`).

## Model

| member | source | states |
|---|---|---|
| `JavaLang.CheckNotNull` | org.eclipse.lsp4j/src/main/xtend-gen/org/eclipse/lsp4j/SemanticTokensRangeParams.java:58 | a null value yields the exception naming the property; a non-null value is returned unchanged |
| `JavaLang.NullSafeEquals` | org.eclipse.lsp4j.debug/src/main/xtend-gen/org/eclipse/lsp4j/debug/StepOutArguments.java:64-68 | the null-aware field comparison of every generated `equals` is exactly equality of the nullable values |
| `JavaLang.DeepEqualsIsContentEquality` | org.eclipse.lsp4j/src/main/xtend-gen/org/eclipse/lsp4j/CallHierarchyItem.java:228-232 | `Arrays.deepEquals` on the tag arrays (same length, null-aware equal elements) holds iff the two arrays have the same contents |
| `JavaLang.Wrap32` | org.eclipse.lsp4j/src/main/xtend-gen/org/eclipse/lsp4j/CallHierarchyItem.java:256 | Java `int` arithmetic: the result is congruent to the exact value modulo 2^32 and equals it when no overflow occurs |
| `JavaLang.HashAllIsPolynomial` | org.eclipse.lsp4j/src/main/xtend-gen/org/eclipse/lsp4j/CallHierarchyItem.java:253-263 | the step-by-step `result = 31 * result + h` hash, wrapping at each step, is congruent modulo 2^32 to the polynomial 31^n + sum of h_i * 31^(n-1-i) |
| `Messages.ForLeft` | org.eclipse.lsp4j.jsonrpc/src/main/java/org/eclipse/lsp4j/jsonrpc/messages/Either.java:27-29 | `forLeft(l)` is left iff `l` is non-null, is never right, `getLeft()` returns `l` and `getRight()` null |
| `Messages.ForRight` | org.eclipse.lsp4j.jsonrpc/src/main/java/org/eclipse/lsp4j/jsonrpc/messages/Either.java:31-33 | `forRight(r)` is right iff `r` is non-null, is never left, `getRight()` returns `r` and `getLeft()` null |
| `Messages.FactoriesHaveExactlyOneSide` | org.eclipse.lsp4j.jsonrpc/src/main/java/org/eclipse/lsp4j/jsonrpc/messages/Either.java:27-58 | a factory given a non-null argument builds a union with exactly one side, the one given |
| `Messages.NullFactoryArgumentHasNoSide` | org.eclipse.lsp4j.jsonrpc/src/main/java/org/eclipse/lsp4j/jsonrpc/messages/Either.java:52-58 | `isLeft`/`isRight` only test for non-null, so `forLeft(null)` and `forRight(null)` build a union with neither side |
| `Messages.IsEitherIffErasesToEither` | org.eclipse.lsp4j.jsonrpc/src/main/java/org/eclipse/lsp4j/jsonrpc/messages/Either.java:89-111 | `isEither` holds iff the type erases (through raw types of parameterized types) to a class assignable to `Either`; other kinds of type are never `Either` |
| `Messages.DisjoinTypesOfAppend` | org.eclipse.lsp4j.jsonrpc/src/main/java/org/eclipse/lsp4j/jsonrpc/messages/Either.java:77-79 | the arguments are flattened left to right: flattening two consecutive runs of arguments gives the first flattening followed by the second |
| `Messages.DisjoinTypesAreTheLeaves` | org.eclipse.lsp4j.jsonrpc/src/main/java/org/eclipse/lsp4j/jsonrpc/messages/Either.java:74-84 | a successful flattening contains exactly the non-`Either` leaves reached through `Either` type arguments |
| `Messages.DisjoinTypesOfAreTheLeaves` | org.eclipse.lsp4j.jsonrpc/src/main/java/org/eclipse/lsp4j/jsonrpc/messages/Either.java:77-79 | the flattening of an argument list contains exactly the leaves of its arguments |
| `Messages.LeafIsNotEither` | org.eclipse.lsp4j.jsonrpc/src/main/java/org/eclipse/lsp4j/jsonrpc/messages/Either.java:80-81 | only non-`Either` types are added as leaves |
| `Messages.NoEitherInDisjoinTypes` | org.eclipse.lsp4j.jsonrpc/src/main/java/org/eclipse/lsp4j/jsonrpc/messages/Either.java:74-84 | no `Either` type is left in a successful flattening |
| `Messages.DisjoinTypesCountsLeaves` | org.eclipse.lsp4j.jsonrpc/src/main/java/org/eclipse/lsp4j/jsonrpc/messages/Either.java:74-84 | a successful flattening has one entry per leaf, counted with multiplicity |
| `Messages.DisjoinTypesOfCountsLeaves` | org.eclipse.lsp4j.jsonrpc/src/main/java/org/eclipse/lsp4j/jsonrpc/messages/Either.java:77-79 | the flattening of an argument list has one entry per leaf of its arguments |
| `Messages.DisjoinTypesIsIdempotent` | org.eclipse.lsp4j.jsonrpc/src/main/java/org/eclipse/lsp4j/jsonrpc/messages/Either.java:70-84 | flattening the output of a flattening returns it unchanged |
| `Messages.DisjoinTypesFailsIffRawEither` | org.eclipse.lsp4j.jsonrpc/src/main/java/org/eclipse/lsp4j/jsonrpc/messages/Either.java:75-76 | flattening throws `ClassCastException` iff a raw, non-parameterized `Either` is reached |
| `Messages.DisjoinTypesOfFailsIffRawEither` | org.eclipse.lsp4j.jsonrpc/src/main/java/org/eclipse/lsp4j/jsonrpc/messages/Either.java:77-79 | flattening an argument list throws iff one of the arguments reaches a raw `Either` |
| `Messages.ParameterizedEither` | org.eclipse.lsp4j.jsonrpc/src/main/java/org/eclipse/lsp4j/jsonrpc/messages/Either.java:75-79 | a parameterized `Either` is an `Either` and flattens to the flattening of its arguments |
| `Messages.NestedLeftEitherExample` | org.eclipse.lsp4j.jsonrpc/src/main/java/org/eclipse/lsp4j/jsonrpc/messages/Either.java:70-84 | `Either<Either<A, B>, C>` flattens to `[A, B, C]` |
| `Messages.NestedRightEitherExample` | org.eclipse.lsp4j.jsonrpc/src/main/java/org/eclipse/lsp4j/jsonrpc/messages/Either.java:70-84 | `Either<A, Either<B, C>>` flattens to `[A, B, C]` |
| `Messages.RawEitherArgumentExample` | org.eclipse.lsp4j.jsonrpc/src/main/java/org/eclipse/lsp4j/jsonrpc/messages/Either.java:75-76 | `Either<A, Either>` with a raw `Either` argument throws on that argument |
| `Messages.AppendedBeforeThrowOnSuccess` | org.eclipse.lsp4j.jsonrpc/src/main/java/org/eclipse/lsp4j/jsonrpc/messages/Either.java:77-81 | when the flattening succeeds, what `collectDisjoinTypes` appends is exactly the flattening |
| `Messages.AppendedBeforeThrowOfOnSuccess` | org.eclipse.lsp4j.jsonrpc/src/main/java/org/eclipse/lsp4j/jsonrpc/messages/Either.java:77-79 | the same for an argument list whose flattening succeeds |
| `Messages.PrefixFailureKeepsAppended` | org.eclipse.lsp4j.jsonrpc/src/main/java/org/eclipse/lsp4j/jsonrpc/messages/Either.java:77-79 | once an argument throws, the arguments after it append nothing |
| `Messages.RawEitherArgumentAppendsLeaf` | org.eclipse.lsp4j.jsonrpc/src/main/java/org/eclipse/lsp4j/jsonrpc/messages/Either.java:74-84 | collecting `Either<A, Either>` appends `A` before throwing on the raw `Either` |
| `Messages.TypeList.Add` | org.eclipse.lsp4j.jsonrpc/src/main/java/org/eclipse/lsp4j/jsonrpc/messages/Either.java:81 | `types.add(t)` appends `t` to the list |
| `Messages.CollectDisjoinTypes` | org.eclipse.lsp4j.jsonrpc/src/main/java/org/eclipse/lsp4j/jsonrpc/messages/Either.java:74-84 | appends the flattening of the type to the accumulator and returns the accumulator; throws exactly when the flattening fails, with the exception the flattening names, after appending the leaves reached before the raw `Either` (`AppendedBeforeThrow`) to the accumulator's earlier contents |
| `Messages.GetDisjoinTypes` | org.eclipse.lsp4j.jsonrpc/src/main/java/org/eclipse/lsp4j/jsonrpc/messages/Either.java:70-72 | returns a new list holding exactly the flattening (`[t]` for a non-`Either` type), or throws the exception the flattening names when it fails |
| `SaveReasons.TextDocumentSaveReason.GetValue` | org.eclipse.lsp4j/src/main/java/org/eclipse/lsp4j/TextDocumentSaveReason.java:12-32 | `getValue` lies in 1..3 |
| `SaveReasons.Values` | org.eclipse.lsp4j/src/main/java/org/eclipse/lsp4j/TextDocumentSaveReason.java:12-22 | `values()` lists the three constants in declaration order; each constant's value is its 1-based position |
| `SaveReasons.ForValue` | org.eclipse.lsp4j/src/main/java/org/eclipse/lsp4j/TextDocumentSaveReason.java:34-39 | `forValue(v)` succeeds iff 1 <= v <= 3, then with the constant whose value is v; otherwise it throws `Illegal enum value: v` |
| `SaveReasons.ForValueOfGetValue` | org.eclipse.lsp4j/src/main/java/org/eclipse/lsp4j/TextDocumentSaveReason.java:30-38 | round trip: `forValue(getValue(r)) == r` for every constant |
| `SaveReasons.GetValueOfForValue` | org.eclipse.lsp4j/src/main/java/org/eclipse/lsp4j/TextDocumentSaveReason.java:34-38 | round trip: `getValue(forValue(v)) == v` whenever `forValue(v)` succeeds |
| `SaveReasons.GetValueIsInjective` | org.eclipse.lsp4j/src/main/java/org/eclipse/lsp4j/TextDocumentSaveReason.java:12-32 | distinct constants have distinct values, all within 1..3 |
| `SemanticTokens.New` | org.eclipse.lsp4j/src/main/xtend-gen/org/eclipse/lsp4j/SemanticTokensRangeParams.java:40-43 | the constructor throws on a null `textDocument` (checked first) or a null `range`; otherwise the new object holds both and satisfies the non-null invariant |
| `SemanticTokens.SemanticTokensRangeParams.Init` | org.eclipse.lsp4j/src/main/xtend-gen/org/eclipse/lsp4j/SemanticTokensRangeParams.java:40-43 | an object built from two checked values holds them and satisfies the invariant |
| `SemanticTokens.SemanticTokensRangeParams.SetTextDocument` | org.eclipse.lsp4j/src/main/xtend-gen/org/eclipse/lsp4j/SemanticTokensRangeParams.java:57-59 | keeps the invariant; a non-null value is stored, null throws and keeps the old value; `range` is not touched |
| `SemanticTokens.SemanticTokensRangeParams.SetRange` | org.eclipse.lsp4j/src/main/xtend-gen/org/eclipse/lsp4j/SemanticTokensRangeParams.java:73-75 | keeps the invariant; a non-null value is stored, null throws and keeps the old value; `textDocument` is not touched |
| `SemanticTokens.SemanticTokensRangeParams.Equals` | org.eclipse.lsp4j/src/main/xtend-gen/org/eclipse/lsp4j/SemanticTokensRangeParams.java:88-107 | true iff the other object is a non-null `SemanticTokensRangeParams` with equal `textDocument` and `range` |
| `SemanticTokens.EqualsIsEquivalence` | org.eclipse.lsp4j/src/main/xtend-gen/org/eclipse/lsp4j/SemanticTokensRangeParams.java:88-107 | `equals` is reflexive, symmetric and transitive |
| `SemanticTokens.EqualsImpliesEqualHashCodes` | org.eclipse.lsp4j/src/main/xtend-gen/org/eclipse/lsp4j/SemanticTokensRangeParams.java:111-116 | equal objects have equal `hashCode`s, for any hash codes of the field types |
| `CallHierarchy.CallHierarchyItem.constructor` | org.eclipse.lsp4j/src/main/xtend-gen/org/eclipse/lsp4j/CallHierarchyItem.java:29-71 | a new item has all seven fields null: `@NonNull` is not an invariant |
| `CallHierarchy.CallHierarchyItem.SetName` | org.eclipse.lsp4j/src/main/xtend-gen/org/eclipse/lsp4j/CallHierarchyItem.java:85-87 | a non-null value is stored; null throws and keeps the old value; no other field changes |
| `CallHierarchy.CallHierarchyItem.SetDetail` | org.eclipse.lsp4j/src/main/xtend-gen/org/eclipse/lsp4j/CallHierarchyItem.java:100-102 | stores the value, null included; no other field changes |
| `CallHierarchy.CallHierarchyItem.SetKind` | org.eclipse.lsp4j/src/main/xtend-gen/org/eclipse/lsp4j/CallHierarchyItem.java:116-118 | a non-null value is stored; null throws and keeps the old value; no other field changes |
| `CallHierarchy.CallHierarchyItem.SetTags` | org.eclipse.lsp4j/src/main/xtend-gen/org/eclipse/lsp4j/CallHierarchyItem.java:131-133 | stores the value, null included; no other field changes |
| `CallHierarchy.CallHierarchyItem.SetUri` | org.eclipse.lsp4j/src/main/xtend-gen/org/eclipse/lsp4j/CallHierarchyItem.java:147-149 | a non-null value is stored; null throws and keeps the old value; no other field changes |
| `CallHierarchy.CallHierarchyItem.SetRange` | org.eclipse.lsp4j/src/main/xtend-gen/org/eclipse/lsp4j/CallHierarchyItem.java:167-169 | a non-null value is stored; null throws and keeps the old value; no other field changes |
| `CallHierarchy.CallHierarchyItem.SetSelectionRange` | org.eclipse.lsp4j/src/main/xtend-gen/org/eclipse/lsp4j/CallHierarchyItem.java:185-187 | a non-null value is stored; null throws and keeps the old value; no other field changes |
| `CallHierarchy.CallHierarchyItem.Equals` | org.eclipse.lsp4j/src/main/xtend-gen/org/eclipse/lsp4j/CallHierarchyItem.java:205-249 | true iff the other object is a non-null `CallHierarchyItem` whose seven fields are equal, `tags` compared by contents |
| `CallHierarchy.EqualsIsEquivalence` | org.eclipse.lsp4j/src/main/xtend-gen/org/eclipse/lsp4j/CallHierarchyItem.java:205-249 | `equals` is reflexive, symmetric and transitive |
| `CallHierarchy.EqualsImpliesEqualHashCodes` | org.eclipse.lsp4j/src/main/xtend-gen/org/eclipse/lsp4j/CallHierarchyItem.java:253-263 | equal items have equal `hashCode`s, `tags` hashed with `deepHashCode`, for any hash codes of the field types |
| `Variables.VariablesArguments.constructor` | org.eclipse.lsp4j.debug/src/main/xtend-gen/org/eclipse/lsp4j/debug/VariablesArguments.java:25-58 | a new object has all five fields null |
| `Variables.VariablesArguments.SetVariablesReference` | org.eclipse.lsp4j.debug/src/main/xtend-gen/org/eclipse/lsp4j/debug/VariablesArguments.java:72-74 | a non-null value is stored; null throws and keeps the old value; no other field changes |
| `Variables.VariablesArguments.SetFilter` | org.eclipse.lsp4j.debug/src/main/xtend-gen/org/eclipse/lsp4j/debug/VariablesArguments.java:91-93 | stores the value, null included; no other field changes |
| `Variables.VariablesArguments.SetStart` | org.eclipse.lsp4j.debug/src/main/xtend-gen/org/eclipse/lsp4j/debug/VariablesArguments.java:110-112 | stores the value, null included; no other field changes |
| `Variables.VariablesArguments.SetCount` | org.eclipse.lsp4j.debug/src/main/xtend-gen/org/eclipse/lsp4j/debug/VariablesArguments.java:129-131 | stores the value, null included; no other field changes |
| `Variables.VariablesArguments.SetFormat` | org.eclipse.lsp4j.debug/src/main/xtend-gen/org/eclipse/lsp4j/debug/VariablesArguments.java:148-150 | stores the value, null included; no other field changes |
| `Variables.VariablesArguments.Equals` | org.eclipse.lsp4j.debug/src/main/xtend-gen/org/eclipse/lsp4j/debug/VariablesArguments.java:166-200 | true iff the other object is a non-null `VariablesArguments` whose five fields are equal |
| `Variables.EqualsIsEquivalence` | org.eclipse.lsp4j.debug/src/main/xtend-gen/org/eclipse/lsp4j/debug/VariablesArguments.java:166-200 | `equals` is reflexive, symmetric and transitive |
| `Variables.EqualsImpliesEqualHashCodes` | org.eclipse.lsp4j.debug/src/main/xtend-gen/org/eclipse/lsp4j/debug/VariablesArguments.java:204-212 | equal objects have equal `hashCode`s, for any hash codes of the field types |
| `StackTrace.StackTraceArguments.constructor` | org.eclipse.lsp4j.debug/src/main/xtend-gen/org/eclipse/lsp4j/debug/StackTraceArguments.java:24-50 | a new object has all four fields null |
| `StackTrace.StackTraceArguments.SetThreadId` | org.eclipse.lsp4j.debug/src/main/xtend-gen/org/eclipse/lsp4j/debug/StackTraceArguments.java:64-66 | a non-null value is stored; null throws and keeps the old value; no other field changes |
| `StackTrace.StackTraceArguments.SetStartFrame` | org.eclipse.lsp4j.debug/src/main/xtend-gen/org/eclipse/lsp4j/debug/StackTraceArguments.java:83-85 | stores the value, null included; no other field changes |
| `StackTrace.StackTraceArguments.SetLevels` | org.eclipse.lsp4j.debug/src/main/xtend-gen/org/eclipse/lsp4j/debug/StackTraceArguments.java:102-104 | stores the value, null included; no other field changes |
| `StackTrace.StackTraceArguments.SetFormat` | org.eclipse.lsp4j.debug/src/main/xtend-gen/org/eclipse/lsp4j/debug/StackTraceArguments.java:121-123 | stores the value, null included; no other field changes |
| `StackTrace.StackTraceArguments.Equals` | org.eclipse.lsp4j.debug/src/main/xtend-gen/org/eclipse/lsp4j/debug/StackTraceArguments.java:138-167 | true iff the other object is a non-null `StackTraceArguments` whose four fields are equal |
| `StackTrace.EqualsIsEquivalence` | org.eclipse.lsp4j.debug/src/main/xtend-gen/org/eclipse/lsp4j/debug/StackTraceArguments.java:138-167 | `equals` is reflexive, symmetric and transitive |
| `StackTrace.EqualsImpliesEqualHashCodes` | org.eclipse.lsp4j.debug/src/main/xtend-gen/org/eclipse/lsp4j/debug/StackTraceArguments.java:171-178 | equal objects have equal `hashCode`s, for any hash codes of the field types |
| `StepIn.StepInArguments.constructor` | org.eclipse.lsp4j.debug/src/main/xtend-gen/org/eclipse/lsp4j/debug/StepInArguments.java:22-34 | a new object has both fields null |
| `StepIn.StepInArguments.SetThreadId` | org.eclipse.lsp4j.debug/src/main/xtend-gen/org/eclipse/lsp4j/debug/StepInArguments.java:48-53 | a non-null value is stored; null throws `Property must not be null: threadId` before assigning, keeping the old value; `targetId` is not touched |
| `StepIn.StepInArguments.SetTargetId` | org.eclipse.lsp4j.debug/src/main/xtend-gen/org/eclipse/lsp4j/debug/StepInArguments.java:70-72 | stores the value, null included; `threadId` is not touched |
| `StepIn.StepInArguments.Equals` | org.eclipse.lsp4j.debug/src/main/xtend-gen/org/eclipse/lsp4j/debug/StepInArguments.java:85-104 | true iff the other object is a non-null `StepInArguments` with equal `threadId` and `targetId` |
| `StepIn.EqualsIsEquivalence` | org.eclipse.lsp4j.debug/src/main/xtend-gen/org/eclipse/lsp4j/debug/StepInArguments.java:85-104 | `equals` is reflexive, symmetric and transitive |
| `StepIn.EqualsImpliesEqualHashCodes` | org.eclipse.lsp4j.debug/src/main/xtend-gen/org/eclipse/lsp4j/debug/StepInArguments.java:108-113 | equal objects have equal `hashCode`s, for any `Long.hashCode` |
| `StepOut.StepOutArguments.constructor` | org.eclipse.lsp4j.debug/src/main/xtend-gen/org/eclipse/lsp4j/debug/StepOutArguments.java:23-28 | a new object has a null `threadId` |
| `StepOut.StepOutArguments.SetThreadId` | org.eclipse.lsp4j.debug/src/main/xtend-gen/org/eclipse/lsp4j/debug/StepOutArguments.java:42-44 | a non-null value is stored; null throws and keeps the old value |
| `StepOut.StepOutArguments.Equals` | org.eclipse.lsp4j.debug/src/main/xtend-gen/org/eclipse/lsp4j/debug/StepOutArguments.java:56-70 | true iff the other object is a non-null `StepOutArguments` with equal `threadId` |
| `StepOut.HashCodeWithoutThreadId` | org.eclipse.lsp4j.debug/src/main/xtend-gen/org/eclipse/lsp4j/debug/StepOutArguments.java:74-76 | `hashCode` is 31 when `threadId` is null |
| `StepOut.EqualsIsEquivalence` | org.eclipse.lsp4j.debug/src/main/xtend-gen/org/eclipse/lsp4j/debug/StepOutArguments.java:56-70 | `equals` is reflexive, symmetric and transitive |
| `StepOut.EqualsImpliesEqualHashCodes` | org.eclipse.lsp4j.debug/src/main/xtend-gen/org/eclipse/lsp4j/debug/StepOutArguments.java:74-76 | equal objects have equal `hashCode`s, for any `Integer.hashCode` |
| `RestartFrame.RestartFrameArguments.constructor` | org.eclipse.lsp4j.debug/src/main/xtend-gen/org/eclipse/lsp4j/debug/RestartFrameArguments.java:23-28 | a new object has a null `frameId` |
| `RestartFrame.RestartFrameArguments.SetFrameId` | org.eclipse.lsp4j.debug/src/main/xtend-gen/org/eclipse/lsp4j/debug/RestartFrameArguments.java:42-44 | a non-null value is stored; null throws and keeps the old value |
| `RestartFrame.RestartFrameArguments.Equals` | org.eclipse.lsp4j.debug/src/main/xtend-gen/org/eclipse/lsp4j/debug/RestartFrameArguments.java:56-70 | true iff the other object is a non-null `RestartFrameArguments` with equal `frameId` |
| `RestartFrame.HashCodeWithoutFrameId` | org.eclipse.lsp4j.debug/src/main/xtend-gen/org/eclipse/lsp4j/debug/RestartFrameArguments.java:74-76 | `hashCode` is 31 when `frameId` is null |
| `RestartFrame.EqualsIsEquivalence` | org.eclipse.lsp4j.debug/src/main/xtend-gen/org/eclipse/lsp4j/debug/RestartFrameArguments.java:56-70 | `equals` is reflexive, symmetric and transitive |
| `RestartFrame.EqualsImpliesEqualHashCodes` | org.eclipse.lsp4j.debug/src/main/xtend-gen/org/eclipse/lsp4j/debug/RestartFrameArguments.java:74-76 | equal objects have equal `hashCode`s, for any `Long.hashCode` |

## Left out

- Framing, the JSON translator, the dispatcher, the pending-request table and the launcher are not part of this model.
- `toString` of `Either` and of every record: its text depends on the platform line separator and on `ToStringBuilder`, which is not part of this model.
- Getters: each returns its field; the model reads the field directly.
- Java reflection (`ParameterizedType`, `Class.isAssignableFrom`): replaced by the `JavaType` terms. Whether a class is assignable to `Either` is a flag of the class term.
- `Messages.CollectDisjoinTypes`: the `ClassCastException` carries the offending type term, not the JVM's message text.
- The source of `Preconditions.checkNotNull` is not among the modelled files. `JavaLang.CheckNotNull` models it as "throw an exception naming the property if null, else return the value", which is what its use in an assignment implies. Its exception class and message text are not modelled; only the property name is.
- Protocol value types (`Range`, `TextDocumentIdentifier`, `SymbolKind`, `SymbolTag`, `ValueFormat`, `VariablesArgumentsFilter`, `StackFrameFormat`) are abstract types. Their `equals` is modelled as value equality.
- The `HashCode` functions: the field types' `hashCode`s (`String`, `Integer`, `Long`, enums, `Range`, ...) are parameters, because they are foreign and, for enums, identity-based. So only agreement with `equals` is proved, never exact hash values. The `31 * result + h` steps and their 32-bit wrap-around are modelled exactly.
- `CallHierarchyItem.tags` is a `SymbolTag[]` in the source. It is modelled as a value (a nullable sequence of nullable tags), so aliasing is not captured: a caller that mutates the array after `setTags` changes the item. `Arrays.deepEquals`/`deepHashCode` are JDK code, modelled by their documented element-by-element meaning.
- `getClass() != obj.getClass()`: Dafny classes cannot be extended, so the model tests this with `obj is C`. Subclasses of the records are not modelled.
- Constraints stated only in doc comments and never enforced by these classes are not asserted as invariants. Examples: `selectionRange` lies inside `range`; `variablesReference <= 2^31 - 1`; an omitted `start` means 0; a zero `count` means all.
- `Either` does not override `equals`/`hashCode`, so it compares by identity; that is not modelled.
