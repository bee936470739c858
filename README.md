# j2cl-tools core, modelled in Dafny

This project models, and proves properties of, the core pieces of the
j2cl-tools repository:

- **Transpiler passes.** `AddAbstractMethodStubs` redeclares, on an abstract class, each abstract
  interface method the class does not already declare, as a bodiless stub. `NormalizeNullLiterals`
  rewrites each null literal in a type-conversion context to the default value of the required type.
- **AST nodes.** `ContinueStatement`, with its builder, and `ThisReference`, with clone semantics.
- **Integration-test semantics.** Static initialization order (`StaticInitOrder`). Single evaluation of the
  operand of an array cast (`arraycastsinglesideeffect.Main`). The Java dispatch rules that bridge
  methods must preserve (`allsimplebridges.Tester135`, `Tester473` and `Tester673`).
- **Closure's streaming base64 decoder** (`goog.net.streams.Base64StreamDecoder`). It gathers whole
  4-character groups and stays broken after the first error.
- **YAML mapper pieces.** The `long[]` serializer, the `char[][]` deserializer and the `ValueHolder`
  (de)serializer, over a model of the mapper's node tree and writers.
- **Value classes** `PetShopArray` and `PetShop`, with `equals`/`hashCode` in Java's 32-bit `int` arithmetic.

Where the source changes state in place, the model does so too. `Type.ApplyTo` appends to a class's member
list in a loop. The decoder, the builders, the static state, `Main`'s counter, the YAML writers and
the PetShop setters are classes with fields. The `char[][]` deserializer fills a preallocated array in
nested loops. Each such method is proved against a pure function or a predicate — `AddStubs`, `Step`,
`LongScalars`, `Cell` — and the lemmas state what the source promises about those.

Collaborators whose code is not part of this model are parameters: the type model's
`getPolymorphicMethods`, `isMemberOf`, `getDefaultValue`, `isNonNativeJsEnum`, the base64 group decoder,
and `Animal.equals`/`hashCode`.

## Model

| member | source | states |
|---|---|---|
| AddAbstractMethodStubs.CreateParameterVariables | j2cl/transpiler/java/com/google/j2cl/transpiler/passes/AddAbstractMethodStubs.java:82-83 | one parameter variable per parameter type, in order, each of that type |
| AddAbstractMethodStubs.Candidates | j2cl/transpiler/java/com/google/j2cl/transpiler/passes/AddAbstractMethodStubs.java:65-68 | a method is kept exactly when it is among the polymorphic methods, abstract, not a member of the declaration and declared by an interface; never more than the input |
| AddAbstractMethodStubs.Type.AddMember | j2cl/transpiler/java/com/google/j2cl/transpiler/passes/AddAbstractMethodStubs.java:75 | the member is appended at the end; nothing else changes |
| AddAbstractMethodStubs.Type.ApplyTo | j2cl/transpiler/java/com/google/j2cl/transpiler/passes/AddAbstractMethodStubs.java:35-87 | a non-class, non-abstract or native type, or one whose super type disagrees with its descriptor, keeps its members; otherwise the loop leaves exactly the members of the stub fold over the candidates |
| AddAbstractMethodStubs.AddStubsKeepsMembers | j2cl/transpiler/java/com/google/j2cl/transpiler/passes/AddAbstractMethodStubs.java:69-86 | the original members stay in place as a prefix; the pass only appends |
| AddAbstractMethodStubs.AddStubsAddsOnlyStubs | j2cl/transpiler/java/com/google/j2cl/transpiler/passes/AddAbstractMethodStubs.java:75-85 | every appended member is the stub of one of the candidates |
| AddAbstractMethodStubs.AddStubsAppendsOnlyNewNames | j2cl/transpiler/java/com/google/j2cl/transpiler/passes/AddAbstractMethodStubs.java:71-74 | every appended member is a method whose mangled name no earlier member declares, stubs added earlier in the same run included |
| AddAbstractMethodStubs.NoStubForDeclaredName | j2cl/transpiler/java/com/google/j2cl/transpiler/passes/AddAbstractMethodStubs.java:71-74 | no stub is added for a mangled name the type already declared |
| AddAbstractMethodStubs.AddedNamesDistinct | j2cl/transpiler/java/com/google/j2cl/transpiler/passes/AddAbstractMethodStubs.java:69-86 | two stubs appended in one run have different mangled names |
| AddAbstractMethodStubs.AddStubsCoversCandidates | j2cl/transpiler/java/com/google/j2cl/transpiler/passes/AddAbstractMethodStubs.java:69-86 | after the fold every candidate mangled name is declared |
| AddAbstractMethodStubs.AddStubsNoOpWhenAllDeclared | j2cl/transpiler/java/com/google/j2cl/transpiler/passes/AddAbstractMethodStubs.java:71-74 | when every candidate name is already declared nothing is appended |
| AddAbstractMethodStubs.AddStubsIdempotent | j2cl/transpiler/java/com/google/j2cl/transpiler/passes/AddAbstractMethodStubs.java:65-86 | a second fold over the same candidates adds nothing |
| AddAbstractMethodStubs.AppliedSkips | j2cl/transpiler/java/com/google/j2cl/transpiler/passes/AddAbstractMethodStubs.java:36-64 | the two early returns: skipped types keep exactly their members |
| AddAbstractMethodStubs.AppliedAppendsStubs | j2cl/transpiler/java/com/google/j2cl/transpiler/passes/AddAbstractMethodStubs.java:75-85 | members are kept as a prefix; each appended member is an abstract, bodiless method enclosed by the type, without source position, with the mangled name and parameter types of an abstract interface method that is not a member of the declaration and one parameter variable per type |
| AddAbstractMethodStubs.AppliedNamesUnique | j2cl/transpiler/java/com/google/j2cl/transpiler/passes/AddAbstractMethodStubs.java:71-75 | a stub never repeats an original mangled name nor that of another stub |
| AddAbstractMethodStubs.AppliedCoversCandidates | j2cl/transpiler/java/com/google/j2cl/transpiler/passes/AddAbstractMethodStubs.java:65-86 | on a type the pass applies to, every abstract interface method that is not a member of the declaration ends up declared |
| AddAbstractMethodStubs.AppliedIdempotent | j2cl/transpiler/java/com/google/j2cl/transpiler/passes/AddAbstractMethodStubs.java:35-87 | running the pass twice gives the same members as running it once |
| NormalizeNullLiterals.RewriteTypeConversionContext | j2cl/transpiler/java/com/google/j2cl/transpiler/passes/NormalizeNullLiterals.java:38-54 | any expression other than a null literal is returned unchanged |
| NormalizeNullLiterals.NullLiteralBecomesDefault | j2cl/transpiler/java/com/google/j2cl/transpiler/passes/NormalizeNullLiterals.java:42-51 | a null literal becomes `java.lang.Object`'s default value when the required type is a non-native JsEnum, the required type's default value otherwise |
| NormalizeNullLiterals.IndependentOfActualType | j2cl/transpiler/java/com/google/j2cl/transpiler/passes/NormalizeNullLiterals.java:38-54 | the actual type of the converted expression never affects the result |
| NormalizeNullLiterals.IndependentOfLiteralType | j2cl/transpiler/java/com/google/j2cl/transpiler/passes/NormalizeNullLiterals.java:42-51 | null literals of any type are rewritten alike in the same context |
| NormalizeNullLiterals.RewriteIdempotent | j2cl/transpiler/java/com/google/j2cl/transpiler/passes/NormalizeNullLiterals.java:38-54 | rewriting the result again in the same context changes nothing |
| ContinueStatements.CloneLabelReference | j2cl/transpiler/java/com/google/j2cl/transpiler/ast/ContinueStatement.java:32 | null stays null; a label reference becomes a new one to the same label |
| ContinueStatements.ContinueStatement.constructor | j2cl/transpiler/java/com/google/j2cl/transpiler/ast/ContinueStatement.java:26-28 | the node holds the given position and label reference |
| ContinueStatements.ContinueStatement.Clone | j2cl/transpiler/java/com/google/j2cl/transpiler/ast/ContinueStatement.java:31-33 | a new node at the same position whose label reference is a new copy pointing at the same label, or null when the original has none |
| ContinueStatements.ContinueStatement.ToBuilder | j2cl/transpiler/java/com/google/j2cl/transpiler/ast/ContinueStatement.java:41-43 | a new builder holding the node's position and its very label reference |
| ContinueStatements.NewBuilder | j2cl/transpiler/java/com/google/j2cl/transpiler/ast/ContinueStatement.java:45-47 | a new builder with both fields null |
| ContinueStatements.From | j2cl/transpiler/java/com/google/j2cl/transpiler/ast/ContinueStatement.java:54-58 | a new builder seeded with the statement's position and label reference |
| ContinueStatements.Builder.constructor | j2cl/transpiler/java/com/google/j2cl/transpiler/ast/ContinueStatement.java:50-52 | both builder fields start out null |
| ContinueStatements.Builder.SetSourcePosition | j2cl/transpiler/java/com/google/j2cl/transpiler/ast/ContinueStatement.java:61-64 | sets the position only and returns the same builder |
| ContinueStatements.Builder.SetLabelReference | j2cl/transpiler/java/com/google/j2cl/transpiler/ast/ContinueStatement.java:67-70 | sets the label reference only and returns the same builder |
| ContinueStatements.Builder.Build | j2cl/transpiler/java/com/google/j2cl/transpiler/ast/ContinueStatement.java:73-75 | a new statement carrying the builder's current fields |
| ContinueStatements.RebuildUnchanged | j2cl/transpiler/java/com/google/j2cl/transpiler/ast/ContinueStatement.java:41-75 | `toBuilder().build()` gives a different node with the same position and the identical label reference |
| ThisReferences.ThisReference.constructor | j2cl/transpiler/java/com/google/j2cl/transpiler/ast/ThisReference.java:29-31 | the node holds the given type descriptor and qualification |
| ThisReferences.ThisReference.Unqualified | j2cl/transpiler/java/com/google/j2cl/transpiler/ast/ThisReference.java:25-27 | the one-argument constructor makes an unqualified reference |
| ThisReferences.ThisReference.Clone | j2cl/transpiler/java/com/google/j2cl/transpiler/ast/ThisReference.java:34-36 | a different node with the same qualification and the very same type descriptor object |
| StaticInitOrder.StaticActionsAreInitializers | j2cl/transpiler/javatests/com/google/j2cl/integration/java/jsconstructor/StaticInitOrder.java:24-41 | class initialization runs exactly the declared field initializers and static blocks; method declarations are not run |
| StaticInitOrder.DeclarationOrder | j2cl/transpiler/javatests/com/google/j2cl/integration/java/jsconstructor/StaticInitOrder.java:24-41 | the initialization actions are `counter`, `field1`, `field2`, the first block and the second block, in that order |
| StaticInitOrder.StaticState.PostIncrementCounter | j2cl/transpiler/javatests/com/google/j2cl/integration/java/jsconstructor/StaticInitOrder.java:36 | `counter++` yields the old value and increments by one, leaving the fields alone |
| StaticInitOrder.StaticState.InitializeField1 | j2cl/transpiler/javatests/com/google/j2cl/integration/java/jsconstructor/StaticInitOrder.java:43-46 | the increment sees the old counter and the method returns the new one |
| StaticInitOrder.StaticState.InitializeField2 | j2cl/transpiler/javatests/com/google/j2cl/integration/java/jsconstructor/StaticInitOrder.java:48-51 | the increment sees the old counter and the method returns the new one |
| StaticInitOrder.StaticState.RunAction | j2cl/transpiler/javatests/com/google/j2cl/integration/java/jsconstructor/StaticInitOrder.java:24-41 | running one declaration changes the static state exactly as `Apply` says: the `counter` initializer sets it to 1, each field initializer calls its method, each block post-increments, a method declaration does nothing |
| StaticInitOrder.StaticState.Initialize | j2cl/transpiler/javatests/com/google/j2cl/integration/java/jsconstructor/StaticInitOrder.java:24-41 | a loop over `StaticActions(Declarations)` whose final state is `Executed` of those actions in declaration order: the four increments see 1, 2, 3 and 4 (every `assertTrue` holds), leaving `counter` 5, `field1` 2 and `field2` 3 |
| StaticInitOrder.InitializationResult | j2cl/transpiler/javatests/com/google/j2cl/integration/java/jsconstructor/StaticInitOrder.java:24-51 | from any prior static state, the declared actions run in declaration order observe 1, 2, 3, 4 and end with `counter` 5, `field1` 2, `field2` 3 |
| StaticInitOrder.StaticState.Test | j2cl/transpiler/javatests/com/google/j2cl/integration/java/jsconstructor/StaticInitOrder.java:26-30 | `test()` passes exactly when counter is 5, field1 is 2 and field2 is 3 |
| StaticInitOrder.InitializeThenTest | j2cl/transpiler/javatests/com/google/j2cl/integration/java/jsconstructor/StaticInitOrder.java:24-51 | after class initialization `test()` passes |
| ArrayCastSingleSideEffect.CastToObjectArray | j2cl/transpiler/javatests/com/google/j2cl/integration/java/arraycastsinglesideeffect/Main.java:25 | null and object arrays pass the `(Object[])` cast unchanged; any other object throws |
| ArrayCastSingleSideEffect.MainObject.constructor | j2cl/transpiler/javatests/com/google/j2cl/integration/java/arraycastsinglesideeffect/Main.java:35 | the counter starts at 0 |
| ArrayCastSingleSideEffect.MainObject.GetWithSideEffect | j2cl/transpiler/javatests/com/google/j2cl/integration/java/arraycastsinglesideeffect/Main.java:37-40 | increments the counter once and returns a new one-element array |
| ArrayCastSingleSideEffect.MainObject.CastOfCall | j2cl/transpiler/javatests/com/google/j2cl/integration/java/arraycastsinglesideeffect/Main.java:25 | the cast evaluates its operand once: the counter rises by exactly one and the cast succeeds |
| ArrayCastSingleSideEffect.RunMain | j2cl/transpiler/javatests/com/google/j2cl/integration/java/arraycastsinglesideeffect/Main.java:22-33 | after the three casts the counter reads 1, 2 and 3 |
| JavaDispatch.Select | j2cl/transpiler/javatests/com/google/j2cl/integration/java/allsimplebridges/Tester473.java:41-42 | the chosen signature is visible and applicable, `get(String)` is preferred whenever applicable, and none is chosen exactly when nothing applies |
| JavaDispatch.OwnDeclarationWins | j2cl/transpiler/javatests/com/google/j2cl/integration/java/allsimplebridges/Tester135.java:37-45 | a type's own declaration is what its method table holds for that signature |
| JavaDispatch.SuperclassWinsOverInterfaces | j2cl/transpiler/javatests/com/google/j2cl/integration/java/allsimplebridges/Tester135.java:34 | without an own declaration, a declaration in the superclass chain is inherited as the superclass's entry, over any interface's |
| JavaDispatch.MostSpecificDefaultWins | j2cl/transpiler/javatests/com/google/j2cl/integration/java/allsimplebridges/Tester673.java:24-36 | without a class declaration, an interface default that overrides every other interface declaring the signature is the entry, whatever order the interfaces are listed in |
| JavaDispatch.TableKeys | j2cl/transpiler/javatests/com/google/j2cl/integration/java/allsimplebridges/Tester673.java:24-36 | a type's table holds a signature exactly when the type or one of its super-types declares it |
| JavaDispatch.InheritedSignatures | j2cl/transpiler/javatests/com/google/j2cl/integration/java/allsimplebridges/Tester473.java:31-37 | every signature of a super-type is in a subtype's table |
| JavaDispatch.TableEntryDeclared | j2cl/transpiler/javatests/com/google/j2cl/integration/java/allsimplebridges/Tester473.java:31-42 | every signature in a table was declared for exactly that erased signature by the type or a super-type, and an entry that runs is that declaration (no accidental override) |
| JavaDispatch.InvokeReachesSelectedSignature | j2cl/transpiler/javatests/com/google/j2cl/integration/java/allsimplebridges/Tester135.java:49-55 | a call through any super-type reaches the implementation the receiver has for the signature chosen by the static type |
| Tester135.C2Table | j2cl/transpiler/javatests/com/google/j2cl/integration/java/allsimplebridges/Tester135.java:22-46 | `C2` holds its own `get(Object)` and `get(String)` |
| Tester135.I1Table | j2cl/transpiler/javatests/com/google/j2cl/integration/java/allsimplebridges/Tester135.java:23-26 | `I1` holds only its abstract `get(String)` |
| Tester135.C1Table | j2cl/transpiler/javatests/com/google/j2cl/integration/java/allsimplebridges/Tester135.java:28-31 | raw `C1` holds only its abstract, erased `get(Object)` |
| Tester135.GetObjectThroughC2 | j2cl/transpiler/javatests/com/google/j2cl/integration/java/allsimplebridges/Tester135.java:51 | `s.get(new Object())` returns "C2.get" |
| Tester135.GetStringThroughC2 | j2cl/transpiler/javatests/com/google/j2cl/integration/java/allsimplebridges/Tester135.java:52 | `s.get("")` selects `get(String)` and returns "C2.get" |
| Tester135.GetStringThroughRawC1 | j2cl/transpiler/javatests/com/google/j2cl/integration/java/allsimplebridges/Tester135.java:53 | through raw `C1` the erased `get(Object)` is selected and `C2` overrides it |
| Tester135.GetStringThroughI1 | j2cl/transpiler/javatests/com/google/j2cl/integration/java/allsimplebridges/Tester135.java:54 | through `I1` the call reaches `C2.get(String)` |
| Tester473.C2Table | j2cl/transpiler/javatests/com/google/j2cl/integration/java/allsimplebridges/Tester473.java:31-37 | `C2` inherits `C1.get(Object)` unchanged next to its own `get(String)` |
| Tester473.C1Table | j2cl/transpiler/javatests/com/google/j2cl/integration/java/allsimplebridges/Tester473.java:23-29 | `C1` holds only its own `get(Object)` |
| Tester473.GetStringThroughC2 | j2cl/transpiler/javatests/com/google/j2cl/integration/java/allsimplebridges/Tester473.java:41 | through `C2` the call returns "C2.get" |
| Tester473.GetStringThroughC1 | j2cl/transpiler/javatests/com/google/j2cl/integration/java/allsimplebridges/Tester473.java:42 | through `C1` the call selects `get(Object)` and returns "C1.get" |
| Tester673.C1Table | j2cl/transpiler/javatests/com/google/j2cl/integration/java/allsimplebridges/Tester673.java:24-36 | `C1`'s `get(Object)` stands beside the default `get(String)`, overriding nothing |
| Tester673.I1Table | j2cl/transpiler/javatests/com/google/j2cl/integration/java/allsimplebridges/Tester673.java:24-28 | `I1` holds only its default `get(String)` |
| Tester673.GetObjectThroughC1 | j2cl/transpiler/javatests/com/google/j2cl/integration/java/allsimplebridges/Tester673.java:40 | through `C1` with an `Object` argument the call returns "C1.get" |
| Tester673.GetStringThroughI1 | j2cl/transpiler/javatests/com/google/j2cl/integration/java/allsimplebridges/Tester673.java:41 | through `I1` the call reaches the default method |
| Base64StreamDecoder.Decoder.constructor | closure-library/closure/goog/net/streams/base64streamdecoder.js:36-56 | a new decoder is valid, at position 0, with nothing buffered |
| Base64StreamDecoder.Decoder.IsInputValid | closure-library/closure/goog/net/streams/base64streamdecoder.js:67-70 | reports the validity flag |
| Base64StreamDecoder.Decoder.Error | closure-library/closure/goog/net/streams/base64streamdecoder.js:79-85 | the stream becomes invalid and the error carries the current position, the message and the input; position and buffer are kept |
| Base64StreamDecoder.Decoder.Decode | closure-library/closure/goog/net/streams/base64streamdecoder.js:96-122 | each call performs exactly one `Step` of the decoder state and returns its outcome |
| Base64StreamDecoder.StepKeepsReachable | closure-library/closure/goog/net/streams/base64streamdecoder.js:106-120 | the position stays a multiple of 4 and, while valid, fewer than 4 characters stay buffered |
| Base64StreamDecoder.BrokenStaysBroken | closure-library/closure/goog/net/streams/base64streamdecoder.js:100-102 | a broken decoder rejects every input with "stream already broken" and changes nothing |
| Base64StreamDecoder.ShortInputIsBuffered | closure-library/closure/goog/net/streams/base64streamdecoder.js:104-109 | fewer than 4 buffered characters: no bytes, and the input is only appended |
| Base64StreamDecoder.WholeGroupsAreDecoded | closure-library/closure/goog/net/streams/base64streamdecoder.js:106-120 | exactly the first `groups*4` characters reach the group decoder; on success the position advances by that much and `len mod 4` characters stay; on failure the decoder breaks at the old position |
| Base64StreamDecoder.BrokenRunStaysBroken | closure-library/closure/goog/net/streams/base64streamdecoder.js:79-102 | once broken, every later call throws at the same position and the state never changes |
| Base64StreamDecoder.RunAccountsForStream | closure-library/closure/goog/net/streams/base64streamdecoder.js:104-120 | while valid, the buffer is exactly the stream after the position reached: nothing lost or decoded twice |
| Base64StreamDecoder.RunKeepsReachable | closure-library/closure/goog/net/streams/base64streamdecoder.js:96-122 | every sequence of calls keeps the state invariant |
| Base64StreamDecoder.RunFromStart | closure-library/closure/goog/net/streams/base64streamdecoder.js:42-120 | from a new decoder, while valid, the position is the largest multiple of 4 within the received characters and the rest is buffered |
| JavaObjects.Wrap | mapper-yaml/tests/src/test/java/org/kie/j2cl/tools/yaml/tests/annotations/subtype/PetShopArray.java:54-57 | Java's `int` result: congruent to the exact value modulo 2^32 and within 32 bits |
| JavaObjects.Step31Wraps | mapper-yaml/tests/src/test/java/org/kie/j2cl/tools/yaml/tests/annotations/subtype/PetShopArray.java:56 | wrapping after `31 * h` and after the addition gives the same `int` as wrapping the exact result once |
| JavaObjects.HashCodeOfWraps | mapper-yaml/tests/src/test/java/org/kie/j2cl/tools/yaml/tests/annotations/subtype/PetShopArray.java:55-56 | the per-step 32-bit hash fold equals the exact polynomial hash wrapped once |
| JavaObjects.ObjectsEquals | mapper-yaml/tests/src/test/java/org/kie/j2cl/tools/yaml/tests/annotations/subtype/PetShopArray.java:50 | `Objects.equals`: identical references are equal, null equals only null, otherwise `Animal.equals` decides |
| JavaObjects.ObjectsEqualsHash | mapper-yaml/tests/src/test/java/org/kie/j2cl/tools/yaml/tests/annotations/subtype/PetShopArray.java:50-56 | `Objects.equals` elements have equal hashes when `Animal` honours its contract |
| JavaObjects.PairwiseEqualsHash | mapper-yaml/tests/src/test/java/org/kie/j2cl/tools/yaml/tests/annotations/subtype/PetShop.java:40-45 | pairwise equal sequences have equal fold hashes |
| JavaObjects.ArraysEqualsHash | mapper-yaml/tests/src/test/java/org/kie/j2cl/tools/yaml/tests/annotations/subtype/PetShopArray.java:50-56 | `Arrays.equals` arrays have equal `Arrays.hashCode`s |
| JavaObjects.ListObjectsEqualsHash | mapper-yaml/tests/src/test/java/org/kie/j2cl/tools/yaml/tests/annotations/subtype/PetShop.java:40-45 | `Objects.equals` lists have equal hash codes |
| PetShops.PetShopArray.constructor | mapper-yaml/tests/src/test/java/org/kie/j2cl/tools/yaml/tests/annotations/subtype/PetShopArray.java:23-27 | both fields start out null |
| PetShops.PetShopArray.SetAnimals | mapper-yaml/tests/src/test/java/org/kie/j2cl/tools/yaml/tests/annotations/subtype/PetShopArray.java:29-35 | `getAnimals` then returns the stored array reference; `animal` is unchanged |
| PetShops.PetShopArray.SetAnimal | mapper-yaml/tests/src/test/java/org/kie/j2cl/tools/yaml/tests/annotations/subtype/PetShopArray.java:37-43 | `getAnimal` then returns the stored animal; `animals` is unchanged |
| PetShops.PetShopArray.Equals | mapper-yaml/tests/src/test/java/org/kie/j2cl/tools/yaml/tests/annotations/subtype/PetShopArray.java:46-51 | reflexive; false against null and any other class |
| PetShops.PetShopArrayHashCodeClosedForm | mapper-yaml/tests/src/test/java/org/kie/j2cl/tools/yaml/tests/annotations/subtype/PetShopArray.java:54-57 | `hashCode` is `31 * Objects.hash(animal) + Arrays.hashCode(animals)` computed exactly and wrapped to 32 bits |
| PetShops.PetShopArrayEqualsHashCode | mapper-yaml/tests/src/test/java/org/kie/j2cl/tools/yaml/tests/annotations/subtype/PetShopArray.java:46-58 | equal objects have equal hash codes |
| PetShops.PetShop.constructor | mapper-yaml/tests/src/test/java/org/kie/j2cl/tools/yaml/tests/annotations/subtype/PetShop.java:23-25 | the list starts out null |
| PetShops.PetShop.SetAnimalList | mapper-yaml/tests/src/test/java/org/kie/j2cl/tools/yaml/tests/annotations/subtype/PetShop.java:27-33 | `getAnimalList` then returns the stored list |
| PetShops.PetShop.Equals | mapper-yaml/tests/src/test/java/org/kie/j2cl/tools/yaml/tests/annotations/subtype/PetShop.java:36-41 | reflexive; false against null and any other class |
| PetShops.PetShopHashCodeClosedForm | mapper-yaml/tests/src/test/java/org/kie/j2cl/tools/yaml/tests/annotations/subtype/PetShop.java:44-46 | `hashCode` is `31 + animalList.hashCode()` (0 for null) wrapped to 32 bits |
| PetShops.PetShopEqualsHashCode | mapper-yaml/tests/src/test/java/org/kie/j2cl/tools/yaml/tests/annotations/subtype/PetShop.java:36-46 | equal objects have equal hash codes |
| YamlNodes.GetNode | mapper-yaml/tests/src/test/java/org/kie/j2cl/tools/yaml/tests/swf/definition/custom/yaml/ValueHolderYamlTypeSerializer.java:36 | null exactly when no entry has the key; otherwise the node of the first entry with that key |
| YamlNodes.GetNodeAppended | mapper-yaml/tests/src/test/java/org/kie/j2cl/tools/yaml/tests/swf/definition/custom/yaml/ValueHolderYamlTypeSerializer.java:36-40 | a key written into a mapping that lacked it is found again with the node written |
| YamlNodes.YamlSequence.AddScalarNode | mapper-yaml/common/src/main/java/org/kie/j2cl/tools/yaml/mapper/api/internal/ser/array/PrimitiveLongArrayYAMLSerializer.java:60 | appends one scalar node |
| YamlNodes.YamlSequence.AddNode | mapper-yaml/tests/src/test/java/org/kie/j2cl/tools/yaml/tests/swf/definition/custom/yaml/ValueHolderYamlTypeSerializer.java:62 | appends the node |
| YamlNodes.YamlMapping.AddScalarNode | mapper-yaml/common/src/main/java/org/kie/j2cl/tools/yaml/mapper/api/internal/ser/array/PrimitiveLongArrayYAMLSerializer.java:50 | appends one scalar entry under the key |
| YamlNodes.YamlMapping.AddNode | mapper-yaml/tests/src/test/java/org/kie/j2cl/tools/yaml/tests/swf/definition/custom/yaml/ValueHolderYamlTypeSerializer.java:57 | appends the node under the key |
| YamlNodes.YamlMapping.AddSequenceNode | mapper-yaml/common/src/main/java/org/kie/j2cl/tools/yaml/mapper/api/internal/ser/array/PrimitiveLongArrayYAMLSerializer.java:54 | appends a new, empty sequence writer under the key and hands it back |
| PrimitiveLongArrayYamlSerializer.IsEmpty | mapper-yaml/common/src/main/java/org/kie/j2cl/tools/yaml/mapper/api/internal/ser/array/PrimitiveLongArrayYAMLSerializer.java:40-42 | true exactly when the array is null or has no element |
| PrimitiveLongArrayYamlSerializer.LongScalarsInOrder | mapper-yaml/common/src/main/java/org/kie/j2cl/tools/yaml/mapper/api/internal/ser/array/PrimitiveLongArrayYAMLSerializer.java:58-62 | one scalar per element, in array order, so as many items as elements |
| PrimitiveLongArrayYamlSerializer.SerializeIntoSequence | mapper-yaml/common/src/main/java/org/kie/j2cl/tools/yaml/mapper/api/internal/ser/array/PrimitiveLongArrayYAMLSerializer.java:58-62 | appends the scalars of all elements in order; a null array throws and writes nothing |
| PrimitiveLongArrayYamlSerializer.SerializeIntoMapping | mapper-yaml/common/src/main/java/org/kie/j2cl/tools/yaml/mapper/api/internal/ser/array/PrimitiveLongArrayYAMLSerializer.java:46-56 | an empty array writes one empty placeholder scalar when empty arrays are to be written and nothing otherwise; a non-empty one adds exactly one new sequence under the property holding every element in order |
| ValueHolderYamlSerializer.DeserializeNode | mapper-yaml/tests/src/test/java/org/kie/j2cl/tools/yaml/tests/swf/definition/custom/yaml/ValueHolderYamlTypeSerializer.java:44-49 | a holder exactly for a non-empty mapping node, wrapping that very mapping; null for a null, non-mapping or empty node |
| ValueHolderYamlSerializer.DeserializeKey | mapper-yaml/tests/src/test/java/org/kie/j2cl/tools/yaml/tests/swf/definition/custom/yaml/ValueHolderYamlTypeSerializer.java:34-41 | a missing key gives null; a present key hands the node of its first entry to the node overload (`DeserializeNode`), so a holder results exactly when that node is a non-empty mapping |
| ValueHolderYamlSerializer.SerializeIntoMapping | mapper-yaml/tests/src/test/java/org/kie/j2cl/tools/yaml/tests/swf/definition/custom/yaml/ValueHolderYamlTypeSerializer.java:52-58 | null writes nothing; a holder is appended as its mapping under the property |
| ValueHolderYamlSerializer.SerializeIntoSequence | mapper-yaml/tests/src/test/java/org/kie/j2cl/tools/yaml/tests/swf/definition/custom/yaml/ValueHolderYamlTypeSerializer.java:61-63 | a holder is appended as its mapping; null throws and writes nothing |
| ValueHolderYamlSerializer.SerializeThenDeserialize | mapper-yaml/tests/src/test/java/org/kie/j2cl/tools/yaml/tests/swf/definition/custom/yaml/ValueHolderYamlTypeSerializer.java:34-58 | a holder written under a new key reads back as itself, or as null when its mapping is empty |
| PrimitiveCharacterArray2dYamlDeserializer.Deserialize | mapper-yaml/common/src/main/java/org/kie/j2cl/tools/yaml/mapper/api/internal/deser/array/dd/PrimitiveCharacterArray2dYAMLDeserializer.java:39-67 | an empty list gives 0x0 and an empty first list n x 0; otherwise the result is n x width of the first list, fails exactly when some inner list has a non-null entry past that width, and every cell holds the entry at that place or `'\0'` for null and missing entries |

## Left out

- The pass traversals are not modelled: `NormalizationPass` plumbing, the `ConversionContextVisitor` and the generated `Visitor_*` classes (`acceptInternal`). The rewrite rule and `applyTo(Type)` are applied directly.
- `getPolymorphicMethods` and `isMemberOf` are inputs: a sequence of method descriptors in stream order, and a predicate.
- `makeAbstractStub` and `MethodDescriptor.Builder` are modelled only through the descriptor attributes the pass relies on: the mangled name and parameter types are kept, the enclosing type is replaced and the method is made abstract. Other descriptor attributes are not represented.
- AddAbstractMethodStubs.Type.ApplyTo: `containsMethod(m.getDeclarationDescriptor().getMangledName())` is modelled as a check that some method member has `m`'s mangled name. The declaration descriptor of a specialized generic method is not distinguished from the method itself.
- `getDefaultValue`, `isNonNativeJsEnum` and `TypeDescriptors.get().javaLangObject` are parameters of the rewrite rule (`TypeModel`), as is what a default value looks like.
- `LabelReference.clone` and `AstUtils.clone` are not part of this model. They are taken to produce a new label reference to the same label, with null kept as null.
- The `BreakOrContinueStatement` and `ThisOrSuperReference` base classes matter here only through the fields shown.
- `StaticInitOrder`: the `@JsType` annotation and a JavaScript engine's class-initialization trigger are not modelled. The model runs the initializer once, before `test()`. A failing `assertTrue` is not modelled as an exception; every assertion is proved to hold instead.
- `arraycastsinglesideeffect.Main`: only the one static type (`Object`) and the values it can hold are modelled. Array elements are never read.
- Dispatch: only one-argument methods named `get`, taking an erased `Object` or `String`, are modelled. The model states the source-language results that the compiler's generated bridges must reproduce. The bridges themselves, the JavaScript output and `@JsType` naming are not modelled.
- Base64StreamDecoder.Decoder.Decode: `goog.crypt.base64.decodeStringToByteArray` is a parameter that returns bytes or an error message. The Error message string is represented by its parts: position, message and input. `goog.asserts.assertString` always holds for a `string` argument.
- Base64StreamDecoder.Step / Decoder.Decode: the input is a Dafny `string`, whose length counts Unicode scalar values, while JavaScript's `length` and `slice` count UTF-16 code units. Input with characters outside the Basic Multilingual Plane (never valid base64) is therefore grouped differently, and a `slice` that splits a surrogate pair cannot be represented.
- JavaObjects.ObjectsEquals: `Objects.equals(a, null)` is taken to be false for a non-null `a`; `Animal.equals(null)` is not consulted, as the `Object.equals` contract requires it to return false.
- JavaDispatch.Entry: method selection follows section 5.4.6 of the Java Virtual Machine Specification. When no class declares the signature and there is not exactly one non-abstract, maximally specific interface method, the entry is `Abstract`, and a call through it fails. Java also rejects a class that inherits conflicting defaults at compile time; the model does not check that.
- The YAML node API (`YamlMapping`, `YamlSequence`, `YamlNode`, `NodeType`) is not part of this model. `YamlNodes` models only the behaviour the serializers use; looking up a duplicated key finds the first entry.
- `deserializeIntoList`, `yaml.getSequenceNode` and `CharacterYAMLDeserializer` are not modelled: the `char[][]` deserializer receives the list of lists directly.
- PrimitiveCharacterArray2dYamlDeserializer.Deserialize: `char[][]` is modelled as a rectangular `array2<char>`, since every row the source allocates has the same length. A Dafny `char` is a Unicode scalar value, while a Java `char` is a UTF-16 code unit, so a lone surrogate cannot be represented. When an exception is thrown, the partly filled array is not returned, and the model does not describe it.
- The serialization context is reduced to the `isWriteEmptyYAMLArrays` flag. `BaseNumberYAMLSerializer.LongYAMLSerializer` is never called by the modelled code. Text rendering of scalars is not modelled.
- `ValueHolder` is modelled as the entries of its mapping, so the holder's identity as a `YamlMapping` object is not kept. A holder whose mapping is null is not modelled.
- `Animal`'s fields, `equals` and `hashCode` are not part of this model. `Animal.equals` and `Animal.hashCode` are parameters (`AnimalOps`), and equal hash codes are proved under the assumption that `Animal` keeps the equals/hashCode contract.
- PetShops.PetShop.Equals / PetShops.PetShopArray.Equals: `getClass() != o.getClass()` is modelled as an exact class test (`o is PetShop`, `o is PetShopArray`), since no subclass exists here. For PetShop.Equals, the `List` held by `PetShop` is modelled as a value under the `java.util.List` equality and hash contract. Changes made through another alias of the same list object are not modelled.
- No concurrency: every piece of the core is sequential.
- The callers, tests and other context files of the repository are not modelled: the Closure Compiler wrapper, xpc messaging, annotation processing, JSON/XML mappers, JRE case mapping and floating point, and the JUnit fixtures. They are the I/O, randomness, foreign calls or generated code that lie outside the core.
