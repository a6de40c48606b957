# ts-factory reconciliation engine, in Dafny

This project models the generate→apply core of ts-factory. A user describes
the TypeScript they want as a plain-object **definition**. The engine compares
it with an existing syntax tree and **generates** an ordered list of
**instructions** (ADD, SET, INSERT, REPLACE, UNSET, REMOVE). Each instruction
names a path such as `statements[0].body` and a field. The engine then
**processes** the list in order. For each instruction it finds the parent node
by path, builds the carried definition into a node, and hands both to the
mutation table of the parent's kind.

Modules, leaves first:

- `Wrappers`: Option, Result (a value or a thrown error) and Outcome.
- `Syntax`: the tree. A `Node` has a kind, identifier text, and fields that
  are `Absent`, `One(node)` or `Many(nodes)`. A flag such as "exported",
  "async", "default", "declare" or "readonly" holds when the `modifiers` list
  has that keyword. "Optional" holds when `questionToken` is present.
- `Text`: the JavaScript string and number behaviour paths rely on. It covers
  `Number.isInteger(Number(s))`, `toString`, `replaceAll`, the dot-collapsing
  regex, `split` and `join`.
- `Definitions`: definition objects with ordered properties, the
  `__instructions` policy (an `id` query and rules), object-rest stripping,
  and the `Instruction` record.
- `Assert`: `utils/utils.assert.ts`. Each guard returns `Pass` or the
  `AssertionError` it throws.
- `StringUtils`: `StringUtils.upperFirst`.
- `FieldTables`: `processFieldDefinition`. It looks up `(field, instruction
  type)` in a kind's table, or fails with "<TYPE> Instruction not supported for
  Kind.field". It also holds the shape every per-kind accessor shares.
- `BlockUtils`, `CallExpressionUtils`, `ExpressionStatementUtils`,
  `SourceFileUtils`, `FunctionDeclarationUtils`, `InterfaceDeclarationUtils`
  and `PropertySignatureUtils`: the per-kind accessors and mutation tables.
- `InstructionsUtils`: `getNodeField`, `getNodeByPath`,
  `buildNodeFromDefinition` and `shouldBuildNodeFromDefinition`.
- `Instructions`: `createPath`, the compile functions, `shouldGetRuleIndex`,
  rule evaluation and `generateInstructions`. Each loop of the source is a
  method, proved equal to a recursive specification function.
- `Processing`: `processInstruction` and `processInstructions`. A class `Tree`
  holds the root, and its methods are proved against `Processed` and `RunAll`.
- `GenerationProperties`, `PathRoundTrip` and `Scenarios`: what generation
  promises, the path round trip, and end-to-end runs.

The JSONata evaluator is a parameter, `Query`. `condition(q, node)` returns a
`Truth`: `True`, `Truthy` or `Falsy`. `index(q, nodes)` returns a `Number`:
`Integer(n)` or `NonInteger`. Root rules fire only on `True`, because the
source tests `=== true`. List rules and `id` queries fire on anything truthy.

Where the code and its tests disagree, the model follows the code:

- The per-kind accessors call `assertNever(field, message)`, but
  `assertNever` takes one argument. So an unknown field throws
  `AssertionError` "Input <field> not supported", not the message the call
  site writes.
- A function declaration's `asteriskToken` has no table entry, so every
  instruction on it is "not supported".
- Guards throw `AssertionError`, never `TypeError`.

## Model

| member | source | states |
|---|---|---|
| `Syntax.SetModifier` | definitions/function-declaration/function-declaration.utils.ts:20-31 | setting a modifier flag to true adds the keyword only when it is missing; an existing keyword leaves the node unchanged; fields other than `modifiers` are kept |
| `Syntax.SetModifierKeepsOthers` | definitions/function-declaration/function-declaration.utils.ts:20-31 | after a flag is set, the node has exactly the modifiers it had plus that one |
| `Syntax.SetModifierOrdered` | definitions/interface-declaration/interface-declaration.utils.ts:67-74 | setting a flag keeps the modifier list in canonical keyword order |
| `Text.ParseInteger` | instructions/instructions.ts:150 | `Number(s)` is an integer for the empty string (0) and for digit strings (their value); it is not one for a name or a dotted piece |
| `Text.DigitsValueNatToString` | instructions/instructions.ts:226 | an index rendered with `toString()` reads back as the same number |
| `Text.ParseIntegerNatToString` | instructions/instructions.ts:150 | an index rendered by `createPath` is read back by `Number` as the same integer |
| `Text.StripLeadingDots` | instructions/instructions.ts:156 | `replace(/^\.+/, '')` removes exactly the leading run of dots |
| `Text.ReplaceBrackets` | instructions/instructions.utils.ts:55-56 | each bracket becomes a dot; every other character and the length are kept |
| `Text.JoinSplit` | instructions/instructions.utils.ts:58 | joining the pieces of `split('.')` gives back the string |
| `Text.SplitJoin` | instructions/instructions.utils.ts:73 | splitting a join of dot-free pieces gives back the pieces |
| `Text.TokensShrink` | instructions/instructions.utils.ts:72-85 | every sub-path the walk recurses on is shorter than the path it was given |
| `Definitions.Strip` | instructions/instructions.ts:49 | the object rest without `__instructions` has no policy and keeps its kind |
| `Definitions.IsDefinition` | instructions/instructions.ts:159-162 | a value is a definition exactly when it is an object with a syntax kind; strings and lists never are |
| `Definitions.StripValue` | instructions/instructions.ts:90 | the rest of a definition is `Strip`; the rest of a string has one property per character; the result never holds a policy |
| `Assert.AssertNever` | utils/utils.assert.ts:13-15 | always fails, with an AssertionError |
| `Assert.AssertDefinitionKind` | utils/utils.assert.ts:17-28 | passes exactly when the definition's kind is the expected kind; otherwise fails with an AssertionError |
| `Assert.AssertDefined` | utils/utils.assert.ts:30-34 | passes exactly when the input is defined; otherwise fails with "Input is not defined" |
| `Assert.AssertTSNodeType` | utils/utils.assert.ts:36-52 | passes exactly when the node is present and satisfies the predicate; names which check failed |
| `Assert.AssertTSMNodeKind` | utils/utils.assert.ts:54-64 | passes exactly when the node has the requested kind |
| `Assert.IsDefined` | utils/utils.assert.ts:66-78 | an absent field and an empty list are not defined; a single node and a non-empty list are |
| `Assert.AssertArray` | utils/utils.assert.ts:80-84 | passes exactly when the input is a list |
| `Assert.AssertNotArray` | utils/utils.assert.ts:86-90 | passes exactly when the input is not a list |
| `StringUtils.UpperFirst` | utils/utils.string.ts:6 | the length is kept, the first character is upper-cased, and the rest is unchanged |
| `StringUtils.UpperFirstIdempotent` | utils/utils.string.ts:6 | upper-casing the first character twice is the same as doing it once |
| `StringUtils.UpperFirstExamples` | utils/utils.string.ts:6 | `hello` becomes `Hello`, `h` becomes `H`, and the empty string stays empty |
| `FieldTables.ProcessFieldDefinition` | instructions/instructions.utils.ts:227-242 | succeeds exactly when the table has an entry for `(field, type)` and returns that entry; otherwise fails with the "not supported" TypeError |
| `FieldTables.ReadField` | definitions/interface-declaration/interface-declaration.utils.ts:14-47 | an accessor succeeds exactly for its kind and its known fields; list fields read as lists, the others as single nodes; an unknown field fails with `assertNever`'s error |
| `BlockUtils.GetBlockField` | definitions/block/block.utils.ts:8-25 | only `statements` is readable, as the statement list; `multiline` and every other field fail |
| `CallExpressionUtils.GetCallExpressionField` | definitions/call-expression/call-expression.utils.ts:8-27 | only `expression` is readable, as the callee node; `arguments` and `typeArguments` fail |
| `ExpressionStatementUtils.GetExpressionStatementField` | definitions/expression-statement/expression-statement.utils.ts:8-27 | only `expression` is readable, always as a single node |
| `SourceFileUtils.GetSourceFileField` | definitions/source-file/source-file.type.ts:4-6 | a source file exposes exactly `statements`, as a list |
| `SourceFileUtils.ProcessSourceFile` | definitions/source-file/source-file.utils.ts:8-23 | succeeds exactly for ADD on `statements` with a payload, which is appended as the last statement; a missing payload fails with an AssertionError; any other pair is "not supported"; a non-source-file parent fails with an AssertionError |
| `SourceFileUtils.AddStatementGrows` | definitions/source-file/source-file.utils.ts:17-19 | each ADD grows the statement list by one; two ADDs append two copies, so ADD is not idempotent |
| `FunctionDeclarationUtils.GetFunctionDeclarationField` | definitions/function-declaration/function-declaration.type.ts:21-31 | readable fields are `name`, `type`, `body` and `asteriskToken` as single nodes, and `parameters` and `modifiers` as lists |
| `FunctionDeclarationUtils.ProcessFunctionDeclaration` | definitions/function-declaration/function-declaration.utils.ts:8-53 | the parent must be a function declaration; pairs outside the table (`body`, `parameters`, `name`, `asteriskToken`, and any other type on `modifiers` or `type`) are "not supported"; a success keeps the kind |
| `FunctionDeclarationUtils.ProcessFunctionDeclarationIdempotent` | definitions/function-declaration/function-declaration.utils.ts:16-48 | flags are set to true, not toggled, and types are replaced, so applying a supported instruction twice is the same as applying it once |
| `FunctionDeclarationUtils.SetThenUnsetType` | definitions/function-declaration/function-declaration.utils.ts:41-49 | SET of `type` installs the payload as the return type; UNSET removes it; SET followed by UNSET equals UNSET alone |
| `FunctionDeclarationUtils.SetTypeRejects` | definitions/function-declaration/function-declaration.utils.ts:42-45 | SET on `type` fails with AssertionError "Node is not defined" for a missing payload and "Invalid Node of kind X" for one that is not a type node |
| `FunctionDeclarationUtils.AddModifierKeepsOthers` | definitions/function-declaration/function-declaration.utils.ts:15-37 | ADD of `export`, `async` or `default` sets that flag and nothing else: the result is the declaration with the keyword added, so name, type, body and parameters are kept, as is every other modifier |
| `FunctionDeclarationUtils.AddModifierRejects` | definitions/function-declaration/function-declaration.utils.ts:16-35 | a missing payload ("Node is not defined") and a payload that is not a modifier fail with an AssertionError; any other modifier fails with TypeError "Unsupported Modifier kind X" |
| `InterfaceDeclarationUtils.GetInterfaceDeclarationField` | definitions/interface-declaration/interface-declaration.utils.ts:14-47 | `name` reads as a single node, `members` and `modifiers` as lists; any other field fails with an AssertionError |
| `InterfaceDeclarationUtils.ProcessInterfaceDeclaration` | definitions/interface-declaration/interface-declaration.utils.ts:49-97 | the parent must be an interface declaration; pairs outside the table, including every instruction on `name`, are "not supported" |
| `InterfaceDeclarationUtils.AddMemberAppends` | definitions/interface-declaration/interface-declaration.utils.ts:56-61 | ADD of a type element appends it to `members` and leaves every other field as it was |
| `InterfaceDeclarationUtils.AddMemberRejectsOthers` | definitions/interface-declaration/interface-declaration.utils.ts:58 | a missing member fails with AssertionError "Node is not defined"; a member that is not a type element fails with AssertionError "Invalid Node of kind X" |
| `InterfaceDeclarationUtils.AddModifierKeepsOthers` | definitions/interface-declaration/interface-declaration.utils.ts:67-74 | ADD of `export` or `declare` sets that keyword, so the interface has it afterwards, and keeps every other modifier |
| `InterfaceDeclarationUtils.AddModifierRejects` | definitions/interface-declaration/interface-declaration.utils.ts:63-85 | a missing payload and a non-modifier fail with an AssertionError; any modifier other than `export` and `declare` fails with TypeError "Unsupported Modifier kind X for Interface Declaration" |
| `InterfaceDeclarationUtils.AddModifierIdempotent` | definitions/interface-declaration/interface-declaration.utils.ts:62-89 | exporting or declaring an interface twice is the same as doing it once |
| `PropertySignatureUtils.GetPropertySignatureField` | definitions/property-signature/property-signature.utils.ts:62-88 | exactly `name`, `type`, `questionToken` and `modifiers` are readable; anything else fails with an AssertionError |
| `PropertySignatureUtils.SetHasQuestionToken` | definitions/property-signature/property-signature.utils.ts:48-56 | the property has a question token exactly when the flag asks for one; other fields are kept |
| `PropertySignatureUtils.ProcessPropertySignature` | definitions/property-signature/property-signature.utils.ts:15-60 | the parent must be a property signature; pairs outside the table, including every instruction on `name`, are "not supported" |
| `PropertySignatureUtils.TypeSetAndUnset` | definitions/property-signature/property-signature.utils.ts:22-29 | SET on `type` installs a type node and keeps every other field; a missing payload or one that is not a type node fails with an AssertionError; UNSET leaves `type` absent and keeps the other fields |
| `PropertySignatureUtils.AddReadonlyKeepsOthers` | definitions/property-signature/property-signature.utils.ts:31-38 | ADD of `readonly` sets it and keeps every other modifier |
| `PropertySignatureUtils.AddModifierRejects` | definitions/property-signature/property-signature.utils.ts:32-44 | a missing payload and a non-modifier fail with an AssertionError; any modifier other than `readonly` fails with TypeError "Unsupported Modifier kind X for Property Signature" |
| `PropertySignatureUtils.QuestionTokenRejects` | definitions/property-signature/property-signature.utils.ts:48-52 | SET on `questionToken` fails with an AssertionError for a missing payload or one that is not a question token, and makes the property optional for a question token |
| `PropertySignatureUtils.ProcessPropertySignatureIdempotent` | definitions/property-signature/property-signature.utils.ts:21-59 | applying a supported instruction twice is the same as applying it once |
| `PropertySignatureUtils.QuestionTokenToggles` | definitions/property-signature/property-signature.utils.ts:48-56 | SET of `questionToken` makes the property optional; UNSET makes it required again |
| `InstructionsUtils.GetNodeField` | instructions/instructions.utils.ts:14-48 | succeeds exactly for the fields the node's kind exposes; exactly seven kinds have accessors; any other kind fails with "Unable to get field of name 'f' from node of kind 'K'" |
| `InstructionsUtils.NoNumericField` | instructions/instructions.utils.ts:59 | a piece that starts with a digit never names a field |
| `InstructionsUtils.GetNodeByPath` | instructions/instructions.utils.ts:50-87 | the empty path names the current node; an error reading the first field propagates; a missing single-node field fails naming the field and the path; a one-piece path to a single node returns that node |
| `InstructionsUtils.EmptyPathIsCurrent` | instructions/instructions.utils.ts:51-53 | the empty path names the starting node |
| `InstructionsUtils.ListStepErrors` | instructions/instructions.utils.ts:60-74 | after a list field, a missing or non-integer piece fails with "not an array index"; an index with no element fails with "Node not found at index"; otherwise the walk continues from that element on the rest of the path |
| `InstructionsUtils.MissingFieldNamesRemainingPath` | instructions/instructions.utils.ts:76-80 | a missing single-node field fails naming the field and the path this step received, which below the root is the remaining sub-path |
| `InstructionsUtils.ReplaceAtPath` | instructions/instructions.ts:441 | writing a changed node back at a path succeeds exactly when the path resolves, and keeps the root's kind |
| `InstructionsUtils.ReplaceKeepsRest` | instructions/instructions.ts:441-472 | writing back at a non-empty path changes only the field the path starts with: kind, text and every other field are kept, and a list field keeps its length and every element except the indexed one |
| `InstructionsUtils.ReplaceThenGet` | instructions/instructions.ts:441 | after a node is written back at a path, that path resolves to it |
| `InstructionsUtils.BuildNodeFromDefinition` | instructions/instructions.utils.ts:99-215 | a built node has the definition's kind, whether from a factory case or the token-range fallback; a kind with neither fails with "TS Node Kind not supported"; a token kind always builds the bare token; an identifier carries the definition's text; a built function declaration always has empty `parameters` |
| `InstructionsUtils.BuildItems` | instructions/instructions.utils.ts:135 | a list field builds one node per item, in order, each as its item builds alone |
| `InstructionsUtils.BuildName` | instructions/instructions.utils.ts:130-132 | a string name becomes an identifier with that text; a missing name fails with "Cannot read properties of undefined (reading 'kind')" where the factory needs one (interfaces, property signatures), and is no name otherwise |
| `InstructionsUtils.ShouldBuildNodeFromDefinition` | instructions/instructions.utils.ts:89-96 | an absent definition builds nothing; a present one builds exactly what `buildNodeFromDefinition` builds |
| `Instructions.CreateContext` | instructions/instructions.ts:282-287 | the path defaults to the root path `''`; the field is carried through |
| `Instructions.Appended` | instructions/instructions.ts:148-155 | the loop of `createPath` only extends the path it starts from |
| `Instructions.CreatePath` | instructions/instructions.ts:147-157 | the loop computes `PathOf`, and the result never starts with a dot |
| `Instructions.PathOf` | instructions/instructions.ts:147-157 | a path built from any start that does not begin with a dot never begins with one |
| `Instructions.CreatePathRoot` | instructions/instructions.ts:147-157 | `createPath()` is `''` |
| `Instructions.CreatePathIndex` | instructions/instructions.ts:147-157 | `createPath('', 'statements', '0')` is `statements[0]` |
| `Instructions.CreatePathProperty` | instructions/instructions.ts:147-157 | a non-integer id is appended as `.name` |
| `Instructions.PathOfExtends` | instructions/instructions.ts:147-157 | a path that does not start with a dot is a prefix of every path built from it |
| `Instructions.GetDefinitionEntries` | instructions/instructions.ts:31-36 | the entries are exactly the properties other than `kind` and `__instructions` |
| `Instructions.WithoutConcat` | instructions/instructions.ts:35 | the filter keeps the relative order of the entries |
| `Instructions.CompileDefaultNodeArrayInstructions` | instructions/instructions.ts:38-79 | one instruction per item, in order, of the given type (ADD by default), each carrying its item less `__instructions`; REMOVE carries no item; only INSERT, REPLACE and REMOVE carry the index |
| `Instructions.ArrayInstruction` | instructions/instructions.ts:45-76 | one list item compiles exactly when it is present or the type is REMOVE; an instruction that is not UNSET is well formed |
| `Instructions.CompileDefaultNodeInstructions` | instructions/instructions.ts:81-113 | SET (the default) gives one SET carrying the value less its policy; UNSET gives one UNSET; any other type fails in `assertNever` |
| `Instructions.CompileInstructions` | instructions/instructions.ts:115-140 | a list compiles item by item, anything else as one node; every instruction is at the given path |
| `Instructions.CompileSingleAdd` | instructions/instructions.ts:68-76 | a single item compiles to one ADD that carries it without its policy |
| `Instructions.FirstMatch` | instructions/instructions.ts:219-221 | `findIndex` returns the smallest index whose condition is truthy, or none when no node matches |
| `Instructions.ShouldGetRuleIndex` | instructions/instructions.ts:164-196 | a query index succeeds exactly when it is an integer no larger than the length, and strictly smaller for REPLACE and REMOVE; a negative integer passes; a literal index is returned unchecked; REMOVE without an index takes the matched node's index |
| `Instructions.RuleIndexAtLength` | instructions/instructions.ts:178-186 | an index equal to the length is accepted for INSERT and refused for REPLACE and REMOVE |
| `Instructions.RuleCompile` | instructions/instructions.ts:236-269 | a fired rule's instructions are well formed and stay under the current path |
| `Instructions.RuleOutcome` | instructions/instructions.ts:213-233 | one rule's instructions are well formed and lie under the current path |
| `Instructions.UnmatchedRuleIsSilent` | instructions/instructions.ts:217-227 | a list rule that no node satisfies contributes nothing, and its index is never evaluated |
| `Instructions.MatchedListRule` | instructions/instructions.ts:217-269 | a fired list rule yields exactly one instruction of its type; UNSET and REMOVE target `path.field[i]` with `rule.field`; the others target `path` with `rule.field \|\| field` and carry the definition less its policy |
| `Instructions.TruthyFiresOnlyOverLists` | instructions/instructions.ts:217-233 | a truthy condition that is not `true` fires a list rule but not a root rule |
| `Instructions.RootRuleFires` | instructions/instructions.ts:228-269 | a root rule whose condition is exactly `true` yields one instruction of its type at the current path with no index: UNSET and REMOVE name the rule's field and carry nothing; the others name `rule.field \|\| field` and carry the definition without its policy |
| `Instructions.RootRuleSilentUnlessTrue` | instructions/instructions.ts:228-236 | a root rule whose condition is falsy, or truthy but not `true`, yields nothing |
| `Instructions.Then` | instructions/instructions.ts:301-310 | running two steps in sequence: the first error wins, otherwise the instructions concatenate |
| `Instructions.RuleInstructions` | instructions/instructions.ts:198-208 | a definition without rules yields nothing; every instruction is well formed and under the current path |
| `Instructions.ShouldGenerateInstructionsFromRules` | instructions/instructions.ts:198-275 | the loop over rules computes `RuleInstructions`: each rule's instructions in rule order, stopping at the first error |
| `Instructions.Generated` | instructions/instructions.ts:289-435 | a kind mismatch fails with an AssertionError before any field is read; every generated instruction is well formed and lies under the starting path |
| `Instructions.FieldsFrom` | instructions/instructions.ts:304-433 | the entries' instructions, in entry order, are well formed and under the path |
| `Instructions.FieldInstructions` | instructions/instructions.ts:306-313 | one entry's instructions are well formed and under the path |
| `Instructions.ItemsFrom` | instructions/instructions.ts:320-405 | the list items' instructions, in item order, are well formed and under the path |
| `Instructions.ItemInstructions` | instructions/instructions.ts:322-359 | one list item's instructions are well formed and under the path |
| `Instructions.ItemById` | instructions/instructions.ts:328-350 | an item without an `id` contributes nothing through the id branch |
| `Instructions.ScalarInstructions` | instructions/instructions.ts:406-431 | a present single-node field's instructions are well formed and under the path |
| `Instructions.GenerateInstructions` | instructions/instructions.ts:289-435 | the imperative generation (root rules, then a loop over entries) computes `Generated` |
| `Instructions.GenerateFieldInstructions` | instructions/instructions.ts:304-433 | the body of the entry loop, with its inner loop over list items, computes `FieldInstructions` |
| `Instructions.GenerateItemInstructions` | instructions/instructions.ts:320-359 | the body of the item loop computes `ItemInstructions` |
| `Instructions.GenerateItemById` | instructions/instructions.ts:328-350 | the id branch computes `ItemById` |
| `Processing.Dispatch` | instructions/instructions.ts:453-472 | only source files, function declarations, interface declarations and property signatures are processed; any other parent fails with "unsupported parent node of kind K"; a success keeps the parent's kind |
| `Processing.Carried` | instructions/instructions.ts:442-450 | REMOVE and UNSET carry no definition to build; the others carry their own |
| `Processing.Processed` | instructions/instructions.ts:437-473 | an unresolvable path fails with the walk's error; a success resolved the path and keeps the root's kind |
| `Processing.ProcessedAtPath` | instructions/instructions.ts:441-472 | after an instruction, its path resolves to the parent as the mutation left it |
| `Processing.UnsupportedParentFails` | instructions/instructions.ts:466-471 | a resolved parent of an unsupported kind fails with that kind's name |
| `Processing.PositionalInstructionsNotApplied` | instructions/instructions.utils.ts:232-240 | INSERT, REPLACE and REMOVE can be generated but never applied; every kind refuses them as "not supported" |
| `Processing.RunAll` | instructions/instructions.ts:475-482 | no instructions leave the tree as it was |
| `Processing.RunAllConcat` | instructions/instructions.ts:479-481 | applying a list is applying its first part and then, if no error occurred, the rest |
| `Processing.RunAllStops` | instructions/instructions.ts:479-481 | a failing instruction stops the run; the tree keeps the effects of the instructions before it, with no rollback |
| `Processing.RunAllFailsFirst` | instructions/instructions.ts:479-481 | when the first instruction fails, the tree is untouched |
| `Processing.Tree.ProcessInstruction` | instructions/instructions.ts:437-473 | the root becomes `Processed(old root)` on success and is unchanged on failure |
| `Processing.Tree.ProcessInstructions` | instructions/instructions.ts:475-482 | the loop applies the instructions strictly in list order, leaving the root at `RunAll(old root)` and returning its error |
| `GenerationProperties.RootRulesOnlyAtRoot` | instructions/instructions.ts:299-302 | below the root, a definition's own rules are not evaluated against the node |
| `GenerationProperties.SingleEntryAtRoot` | instructions/instructions.ts:296-304 | with no rules and one entry, generation is that entry's instructions |
| `GenerationProperties.AbsentListFieldAddsEachItem` | instructions/instructions.ts:309-313 | a list field the node lacks, or has empty, yields exactly one ADD per item, in order, at the current path, without policies |
| `GenerationProperties.AbsentScalarFieldIsSet` | instructions/instructions.ts:309-313 | a single-node field the node lacks yields exactly one SET of the value |
| `GenerationProperties.PresentScalarField` | instructions/instructions.ts:406-409 | a present single-node field is compared as one node |
| `GenerationProperties.ScalarWithoutIdIsSilent` | instructions/instructions.ts:406-431 | a present field whose definition has no `id` yields nothing, whatever its value |
| `GenerationProperties.UnmatchedScalarIsSet` | instructions/instructions.ts:410-418 | an `id` that fails for the present node yields one SET |
| `GenerationProperties.MatchedScalarRecurses` | instructions/instructions.ts:419-430 | an `id` that holds recurses at `path.field` |
| `GenerationProperties.ItemWithoutDirectivesIsAdded` | instructions/instructions.ts:322-326 | a list item without `__instructions` always yields exactly one ADD |
| `GenerationProperties.UnmatchedItemIsAdded` | instructions/instructions.ts:329-337 | an item whose `id` matches no node yields one ADD |
| `GenerationProperties.MatchedItemRecurses` | instructions/instructions.ts:338-349 | an item whose `id` matches recurses on the first matching node at `path.field[i]` |
| `GenerationProperties.SettledIsSilent` | instructions/instructions.ts:289-435 | a definition the tree already satisfies generates no instructions |
| `PathRoundTrip.TokensOfRender` | instructions/instructions.utils.ts:54-58 | splitting a path built by `createPath` gives back its field names and indices |
| `PathRoundTrip.RenderThenWalk` | instructions/instructions.utils.ts:50-87 | the path `createPath` builds from field names and in-range indices resolves, through `getNodeByPath`, to the node those steps reach |
| `Scenarios.EmptyFileGeneratesAdds` | instructions/instructions.ts:304-313 | against a file without statements, a source-file definition yields one ADD per statement at path `''`, field `statements`, in order |
| `Scenarios.AddsAppend` | definitions/source-file/source-file.utils.ts:17-19 | N statement ADDs append the N built nodes in order |
| `Scenarios.FirstRunBuildsEveryStatement` | instructions/instructions.ts:475-482 | generating against an empty file and applying the result leaves exactly the built statements, in definition order |
| `Scenarios.UntypedFunctionGeneratesSet` | instructions/instructions.ts:309-313 | a return-type definition against an untyped function yields one SET of `type` at the root |
| `Scenarios.SetReturnTypeApplies` | definitions/function-declaration/function-declaration.utils.ts:42-45 | applying that SET gives the function the built type node |
| `Scenarios.ReturnTypeRoundTrip` | definitions/function-declaration/function-declaration.utils.ts:41-48 | generating and then applying gives the function the defined return type and keeps its other fields; generating again yields nothing |
| `Scenarios.TypedFunctionIsSilent` | instructions/instructions.ts:406-431 | once typed, the function yields nothing for a return-type definition without an `id` |

## Left out

- The JSONata evaluator is not modelled. It is the parameter `Query`, two uninterpreted functions supplied by the caller.
- Printing and re-parsing are left out: `printNode`, `shouldPrintNode` and ts-morph's text-based `addStatements`, `addMember`, `setReturnType` and `setType`. The built node is stored as it is. Formatting, `getFullText` and snapshot text are not modelled.
- Where ts-morph puts a modifier keyword is not modelled. The model inserts it in a fixed keyword order.
- `FunctionDeclarationUtils.AddModifierKeepsOthers`: ts-morph's `setIsExported` and `setIsDefaultExport` may add or remove the other one of `export` and `default`. That interplay is not modelled, so "keeps every other modifier" is the model's reading. The same holds for `InterfaceDeclarationUtils.AddModifierKeepsOthers`.
- Mutation is modelled on tree values, not shared objects. Each mutation rebuilds the parent and writes it back along its path (`ReplaceAtPath`). Aliasing between nodes is not captured.
- Only decimal forms of `Number(s)` are modelled: optional sign, digits, or the empty string. Exponents, hex, surrounding whitespace and `Infinity` count as non-integers. JavaScript's 53-bit integer limit is not modelled.
- `isTypeNode` and `isTypeElement` are narrowed to the kinds the model names: keyword types and property signatures.
- Leading-comment trivia is not modelled. Its attachment is commented out in `buildNodeFromDefinition`. A `leadingTrivia` key is still iterated as an ordinary field.
- `getSourceFileField` and `getFunctionDeclarationField` are not part of this model's source. They are stubbed from the definition types: `statements`, and `name`, `type`, `modifiers`, `body`, `parameters` and `asteriskToken`.
- `createOpaqueString` is the identity, so paths are plain strings.
- An identifier definition without `text` builds an identifier with empty text.
- Error objects are reduced to their class (AssertionError or TypeError) and message. `Unsupported Modifier` errors are TypeErrors.
- Messages built with `ts.SyntaxKind[kind]` ("Invalid Node of kind X", "Unsupported Modifier kind X", "Definition of kind ...") use the enum's reverse mapping, `Syntax.EnumName`. That mapping names `abstract` "FirstContextualKeyword", because TypeScript 4.7, bundled with ts-morph 15.1.0, declares that alias after `AbstractKeyword`. The enum itself is not part of this model. Messages built with `getKindName()` use `Syntax.KindName`.
- A definition's properties are a sequence, which could repeat a key, while a JavaScript object cannot. Such a sequence is outside what the source can receive. On one, lookups read the first occurrence, where a JavaScript literal would keep the last, and the entries include both.
- `StringUtils.UpperFirst`: only ASCII letters are upper-cased. JavaScript's `toUpperCase` also maps other letters (é to É), and can lengthen a string (ß to "SS"). Neither is modelled, so `|r| == |input|` holds for the model only.
- `InstructionsUtils.KindNotSupported`: the source prints the numeric `SyntaxKind` and then its name (`'987|undefined'`). The model prints the kind's name in both places. The numbering belongs to the TypeScript release ts-morph ships, which is not part of this model.
- `PropertySignatureUtils.ProcessPropertySignature`: SET on `questionToken` calls `assertTSNodeKind`, which `utils/utils.assert.ts` does not export. The model uses `assertTSNodeType` with a question-token check in its place, and so that function's error messages.
- `FunctionDeclarationUtils.ProcessFunctionDeclaration` and `SourceFileUtils.ProcessSourceFile`: their files import `processNodeFieldDefinition`, which `instructions/instructions.utils.ts` does not define. The model uses `processFieldDefinition` (`FieldTables.ProcessFieldDefinition`) in its place.
- `Instructions.Generated`: its contract states failure on kind mismatch and the shape and location of instructions, not their full content. The content is stated per branch by the `GenerationProperties` and `Scenarios` lemmas.
