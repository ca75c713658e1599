# RustDumpVisitor, modelled in Dafny

`RustDumpVisitor` is the pretty-printer of a Java-to-Rust converter. It walks a
parsed Java syntax tree and writes Rust-flavoured text into a `SourcePrinter`.
The printer is a text buffer with lazy indentation and a stack of marks, which
allow speculative rendering. This project models four parts of the visitor:

- **The emitter.** `EmitterSpec` describes the printer as a value
  (`EmitterState`: indentation unit, level, `indented` flag, buffer, marks).
  `Printer.SourcePrinter` is the mutable class, with the source's fields, and
  each of its methods is proved against the matching `EmitterSpec` function.
- **The leaf mappings.** `Names` covers `toSnakeIfNecessary` and its
  special-name table. `Literals` covers `removePlusAndSuffix` and the literal
  forms. `Tables` covers the primitive type names, the operator spellings and
  the modifier words. `Text` holds the character and string helpers these use.
- **The node rules.** `Syntax` is the syntax tree the visitor walks. `Render`
  is a pure reference renderer: one function per visitor, each stating that
  the level and the mark stack on exit are those on entry and that text is
  only appended. `Visitor.RustDumpVisitor` is the visitor class. It owns a
  `SourcePrinter`, and each visit method is proved to leave the printer in
  exactly the state `Render` computes, or to fail where `Render` fails.
  `Layout` proves what the output looks like for the rules that carry
  decisions: field access, method declarations, `if`, blocks, switch entries,
  try resources, enum tails and the separator lists.
- **Orphan comments.** `Orphans` models the two orphan-comment routines over a
  sibling list sorted by begin position. It proves which comments each one
  prints, and that the "Expected comment" exception cannot be raised.

Failures are values. `charAt(0)` on an empty string becomes
`Failure(StringIndexOutOfBounds)`. A node missing from its parent's children
becomes `Failure("My index not found!!! ")`. The `Wrappers` module holds the
`Option` and `Result` types and the visitor's `Outcome`.

Two literal rules keep text one might expect them to strip:

- The integer literal visitor passes no suffix list to `removePlusAndSuffix`,
  so only a leading `+` is removed and a trailing `L` stays
  (`RustDumpVisitor.java:812-815`, `Literals.IntegerLiteralKeepsSuffix`).
- A double literal with none of `.`, `e`, `E`, `x`, `X` gets `.0` appended
  before the suffix strip, so `5L` becomes `5L.0`
  (`RustDumpVisitor.java:804-810`, `Literals.LiteralExamples`).

The source prints the intersection and union separators after every element
except the first, so `int & long` renders as `i32i64 & `.
`Layout.TwoTypesLayout` states this as written.

## Model

| member | source | states |
|---|---|---|
| Printer.SourcePrinter.constructor | src/main/java/de/aschoerk/javaconv/RustDumpVisitor.java:61-75 | a new printer has the given indentation unit, level 0, no text, no marks and is not indented |
| Printer.SourcePrinter.Indent | src/main/java/de/aschoerk/javaconv/RustDumpVisitor.java:77-79 | the level goes up by one and nothing else changes |
| Printer.SourcePrinter.Unindent | src/main/java/de/aschoerk/javaconv/RustDumpVisitor.java:81-83 | the level goes down by one and nothing else changes |
| Printer.SourcePrinter.MakeIndent | src/main/java/de/aschoerk/javaconv/RustDumpVisitor.java:85-89 | the loop appends exactly `level` copies of the indentation unit (none for a negative level) |
| Printer.SourcePrinter.Print | src/main/java/de/aschoerk/javaconv/RustDumpVisitor.java:91-97 | the indentation is written only when the line is not yet indented, then the text; the line is indented afterwards |
| Printer.SourcePrinter.PrintLn | src/main/java/de/aschoerk/javaconv/RustDumpVisitor.java:99-102 | a print of the text followed by a line break |
| Printer.SourcePrinter.NewLine | src/main/java/de/aschoerk/javaconv/RustDumpVisitor.java:104-107 | appends the line separator and re-arms the indentation |
| Printer.SourcePrinter.GetSource | src/main/java/de/aschoerk/javaconv/RustDumpVisitor.java:109-111 | returns the buffer |
| Printer.SourcePrinter.Push | src/main/java/de/aschoerk/javaconv/RustDumpVisitor.java:113-116 | records the buffer length on the mark stack and returns the new stack size, a 1-based handle to that mark |
| Printer.SourcePrinter.GetMark | src/main/java/de/aschoerk/javaconv/RustDumpVisitor.java:118-120 | returns the text written since the mark and changes nothing: the buffer is its prefix up to the mark followed by that text |
| Printer.SourcePrinter.Pop | src/main/java/de/aschoerk/javaconv/RustDumpVisitor.java:122-125 | truncates the buffer to the top mark and removes that mark, lower marks untouched |
| Printer.SourcePrinter.Drop | src/main/java/de/aschoerk/javaconv/RustDumpVisitor.java:127-129 | removes the top mark and keeps the buffer |
| EmitterSpec.PrintIndentsOncePerLine | src/main/java/de/aschoerk/javaconv/RustDumpVisitor.java:85-107 | after a line break a print writes the separator, max(level, 0) copies of the unit, then its text; two prints on one line equal one print of both texts; printLn re-arms indentation |
| EmitterSpec.WriteThenPrint | src/main/java/de/aschoerk/javaconv/RustDumpVisitor.java:91-97 | a print of a non-empty text after a possibly empty one equals one print of both |
| EmitterSpec.IndentThenUnindent | src/main/java/de/aschoerk/javaconv/RustDumpVisitor.java:77-83 | indent then unindent, and unindent then indent, restore the state |
| EmitterSpec.OperationsKeepValid | src/main/java/de/aschoerk/javaconv/RustDumpVisitor.java:77-129 | every printer operation keeps the marks ordered and within the buffer |
| EmitterSpec.AppendKeepsValid | src/main/java/de/aschoerk/javaconv/RustDumpVisitor.java:91-107 | appending text with the same marks keeps them within the buffer |
| EmitterSpec.PushKeepsValid | src/main/java/de/aschoerk/javaconv/RustDumpVisitor.java:113-116 | a pushed mark is the largest and lies within the buffer |
| EmitterSpec.ShrinkKeepsValid | src/main/java/de/aschoerk/javaconv/RustDumpVisitor.java:122-129 | pop and drop keep the remaining marks ordered and within the buffer |
| EmitterSpec.Speculation | src/main/java/de/aschoerk/javaconv/RustDumpVisitor.java:113-129 | after push and appends: getMark of the pushed handle is exactly the appended text, pop restores the state before the push, drop keeps the text and restores the stack |
| EmitterSpec.ContinuesTransitive | src/main/java/de/aschoerk/javaconv/RustDumpVisitor.java:91-107 | appending, balanced operations compose |
| EmitterSpec.OpensOnward | src/main/java/de/aschoerk/javaconv/RustDumpVisitor.java:91-97 | output that starts with the line's indentation keeps doing so as text is appended |
| Text.ToLower | src/main/java/de/aschoerk/javaconv/RustDumpVisitor.java:168-170 | upper-case letters map to the lower-case letter that ToUpper maps back; other characters are unchanged |
| Text.ToUpper | src/main/java/de/aschoerk/javaconv/RustDumpVisitor.java:168-170 | lower-case letters become upper case; other characters are unchanged |
| Text.RepeatShape | src/main/java/de/aschoerk/javaconv/RustDumpVisitor.java:85-89 | the indentation is max(level, 0) copies of the unit, block by block |
| Text.LastIndexOfAny | src/main/java/de/aschoerk/javaconv/RustDumpVisitor.java:780 | the index found holds one of the characters and none follows it; -1 when none occurs |
| Text.ReplaceChar | src/main/java/de/aschoerk/javaconv/RustDumpVisitor.java:1466-1475 | same length, each occurrence of the character replaced and nothing else changed |
| Names.SnakeName | src/main/java/de/aschoerk/javaconv/RustDumpVisitor.java:162-179 | the loop over the characters fails on an empty name and otherwise returns ToSnakeIfNecessary of it |
| Names.ToSnakeIfNecessaryShape | src/main/java/de/aschoerk/javaconv/RustDumpVisitor.java:162-179 | table names map to their table entry; other names starting with a lower-case letter get `_` plus the lower-case letter for each upper-case letter, so the length grows by the number of upper-case letters, no upper-case letter remains and the conversion can be undone; all other names are unchanged |
| Names.ToSnakeLength | src/main/java/de/aschoerk/javaconv/RustDumpVisitor.java:166-174 | output length = input length + number of upper-case letters |
| Names.ToSnakeHasNoUpper | src/main/java/de/aschoerk/javaconv/RustDumpVisitor.java:166-174 | the converted name has no upper-case letter |
| Names.ToSnakeKeepsNamesWithoutUpper | src/main/java/de/aschoerk/javaconv/RustDumpVisitor.java:166-174 | a name without upper-case letters is unchanged |
| Names.SnakeRoundTrip | src/main/java/de/aschoerk/javaconv/RustDumpVisitor.java:166-174 | on names without `_`, FromSnake undoes the conversion |
| Names.ToSnakeAppend | src/main/java/de/aschoerk/javaconv/RustDumpVisitor.java:166-174 | the conversion works character by character: it distributes over concatenation |
| Names.TableResultsAreFinal | src/main/java/de/aschoerk/javaconv/RustDumpVisitor.java:146-159 | no table result is itself a table key, and each starts with an upper-case letter, so it is returned unchanged |
| Names.NoKeyStartsLower | src/main/java/de/aschoerk/javaconv/RustDumpVisitor.java:146-159 | no table key starts with a lower-case letter |
| Names.NotAKey | src/main/java/de/aschoerk/javaconv/RustDumpVisitor.java:146-159 | the table has exactly the five keys NaN, NEGATIVE_INFINITY, POSITIVE_INFINITY, MIN_VALUE and MAX_VALUE |
| Names.ToSnakeIfNecessaryIdempotent | src/main/java/de/aschoerk/javaconv/RustDumpVisitor.java:162-179 | converting twice equals converting once, and the result is never empty |
| Names.CamelExample | src/main/java/de/aschoerk/javaconv/RustDumpVisitor.java:162-179 | `fooBar` becomes `foo_bar` |
| Names.TableExample | src/main/java/de/aschoerk/javaconv/RustDumpVisitor.java:146-166 | `MAX_VALUE` becomes `MAX` |
| Names.CapitalizedExample | src/main/java/de/aschoerk/javaconv/RustDumpVisitor.java:167-178 | a name starting with an upper-case letter is unchanged |
| Literals.RemovePlusAndSuffixInfix | src/main/java/de/aschoerk/javaconv/RustDumpVisitor.java:181-189 | the result is the value with at most one leading `+` and at most one trailing suffix character removed; the suffix character goes exactly when the value without `+` ends with one |
| Literals.IntegerLiteralKeepsSuffix | src/main/java/de/aschoerk/javaconv/RustDumpVisitor.java:812-815 | an integer literal loses only a leading `+` |
| Literals.DoubleLiteralForms | src/main/java/de/aschoerk/javaconv/RustDumpVisitor.java:804-810 | without `.`, `e`, `E`, `x`, `X` a double becomes its `+`-stripped text followed by `.0`; otherwise it is treated like a long literal |
| Literals.DoubleLiteralLooksFloating | src/main/java/de/aschoerk/javaconv/RustDumpVisitor.java:804-810 | the appended `.0` survives the suffix strip, so the result always contains `.` |
| Literals.LiteralExamples | src/main/java/de/aschoerk/javaconv/RustDumpVisitor.java:804-820 | `+5L` as a long is `5`, `+5` as an integer is `5`, the doubles `5`, `5L` and `1.5` are `5.0`, `5L.0` and `1.5` |
| Tables.WordsFromEmpty | src/main/java/de/aschoerk/javaconv/RustDumpVisitor.java:192-226 | the words from a position on are empty exactly when no flag from there on is set |
| Tables.ModifiersTextEmpty | src/main/java/de/aschoerk/javaconv/RustDumpVisitor.java:192-226 | printModifiers writes nothing exactly when no modifier is set |
| Tables.UnsignedShiftIsLossy | src/main/java/de/aschoerk/javaconv/RustDumpVisitor.java:675-740 | `>>>` and `>>>=` are written as the signed shift followed by a comment naming the original |
| Tables.UnaryOperatorSide | src/main/java/de/aschoerk/javaconv/RustDumpVisitor.java:905-940 | each unary operator is written on exactly one side of its operand, after it exactly for the postfix increment and decrement |
| Tables.PrimitiveTypeNamesDistinct | src/main/java/de/aschoerk/javaconv/RustDumpVisitor.java:452-481 | no two primitive types share a Rust name |
| Render.PrintEachIfWrites | src/main/java/de/aschoerk/javaconv/RustDumpVisitor.java:192-226 | the guarded prints together write the words of the set flags, in table order, as one print |
| Render.PrintIf | src/main/java/de/aschoerk/javaconv/RustDumpVisitor.java:192-226 | one guarded print of printModifiers only appends and keeps level and marks |
| Render.PrintEachIf | src/main/java/de/aschoerk/javaconv/RustDumpVisitor.java:192-226 | the sequence of guarded prints only appends and keeps level and marks |
| Render.PrintIfAfterWrite | src/main/java/de/aschoerk/javaconv/RustDumpVisitor.java:192-226 | a guarded print of a non-empty word after a possibly empty text equals one print of the text and the word if its flag is set |
| Render.ModifiersWrittenAtOnce | src/main/java/de/aschoerk/javaconv/RustDumpVisitor.java:192-226 | printModifiers equals one print of the modifier words in the fixed order, or nothing |
| Render.ModifiersOpen | src/main/java/de/aschoerk/javaconv/RustDumpVisitor.java:192-226 | printModifiers either writes nothing or starts with the line's indentation |
| Render.PrintName | src/main/java/de/aschoerk/javaconv/RustDumpVisitor.java:162-179 | a converted name prints when the name is non-empty and fails exactly when it is empty |
| Render.RenderComment | src/main/java/de/aschoerk/javaconv/RustDumpVisitor.java:1466-1484 | comments only append and leave level and marks as they were |
| Render.RenderType | src/main/java/de/aschoerk/javaconv/RustDumpVisitor.java:421-533 | every type visitor only appends, keeps level and marks, and either prints nothing or starts with the line's indentation |
| Render.RenderTypeScope | src/main/java/de/aschoerk/javaconv/RustDumpVisitor.java:424-427 | the scope and `.` only append, keep level and marks, and either print nothing or start with the indentation |
| Render.RenderBound | src/main/java/de/aschoerk/javaconv/RustDumpVisitor.java:518-529 | a wildcard bound only appends and keeps level and marks |
| Render.RenderTypeArgs | src/main/java/de/aschoerk/javaconv/RustDumpVisitor.java:236-248 | printTypeArgs only appends, keeps level and marks, and either prints nothing or starts with the line's indentation |
| Render.RenderTypesJoined | src/main/java/de/aschoerk/javaconv/RustDumpVisitor.java:236-248 | the separator loop only appends and keeps level and marks |
| Render.RenderTypesSeparatedAfterFirst | src/main/java/de/aschoerk/javaconv/RustDumpVisitor.java:491-515 | the intersection and union loop only appends and keeps level and marks; from the first element it prints nothing or starts with the indentation |
| Render.RenderTypeParameter | src/main/java/de/aschoerk/javaconv/RustDumpVisitor.java:437-450 | a type parameter only appends and keeps level and marks |
| Render.RenderTypeParametersFrom | src/main/java/de/aschoerk/javaconv/RustDumpVisitor.java:250-262 | the type parameter loop only appends and keeps level and marks |
| Render.RenderTypeParameters | src/main/java/de/aschoerk/javaconv/RustDumpVisitor.java:250-262 | printTypeParameters only appends and keeps level and marks |
| Render.RenderExpr | src/main/java/de/aschoerk/javaconv/RustDumpVisitor.java:327-940 | every expression visitor that succeeds only appends, keeps level and marks, and starts with the line's indentation |
| Render.ExprKinds | src/main/java/de/aschoerk/javaconv/RustDumpVisitor.java:327-772 | names print converted, a class expression prints its type and `.class`, and the other kinds go to their rules |
| Render.LiteralExprKind | src/main/java/de/aschoerk/javaconv/RustDumpVisitor.java:797-847 | a literal prints its converted text |
| Render.OperatorExprKinds | src/main/java/de/aschoerk/javaconv/RustDumpVisitor.java:629-763 | assignments and binaries share the infix rule; casts, instanceof and conditionals share the operation rule |
| Render.AccessExprKinds | src/main/java/de/aschoerk/javaconv/RustDumpVisitor.java:774-903 | field access, method calls, object creation, array access and this/super go to their rules |
| Render.RenderMethodCall | src/main/java/de/aschoerk/javaconv/RustDumpVisitor.java:867-876 | a method call only appends, keeps level and marks, and starts with the line's indentation |
| Render.RenderObjectCreation | src/main/java/de/aschoerk/javaconv/RustDumpVisitor.java:878-903 | an object creation only appends, keeps level and marks, and starts with the indentation |
| Render.RenderInfix | src/main/java/de/aschoerk/javaconv/RustDumpVisitor.java:629-740 | an assignment or binary expression only appends, keeps level and marks, and starts with the indentation |
| Render.RenderOperation | src/main/java/de/aschoerk/javaconv/RustDumpVisitor.java:742-795 | a cast, instanceof or conditional only appends, keeps level and marks, and starts with the indentation |
| Render.RenderUnary | src/main/java/de/aschoerk/javaconv/RustDumpVisitor.java:905-940 | a unary expression only appends, keeps level and marks, and starts with the indentation |
| Render.RenderEnclosed | src/main/java/de/aschoerk/javaconv/RustDumpVisitor.java:765-772 | a parenthesised expression only appends, keeps level and marks, and starts with the indentation |
| Render.RenderArrayAccess | src/main/java/de/aschoerk/javaconv/RustDumpVisitor.java:595-601 | an array access only appends, keeps level and marks, and starts with the indentation |
| Render.RenderArrayInitializer | src/main/java/de/aschoerk/javaconv/RustDumpVisitor.java:573-588 | an array initializer only appends, keeps level and marks, and starts with the indentation |
| Render.RenderSelfReference | src/main/java/de/aschoerk/javaconv/RustDumpVisitor.java:849-865 | this and super only append, keep level and marks, and start with the indentation |
| Render.RenderFieldAccess | src/main/java/de/aschoerk/javaconv/RustDumpVisitor.java:774-788 | a field access that succeeds only appends, leaves the mark stack at its entry depth and starts with the indentation |
| Render.AccessField | src/main/java/de/aschoerk/javaconv/RustDumpVisitor.java:778-787 | after the scope: the read-back, drop and separator leave the marks as before the push |
| Render.RenderScope | src/main/java/de/aschoerk/javaconv/RustDumpVisitor.java:867-871 | an optional scope and `.` only append, keep level and marks, and either print nothing or start with the indentation |
| Render.RenderScopeless | src/main/java/de/aschoerk/javaconv/RustDumpVisitor.java:765-772 | an optional inner expression only appends and keeps level and marks |
| Render.RenderArguments | src/main/java/de/aschoerk/javaconv/RustDumpVisitor.java:264-276 | printArguments only appends and keeps level and marks |
| Render.RenderExprsJoined | src/main/java/de/aschoerk/javaconv/RustDumpVisitor.java:264-276 | the argument loop only appends and keeps level and marks |
| Render.RenderLocalDeclaration | src/main/java/de/aschoerk/javaconv/RustDumpVisitor.java:1101-1114 | a variable declaration only appends, keeps level and marks, and starts with the indentation |
| Render.RenderDeclarators | src/main/java/de/aschoerk/javaconv/RustDumpVisitor.java:1101-1114 | the declarator loop only appends and keeps level and marks |
| Render.RenderDeclarator | src/main/java/de/aschoerk/javaconv/RustDumpVisitor.java:555-566 | a declarator only appends and keeps level and marks |
| Render.RenderParameter | src/main/java/de/aschoerk/javaconv/RustDumpVisitor.java:1059-1070 | a parameter only appends and keeps level and marks |
| Render.RenderParameters | src/main/java/de/aschoerk/javaconv/RustDumpVisitor.java:1013-1021 | the parameter loop only appends and keeps level and marks |
| Render.RenderStmt | src/main/java/de/aschoerk/javaconv/RustDumpVisitor.java:1132-1457 | every statement visitor that succeeds only appends, leaves level and marks as on entry, and starts with the indentation |
| Render.StmtKinds | src/main/java/de/aschoerk/javaconv/RustDumpVisitor.java:1132-1448 | blocks, ifs, loops, switches and trys go to their rules |
| Render.RenderReturnValue | src/main/java/de/aschoerk/javaconv/RustDumpVisitor.java:1214-1222 | the optional return value only appends and keeps level and marks |
| Render.PrintLabel | src/main/java/de/aschoerk/javaconv/RustDumpVisitor.java:1204-1212 | the optional label only appends and keeps level and marks |
| Render.RenderBlock | src/main/java/de/aschoerk/javaconv/RustDumpVisitor.java:1132-1147 | a block that succeeds only appends, ends at its own level and starts with the indentation |
| Render.RenderStmtLines | src/main/java/de/aschoerk/javaconv/RustDumpVisitor.java:1138-1141 | the statement loop only appends and keeps level and marks |
| Render.RenderIf | src/main/java/de/aschoerk/javaconv/RustDumpVisitor.java:1300-1331 | an if that succeeds only appends, ends at its entry level and starts with the indentation |
| Render.RenderThenBranch | src/main/java/de/aschoerk/javaconv/RustDumpVisitor.java:1304-1313 | the then-branch's indent and unindent balance |
| Render.RenderElseBranch | src/main/java/de/aschoerk/javaconv/RustDumpVisitor.java:1314-1330 | the else-branch's indent and unindent balance |
| Render.RenderLoop | src/main/java/de/aschoerk/javaconv/RustDumpVisitor.java:1333-1358 | while and do only append, keep level and marks, and start with the indentation |
| Render.RenderSwitch | src/main/java/de/aschoerk/javaconv/RustDumpVisitor.java:1168-1182 | a switch only appends, ends at its entry level and starts with the indentation |
| Render.RenderSwitchEntries | src/main/java/de/aschoerk/javaconv/RustDumpVisitor.java:1175-1177 | the entry loop only appends and keeps level and marks |
| Render.RenderSwitchEntry | src/main/java/de/aschoerk/javaconv/RustDumpVisitor.java:1184-1202 | a switch entry's indent and unindent balance |
| Render.RenderCaseLabel | src/main/java/de/aschoerk/javaconv/RustDumpVisitor.java:1186-1192 | the label only appends and keeps level and marks |
| Render.RenderTry | src/main/java/de/aschoerk/javaconv/RustDumpVisitor.java:1415-1448 | a try only appends, ends at its entry level and starts with the indentation |
| Render.RenderResources | src/main/java/de/aschoerk/javaconv/RustDumpVisitor.java:1418-1437 | the resource list only appends and ends at its entry level |
| Render.TryResources | src/main/java/de/aschoerk/javaconv/RustDumpVisitor.java:1422-1432 | the resource loop only appends and keeps the unit and marks |
| Render.AfterResource | src/main/java/de/aschoerk/javaconv/RustDumpVisitor.java:1424-1430 | what follows a resource only appends and keeps the unit and marks |
| Render.RenderCatches | src/main/java/de/aschoerk/javaconv/RustDumpVisitor.java:1439-1443 | the catch loop only appends and keeps level and marks |
| Render.RenderCatch | src/main/java/de/aschoerk/javaconv/RustDumpVisitor.java:1450-1457 | a catch clause only appends and keeps level and marks |
| Render.RenderFinally | src/main/java/de/aschoerk/javaconv/RustDumpVisitor.java:1444-1447 | the optional finally only appends and keeps level and marks |
| Render.RenderMember | src/main/java/de/aschoerk/javaconv/RustDumpVisitor.java:535-553 | every member visitor only appends and keeps level and marks |
| Render.RenderMembers | src/main/java/de/aschoerk/javaconv/RustDumpVisitor.java:228-234 | printMembers only appends and keeps level and marks |
| Render.RenderTestAttributes | src/main/java/de/aschoerk/javaconv/RustDumpVisitor.java:985-989 | the test-attribute loop only appends and keeps level and marks |
| Render.MethodHead | src/main/java/de/aschoerk/javaconv/RustDumpVisitor.java:985-998 | the method head only appends and keeps level and marks |
| Render.MethodSignature | src/main/java/de/aschoerk/javaconv/RustDumpVisitor.java:1005-1031 | the signature only appends and keeps level and marks |
| Render.PrintReceiver | src/main/java/de/aschoerk/javaconv/RustDumpVisitor.java:1008-1012 | the receiver only appends and keeps level and marks |
| Render.ArrayComment | src/main/java/de/aschoerk/javaconv/RustDumpVisitor.java:1025-1031 | the array comment only appends and keeps level and marks |
| Render.ReturnSection | src/main/java/de/aschoerk/javaconv/RustDumpVisitor.java:1033-1049 | the return section only appends and keeps level and marks |
| Render.RenderMethod | src/main/java/de/aschoerk/javaconv/RustDumpVisitor.java:979-1057 | a method declaration only appends and keeps level and marks, the push of the return type balanced by its pop |
| Render.MethodTail | src/main/java/de/aschoerk/javaconv/RustDumpVisitor.java:1033-1056 | the return section and the body only append and keep level and marks |
| Render.RenderEnum | src/main/java/de/aschoerk/javaconv/RustDumpVisitor.java:1224-1265 | an enum declaration only appends and ends at its entry level |
| Render.EnumHead | src/main/java/de/aschoerk/javaconv/RustDumpVisitor.java:1227-1243 | the enum head only appends and keeps level and marks |
| Render.EnumTail | src/main/java/de/aschoerk/javaconv/RustDumpVisitor.java:1255-1262 | the enum tail only appends and keeps level and marks |
| Render.RenderEnumConstants | src/main/java/de/aschoerk/javaconv/RustDumpVisitor.java:1245-1254 | the constant loop only appends and keeps level and marks |
| Render.RenderEnumConstant | src/main/java/de/aschoerk/javaconv/RustDumpVisitor.java:1267-1283 | an enum constant only appends and keeps level and marks |
| Render.EnumConstantBody | src/main/java/de/aschoerk/javaconv/RustDumpVisitor.java:1275-1282 | a constant's class body only appends and ends at its entry level |
| Render.PrintTimes | src/main/java/de/aschoerk/javaconv/RustDumpVisitor.java:483-489 | the repeated print only appends and keeps level and marks |
| Layout.ExprsJoinedOfNames | src/main/java/de/aschoerk/javaconv/RustDumpVisitor.java:264-276 | for name arguments the loop prints the converted names with `, ` between neighbours and none after the last |
| Layout.ArgumentsOfNames | src/main/java/de/aschoerk/javaconv/RustDumpVisitor.java:264-276 | printArguments of names is `(`, the names joined by `, `, `)`, also `()` for none |
| Layout.ArrayInitializerOfNames | src/main/java/de/aschoerk/javaconv/RustDumpVisitor.java:573-588 | an array initializer of names is `{}` when empty, else `{ ` the names joined by `, ` ` }` |
| Layout.PrimitiveTypeText | src/main/java/de/aschoerk/javaconv/RustDumpVisitor.java:452-481 | a primitive type prints its Rust name |
| Layout.TypesJoinedOfPrimitives | src/main/java/de/aschoerk/javaconv/RustDumpVisitor.java:236-248 | the type loop prints the names with the separator between neighbours only |
| Layout.TypeArgsOfPrimitives | src/main/java/de/aschoerk/javaconv/RustDumpVisitor.java:236-248 | printTypeArgs prints nothing for none, else `<`, the names joined by `, `, `>` |
| Layout.SeparatedAfterFirstOfPrimitives | src/main/java/de/aschoerk/javaconv/RustDumpVisitor.java:491-515 | the intersection and union loop prints every name, each but the first followed by the separator |
| Layout.SeparatedAfterSecond | src/main/java/de/aschoerk/javaconv/RustDumpVisitor.java:494-500 | once past the first element, each name is followed by the separator |
| Layout.TwoTypesLayout | src/main/java/de/aschoerk/javaconv/RustDumpVisitor.java:491-515 | two types print as the first name, the second name, then the separator: nothing between them, one separator at the end |
| Layout.FieldAccessLayout | src/main/java/de/aschoerk/javaconv/RustDumpVisitor.java:774-788 | the scope's text stays once where it was written; the access fails exactly when the inspected segment is empty; otherwise the marks are back at entry depth and the output is the scope, `::` if the segment starts upper-case else `.`, and the unconverted field |
| Layout.AccessFieldLayout | src/main/java/de/aschoerk/javaconv/RustDumpVisitor.java:778-787 | the same after the scope is rendered: the read-back text alone decides the separator |
| Layout.ThenBranchLayout | src/main/java/de/aschoerk/javaconv/RustDumpVisitor.java:1304-1313 | a block then-branch follows `) ` on the condition's line; any other follows `)`, a line break and one more level of indentation; the level on exit is the entry level |
| Layout.ElseBranchLayout | src/main/java/de/aschoerk/javaconv/RustDumpVisitor.java:1314-1330 | after a space (block then-branch) or a line break (other then-branch), `else ` stays inline before an if or a block; any other else-branch goes after `else`, a line break and one more level; the level on exit is the entry level |
| Layout.StmtLinesEndLines | src/main/java/de/aschoerk/javaconv/RustDumpVisitor.java:1138-1141 | a statement list started at the start of a line ends at the start of a line |
| Layout.StmtLinesOpen | src/main/java/de/aschoerk/javaconv/RustDumpVisitor.java:1138-1141 | a non-empty statement list starts with the indentation of its level |
| Layout.CloseLine | src/main/java/de/aschoerk/javaconv/RustDumpVisitor.java:1145 | a print at the start of a line leaves a line holding only the indentation and the text |
| Layout.BlockLayout | src/main/java/de/aschoerk/javaconv/RustDumpVisitor.java:1132-1147 | `{` ends its line, the statements start one level deeper, `}` stands on its own line at the block's level, and the level on exit is the entry level |
| Layout.BlockClose | src/main/java/de/aschoerk/javaconv/RustDumpVisitor.java:1136-1145 | the statements and `}`: `}` on its own line one level out |
| Layout.SwitchEntryLayout | src/main/java/de/aschoerk/javaconv/RustDumpVisitor.java:1184-1202 | `case ` or `default:` opens the entry, a line break follows the label, the statements start one level deeper, the entry ends at the start of a line at its entry level |
| Layout.ResourcesLayout | src/main/java/de/aschoerk/javaconv/RustDumpVisitor.java:1418-1437 | one resource is followed by `) ` on its line; with more, the first is followed by `;`, a line break and one more level; the list ends with `) ` at the entry level |
| Layout.EnumTailLayout | src/main/java/de/aschoerk/javaconv/RustDumpVisitor.java:1255-1262 | with members, `;` ends the line before them; without, no `;`, and a line break only when there are constants |
| Layout.TestAttributesLines | src/main/java/de/aschoerk/javaconv/RustDumpVisitor.java:985-989 | one `#[test]` line per annotation named Test, whatever the others |
| Layout.PrintLinesText | src/main/java/de/aschoerk/javaconv/RustDumpVisitor.java:985-989 | each of those lines is the indentation, `#[test]` and the line separator |
| Layout.ReceiverLayout | src/main/java/de/aschoerk/javaconv/RustDumpVisitor.java:1007-1012 | `(` is followed by nothing for a static method, `&self` for an instance method without parameters and `&self, ` with parameters |
| Layout.SignatureEnd | src/main/java/de/aschoerk/javaconv/RustDumpVisitor.java:1022-1031 | the signature ends with `) -> ` and the array comment |
| Layout.ArrayCommentText | src/main/java/de/aschoerk/javaconv/RustDumpVisitor.java:1025-1031 | no comment for no array dimensions, else `/* `, one `[]` per dimension, ` */` |
| Layout.PrintTimesText | src/main/java/de/aschoerk/javaconv/RustDumpVisitor.java:1027-1029 | the loop appends one `[]` per dimension |
| Layout.MethodSignatureLayout | src/main/java/de/aschoerk/javaconv/RustDumpVisitor.java:1005-1031 | the converted name, `(` and the receiver come first; the signature ends with `) -> ` and the array comment |
| Layout.ReturnSectionLayout | src/main/java/de/aschoerk/javaconv/RustDumpVisitor.java:1033-1049 | without a throws list the return type alone; with one, `/* `, ` throws `, the exceptions, ` */`, `Result<`, the type and `> ` |
| Layout.MethodTailLayout | src/main/java/de/aschoerk/javaconv/RustDumpVisitor.java:1033-1050 | the return section, then a space, before the `;` or the body |
| Layout.MethodReturnLayout | src/main/java/de/aschoerk/javaconv/RustDumpVisitor.java:1000-1050 | the return type rendered between push and pop leaves no text and the marks as they were; its text appears once, after the signature's `) -> `, bare or wrapped in `Result<...>` after the throws comment |
| Orphans.Insert | src/main/java/de/aschoerk/javaconv/RustDumpVisitor.java:1562-1564 | inserting one node into the sorted list adds exactly one element |
| Orphans.SortByBegin | src/main/java/de/aschoerk/javaconv/RustDumpVisitor.java:1562-1564 | the sort keeps the number of nodes |
| Orphans.InsertSorted | src/main/java/de/aschoerk/javaconv/RustDumpVisitor.java:1562-1564 | insertion keeps the list ordered by begin position |
| Orphans.InsertPermutes | src/main/java/de/aschoerk/javaconv/RustDumpVisitor.java:1562-1564 | insertion adds exactly the node |
| Orphans.InsertAt | src/main/java/de/aschoerk/javaconv/RustDumpVisitor.java:1562-1564 | insertion puts the node before the nodes at the same position |
| Orphans.SortByBeginSorted | src/main/java/de/aschoerk/javaconv/RustDumpVisitor.java:1562-1564 | sortByBeginPosition orders the nodes by begin position |
| Orphans.SortByBeginPermutes | src/main/java/de/aschoerk/javaconv/RustDumpVisitor.java:1562-1564 | sortByBeginPosition keeps exactly the same nodes |
| Orphans.SortByBeginStable | src/main/java/de/aschoerk/javaconv/RustDumpVisitor.java:1562-1564 | nodes at the same position keep their order |
| Orphans.SortedSlice | src/main/java/de/aschoerk/javaconv/RustDumpVisitor.java:1573-1578 | any stretch of the sorted list is sorted |
| Orphans.LastIndexOf | src/main/java/de/aschoerk/javaconv/RustDumpVisitor.java:1565-1569 | the position scan returns -1 or an index of the list |
| Orphans.LastIndexOfFinds | src/main/java/de/aschoerk/javaconv/RustDumpVisitor.java:1565-1569 | the loop keeps the last index holding the node; no later index holds it |
| Orphans.PreviousNonComment | src/main/java/de/aschoerk/javaconv/RustDumpVisitor.java:1570-1573 | the backward scan returns -1 or an index before the node |
| Orphans.PreviousNonCommentFinds | src/main/java/de/aschoerk/javaconv/RustDumpVisitor.java:1570-1573 | the index found holds a non-comment and every node between it and the node is a comment |
| Orphans.TrailingComments | src/main/java/de/aschoerk/javaconv/RustDumpVisitor.java:1590-1598 | the count of trailing comments is at most the number of children |
| Orphans.TrailingCommentsStep | src/main/java/de/aschoerk/javaconv/RustDumpVisitor.java:1590-1598 | one step of the ending loop: the count grows by one on a comment and stops at a non-comment |
| Orphans.TrailingCommentsMaximal | src/main/java/de/aschoerk/javaconv/RustDumpVisitor.java:1590-1598 | the counted children are all comments and the child before them is not |
| Orphans.PrintComments | src/main/java/de/aschoerk/javaconv/RustDumpVisitor.java:1574-1578 | printing comment nodes keeps level and marks and only appends |
| Orphans.OrphansBeforeAreComments | src/main/java/de/aschoerk/javaconv/RustDumpVisitor.java:1574-1578 | only comment nodes are printed, so the "Expected comment" exception cannot be raised |
| Orphans.OrphansEndingAreComments | src/main/java/de/aschoerk/javaconv/RustDumpVisitor.java:1599-1601 | the ending rule prints only comment nodes |
| Orphans.OrphansBeforeFails | src/main/java/de/aschoerk/javaconv/RustDumpVisitor.java:1557-1569 | the before-rule fails exactly for a non-comment node with a parent whose children do not contain it, with the message "My index not found!!! " |
| Orphans.OrphansBeforeAreTheGap | src/main/java/de/aschoerk/javaconv/RustDumpVisitor.java:1557-1579 | the comments printed are exactly the siblings strictly between the nearest preceding non-comment sibling (or the start) and the node, in ascending position order |
| Orphans.OrphansEndingIsTrailingRun | src/main/java/de/aschoerk/javaconv/RustDumpVisitor.java:1582-1602 | the ending rule prints exactly the maximal trailing run of comment children, in position order |
| Orphans.OrphansNothingToPrint | src/main/java/de/aschoerk/javaconv/RustDumpVisitor.java:1557-1602 | comment nodes, parentless nodes and nodes without children print nothing |
| Orphans.PrintCommentsWithoutComments | src/main/java/de/aschoerk/javaconv/RustDumpVisitor.java:1466-1484 | with comment printing off, line and block comments print nothing |
| Visitor.RustDumpVisitor.constructor | src/main/java/de/aschoerk/javaconv/RustDumpVisitor.java:57-59 | a visitor keeps the comment flag and starts with an empty printer indented by four spaces |
| Visitor.RustDumpVisitor.Default | src/main/java/de/aschoerk/javaconv/RustDumpVisitor.java:53-55 | the default visitor prints comments |
| Visitor.RustDumpVisitor.GetSource | src/main/java/de/aschoerk/javaconv/RustDumpVisitor.java:142-144 | returns the printer's text |
| Visitor.RustDumpVisitor.PrintModifiers | src/main/java/de/aschoerk/javaconv/RustDumpVisitor.java:192-226 | the modifier loop leaves the printer as RenderModifiers |
| Visitor.RustDumpVisitor.PrintRepeated | src/main/java/de/aschoerk/javaconv/RustDumpVisitor.java:483-489 | the counted loop prints the text that many times |
| Visitor.RustDumpVisitor.PrintConverted | src/main/java/de/aschoerk/javaconv/RustDumpVisitor.java:162-179 | prints the converted name, failing on an empty one |
| Visitor.RustDumpVisitor.VisitType | src/main/java/de/aschoerk/javaconv/RustDumpVisitor.java:421-533 | each type visitor leaves the printer as RenderType |
| Visitor.RustDumpVisitor.VisitClassOrInterfaceType | src/main/java/de/aschoerk/javaconv/RustDumpVisitor.java:421-435 | leaves the printer as RenderType |
| Visitor.RustDumpVisitor.PrintTypeArgs | src/main/java/de/aschoerk/javaconv/RustDumpVisitor.java:236-248 | leaves the printer as RenderTypeArgs |
| Visitor.RustDumpVisitor.PrintTypesJoined | src/main/java/de/aschoerk/javaconv/RustDumpVisitor.java:239-245 | the iterator loop leaves the printer as RenderTypesJoined |
| Visitor.RustDumpVisitor.PrintTypesSeparatedAfterFirst | src/main/java/de/aschoerk/javaconv/RustDumpVisitor.java:491-515 | the isFirst loop leaves the printer as RenderTypesSeparatedAfterFirst |
| Visitor.RustDumpVisitor.VisitTypeParameter | src/main/java/de/aschoerk/javaconv/RustDumpVisitor.java:437-450 | leaves the printer as RenderTypeParameter |
| Visitor.RustDumpVisitor.PrintTypeParameters | src/main/java/de/aschoerk/javaconv/RustDumpVisitor.java:250-262 | leaves the printer as RenderTypeParameters |
| Visitor.RustDumpVisitor.VisitExpr | src/main/java/de/aschoerk/javaconv/RustDumpVisitor.java:327-940 | each expression visitor leaves the printer as RenderExpr and fails where it fails |
| Visitor.RustDumpVisitor.VisitAccessExpr | src/main/java/de/aschoerk/javaconv/RustDumpVisitor.java:774-903 | agrees with RenderExpr on field access, method calls and object creation |
| Visitor.RustDumpVisitor.VisitOperatorExpr | src/main/java/de/aschoerk/javaconv/RustDumpVisitor.java:629-795 | agrees with RenderExpr on the operator kinds |
| Visitor.RustDumpVisitor.VisitLiteral | src/main/java/de/aschoerk/javaconv/RustDumpVisitor.java:797-847 | the literal visitors print the literal's text |
| Visitor.RustDumpVisitor.PrintQuoted | src/main/java/de/aschoerk/javaconv/RustDumpVisitor.java:797-802 | the three prints of a quoted literal equal one print of quote, value, quote |
| Visitor.RustDumpVisitor.VisitClassExpr | src/main/java/de/aschoerk/javaconv/RustDumpVisitor.java:750-754 | the type followed by `.class` |
| Visitor.RustDumpVisitor.VisitMethodCall | src/main/java/de/aschoerk/javaconv/RustDumpVisitor.java:867-876 | agrees with RenderMethodCall |
| Visitor.RustDumpVisitor.VisitObjectCreation | src/main/java/de/aschoerk/javaconv/RustDumpVisitor.java:878-903 | agrees with RenderObjectCreation |
| Visitor.RustDumpVisitor.VisitAssign | src/main/java/de/aschoerk/javaconv/RustDumpVisitor.java:629-673 | agrees with RenderInfix |
| Visitor.RustDumpVisitor.VisitBinary | src/main/java/de/aschoerk/javaconv/RustDumpVisitor.java:675-740 | agrees with RenderInfix |
| Visitor.RustDumpVisitor.VisitCast | src/main/java/de/aschoerk/javaconv/RustDumpVisitor.java:742-748 | agrees with RenderOperation |
| Visitor.RustDumpVisitor.VisitInstanceOf | src/main/java/de/aschoerk/javaconv/RustDumpVisitor.java:790-795 | agrees with RenderOperation |
| Visitor.RustDumpVisitor.VisitConditional | src/main/java/de/aschoerk/javaconv/RustDumpVisitor.java:756-763 | agrees with RenderOperation |
| Visitor.RustDumpVisitor.VisitUnary | src/main/java/de/aschoerk/javaconv/RustDumpVisitor.java:905-940 | agrees with RenderUnary |
| Visitor.RustDumpVisitor.VisitEnclosed | src/main/java/de/aschoerk/javaconv/RustDumpVisitor.java:765-772 | agrees with RenderEnclosed |
| Visitor.RustDumpVisitor.VisitArrayAccess | src/main/java/de/aschoerk/javaconv/RustDumpVisitor.java:595-601 | agrees with RenderArrayAccess |
| Visitor.RustDumpVisitor.VisitArrayInitializer | src/main/java/de/aschoerk/javaconv/RustDumpVisitor.java:573-588 | the iterator loop agrees with RenderArrayInitializer |
| Visitor.RustDumpVisitor.VisitThis | src/main/java/de/aschoerk/javaconv/RustDumpVisitor.java:849-856 | agrees with RenderSelfReference |
| Visitor.RustDumpVisitor.VisitSuper | src/main/java/de/aschoerk/javaconv/RustDumpVisitor.java:858-865 | agrees with RenderSelfReference |
| Visitor.RustDumpVisitor.VisitFieldAccess | src/main/java/de/aschoerk/javaconv/RustDumpVisitor.java:774-788 | push, scope, getMark, drop and the separator agree with RenderFieldAccess, including the failure on an empty segment |
| Visitor.RustDumpVisitor.VisitScope | src/main/java/de/aschoerk/javaconv/RustDumpVisitor.java:867-871 | agrees with RenderScope |
| Visitor.RustDumpVisitor.VisitScopeless | src/main/java/de/aschoerk/javaconv/RustDumpVisitor.java:765-772 | agrees with RenderScopeless |
| Visitor.RustDumpVisitor.PrintArguments | src/main/java/de/aschoerk/javaconv/RustDumpVisitor.java:264-276 | the iterator loop agrees with RenderArguments |
| Visitor.RustDumpVisitor.VisitVariableDeclarationExpr | src/main/java/de/aschoerk/javaconv/RustDumpVisitor.java:1101-1114 | agrees with RenderLocalDeclaration |
| Visitor.RustDumpVisitor.PrintDeclarators | src/main/java/de/aschoerk/javaconv/RustDumpVisitor.java:1105-1113 | the declarator loop agrees with RenderDeclarators |
| Visitor.RustDumpVisitor.VisitVariableDeclarator | src/main/java/de/aschoerk/javaconv/RustDumpVisitor.java:555-566 | agrees with RenderDeclarator |
| Visitor.RustDumpVisitor.VisitParameter | src/main/java/de/aschoerk/javaconv/RustDumpVisitor.java:1059-1070 | agrees with RenderParameter |
| Visitor.RustDumpVisitor.VisitStmt | src/main/java/de/aschoerk/javaconv/RustDumpVisitor.java:1132-1457 | each statement visitor agrees with RenderStmt |
| Visitor.RustDumpVisitor.VisitSimpleStmt | src/main/java/de/aschoerk/javaconv/RustDumpVisitor.java:1156-1222 | empty, expression, break, continue, return and throw statements agree with RenderStmt |
| Visitor.RustDumpVisitor.VisitExpressionStmt | src/main/java/de/aschoerk/javaconv/RustDumpVisitor.java:1161-1166 | agrees with RenderStmt |
| Visitor.RustDumpVisitor.VisitThrow | src/main/java/de/aschoerk/javaconv/RustDumpVisitor.java:1400-1405 | agrees with RenderStmt |
| Visitor.RustDumpVisitor.VisitReturn | src/main/java/de/aschoerk/javaconv/RustDumpVisitor.java:1214-1222 | agrees with RenderStmt |
| Visitor.RustDumpVisitor.PrintLabelOf | src/main/java/de/aschoerk/javaconv/RustDumpVisitor.java:1204-1212 | leaves the printer as PrintLabel |
| Visitor.RustDumpVisitor.VisitBlock | src/main/java/de/aschoerk/javaconv/RustDumpVisitor.java:1132-1147 | agrees with RenderBlock |
| Visitor.RustDumpVisitor.PrintStmtLines | src/main/java/de/aschoerk/javaconv/RustDumpVisitor.java:1138-1141 | the statement loop agrees with RenderStmtLines |
| Visitor.RustDumpVisitor.VisitIf | src/main/java/de/aschoerk/javaconv/RustDumpVisitor.java:1300-1331 | agrees with RenderIf |
| Visitor.RustDumpVisitor.VisitThenBranch | src/main/java/de/aschoerk/javaconv/RustDumpVisitor.java:1304-1313 | agrees with RenderThenBranch |
| Visitor.RustDumpVisitor.VisitElseBranch | src/main/java/de/aschoerk/javaconv/RustDumpVisitor.java:1314-1330 | agrees with RenderElseBranch |
| Visitor.RustDumpVisitor.VisitWhile | src/main/java/de/aschoerk/javaconv/RustDumpVisitor.java:1333-1339 | agrees with RenderLoop |
| Visitor.RustDumpVisitor.VisitDo | src/main/java/de/aschoerk/javaconv/RustDumpVisitor.java:1351-1358 | agrees with RenderLoop |
| Visitor.RustDumpVisitor.VisitSwitch | src/main/java/de/aschoerk/javaconv/RustDumpVisitor.java:1168-1182 | agrees with RenderSwitch |
| Visitor.RustDumpVisitor.PrintSwitchEntries | src/main/java/de/aschoerk/javaconv/RustDumpVisitor.java:1175-1177 | the entry loop agrees with RenderSwitchEntries |
| Visitor.RustDumpVisitor.VisitSwitchEntry | src/main/java/de/aschoerk/javaconv/RustDumpVisitor.java:1184-1202 | agrees with RenderSwitchEntry |
| Visitor.RustDumpVisitor.VisitCaseLabel | src/main/java/de/aschoerk/javaconv/RustDumpVisitor.java:1186-1192 | agrees with RenderCaseLabel |
| Visitor.RustDumpVisitor.VisitTry | src/main/java/de/aschoerk/javaconv/RustDumpVisitor.java:1415-1448 | agrees with RenderTry |
| Visitor.RustDumpVisitor.VisitFinally | src/main/java/de/aschoerk/javaconv/RustDumpVisitor.java:1444-1447 | agrees with RenderFinally |
| Visitor.RustDumpVisitor.PrintResources | src/main/java/de/aschoerk/javaconv/RustDumpVisitor.java:1418-1437 | the resource loop with its `first` flag agrees with RenderResources |
| Visitor.RustDumpVisitor.PrintCatches | src/main/java/de/aschoerk/javaconv/RustDumpVisitor.java:1439-1443 | the catch loop agrees with RenderCatches |
| Visitor.RustDumpVisitor.VisitCatchClause | src/main/java/de/aschoerk/javaconv/RustDumpVisitor.java:1450-1457 | agrees with RenderCatch |
| Visitor.RustDumpVisitor.VisitMember | src/main/java/de/aschoerk/javaconv/RustDumpVisitor.java:535-553 | each member visitor agrees with RenderMember |
| Visitor.RustDumpVisitor.PrintMembers | src/main/java/de/aschoerk/javaconv/RustDumpVisitor.java:228-234 | the member loop agrees with RenderMembers |
| Visitor.RustDumpVisitor.VisitField | src/main/java/de/aschoerk/javaconv/RustDumpVisitor.java:535-553 | agrees with RenderMember |
| Visitor.RustDumpVisitor.VisitMethod | src/main/java/de/aschoerk/javaconv/RustDumpVisitor.java:979-1057 | push, return type, getMark and pop, then the signature and tail, agree with RenderMethod |
| Visitor.RustDumpVisitor.PrintMethodHead | src/main/java/de/aschoerk/javaconv/RustDumpVisitor.java:985-998 | leaves the printer as MethodHead |
| Visitor.RustDumpVisitor.PrintMethodSignature | src/main/java/de/aschoerk/javaconv/RustDumpVisitor.java:1005-1031 | agrees with MethodSignature |
| Visitor.RustDumpVisitor.PrintParameters | src/main/java/de/aschoerk/javaconv/RustDumpVisitor.java:1013-1021 | the parameter loop agrees with RenderParameters |
| Visitor.RustDumpVisitor.PrintMethodTail | src/main/java/de/aschoerk/javaconv/RustDumpVisitor.java:1033-1056 | agrees with MethodTail |
| Visitor.RustDumpVisitor.PrintReturnSection | src/main/java/de/aschoerk/javaconv/RustDumpVisitor.java:1033-1049 | leaves the printer as ReturnSection |
| Visitor.RustDumpVisitor.VisitEnum | src/main/java/de/aschoerk/javaconv/RustDumpVisitor.java:1224-1265 | agrees with RenderEnum |
| Visitor.RustDumpVisitor.PrintEnumHead | src/main/java/de/aschoerk/javaconv/RustDumpVisitor.java:1227-1243 | leaves the printer as EnumHead |
| Visitor.RustDumpVisitor.PrintEnumConstants | src/main/java/de/aschoerk/javaconv/RustDumpVisitor.java:1245-1254 | the constant loop agrees with RenderEnumConstants |
| Visitor.RustDumpVisitor.PrintEnumTail | src/main/java/de/aschoerk/javaconv/RustDumpVisitor.java:1255-1262 | agrees with EnumTail |
| Visitor.RustDumpVisitor.VisitEnumConstant | src/main/java/de/aschoerk/javaconv/RustDumpVisitor.java:1267-1283 | agrees with RenderEnumConstant |
| Visitor.RustDumpVisitor.PrintClassBody | src/main/java/de/aschoerk/javaconv/RustDumpVisitor.java:1275-1282 | agrees with EnumConstantBody |
| Visitor.RustDumpVisitor.VisitComment | src/main/java/de/aschoerk/javaconv/RustDumpVisitor.java:1466-1484 | leaves the printer as RenderComment |
| Visitor.RustDumpVisitor.PrintOrphanCommentsBefore | src/main/java/de/aschoerk/javaconv/RustDumpVisitor.java:1557-1579 | the index loops agree with RenderOrphansBefore, failing where it fails |
| Visitor.RustDumpVisitor.PrintOrphanCommentsEnding | src/main/java/de/aschoerk/javaconv/RustDumpVisitor.java:1582-1602 | the backward loop leaves the printer as RenderOrphansEnding |
| Visitor.RustDumpVisitor.PrintCommentNodes | src/main/java/de/aschoerk/javaconv/RustDumpVisitor.java:1574-1578 | printing a run of comment nodes leaves the printer as PrintComments |

## Left out

- Node comments and javadoc attached to nodes (`printJavaComment`, `printJavadoc`): the syntax tree carries no comments on its nodes. The comment visitors themselves are modelled.
- The calls to the orphan-comment routines from the visitors: `printOrphanCommentsBeforeThisChildNode` in the field-declaration visitor (line 536) and `printOrphanCommentsEnding` in the name-expression visitor (line 331) and in the block, expression-statement and method visitors. The syntax tree carries no positions and no orphan comments, so `Render.RenderMember`, `Render.PrintName` and the other rules print none. The routines themselves are modelled on an explicit sibling list.
- The node's `toString` in the "My index not found" message: the model keeps only the fixed part of the message.
- Begin positions are one integer each. JavaParser compares line, then column.
- `PositionUtils.sortByBeginPosition` is external. It is modelled as a stable insertion sort by begin position.
- `ArrayCreationExpr`, anonymous class bodies of object creation, `for` and foreach statements, lambdas, method references, type expressions, labeled, synchronized and assert statements, class and interface declarations, `EmptyTypeDeclaration`, constructors, initializers, `MultiTypeParameter`, explicit constructor calls, `MemberValuePair`, the compilation unit, package and import declarations, and qualified names: these visitors are not part of this model.
- A list that the parser leaves null and an empty list are the same in the model. The enum visitor's null test on its constants is read as always true, so the extra line break after ` {` is always printed; with null constants the source would instead throw at the later `isEmpty()` call.
- The visitor's `Object` argument is modelled only where the variable-declaration visitor sets it to the declared type (lines 1101-1114). Elsewhere it is taken to be the root call's null, so the field-declaration visitor's declarators (line 546) never print `: T`. In the source a `Type` argument reaches a field declaration only from inside a variable initializer, through an anonymous class body or a lambda body, and neither is part of this model.
- A `Parameter` always has a type in the model, so the source's null test on the type is not modelled. A missing inner expression of `EnclosedExpr` is modelled, as an optional inner part.
- The debug `System.out.println` in `toSnakeIfNecessary` is I/O.
- `Character.isUpperCase`, `isLowerCase` and `toLowerCase` are modelled for ASCII letters only.
- The line separator is fixed to `"\n"`; the source reads it from the system properties.
- `ModifierSet` bit tests are external: modifiers are a record of flags. `printModifiers` is modelled as a loop over a table of (flag, word) pairs in the source's order, with the same prints in the same order.
- Layout.ExprsJoinedOfNames: stated for lists of names only; for other arguments only the balance of level and marks is proved.
- Layout.TypesJoinedOfPrimitives: stated for lists of primitive types only.
- Layout.SeparatedAfterFirstOfPrimitives: stated for lists of primitive types only.
- Render functions: their own contracts state balance (level and marks on exit equal those on entry, text only appended); the text they produce is stated in `Layout` for the rules listed above.
