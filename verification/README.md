# A model of the cpp2v printer and of the prelude it relies on

`cpp2v` walks Clang's syntax trees and writes Coq terms as text. What is proved about a C++ program
is proved about that text, so this project models the code that decides what the text is and what
ends up in a module, and proves what that code is relied on for.

- **Printing.** `Formatter`, `CoqPrinter`, `OpaqueNames` and the visitors for types, expressions,
  local declarations and statements are classes and methods that write step by step. Each is proved
  to write a document (`Docs`), a tree of constructors, lists and literals with the gaps that the
  visitors leave. A lexer, a parser and readers for Coq types, expressions, declarations and
  statements (`CoqTypeReading`, `CoqExprs`, `CoqReading`) are defined independently and know the
  constructors by their names in the Coq development. The text of every document is shown to read
  back exactly when no two words run together, as the Coq syntax for which the tree stands
  (`Translation`, `CoqStmts`).
- **Flattening.** `case` and `default` become elements of the surrounding list. Statement trees and
  flattened statements are given a meaning each, by running them with arbitrary expressions, and the
  runs agree; the reading of `switch` in the program logic is shown to be what those runs do.
- **Binders.** Opaque values are numbered while printing. The result is compared with a printer that
  knows every number and every loop level beforehand.
- **Modules.** The traversal of declarations is a depth-first walk over a finite graph that may be
  cyclic, with flags, a filter and five lists.
- **Names, strings, comments.** Mangled type names, the printer for byte strings and the comment
  scanner are proved against readers and against what C++ says.
- **Prelude.** Byte-string search and comparison, the search-tree check, sets as bit masks and list
  rotation, as far as the repository runs them.

## Conventions

The modules follow the source files. A method stands for each visitor or member function that
changes state; the function it is proved against describes the new state. `State`, `Env` and `Walk`
are snapshots of the formatter, of the binder environment and of a traversal. Names, type names and
cast kinds are carried as the text that Clang prints for them.

## What the code does that one might not expect

- The label of a `case` or `default` is printed as a list element. Where one statement is expected, as
  in `switch (x) case 1: f();`, the text is that of a list (`RoundTrips.CaseUnderSwitch`,
  `Typing.LoneCaseLost`) and reads as no statement, wherever in the tree that is (`StmtTerms.TextRead`).
  Every other well-typed statement reads back (`Typing.TypedRoundTrip`).
- Nothing is printed between the parts of a `switch`, nor between the source and the level of an array
  loop. On the layout alone two bare words could meet there (`Typing.FusedSwitch`, a `switch` over
  `nullptr`, which is not C++); the typing rules of C++ exclude it (`Typing.TypedSeparated`).
- A default argument is printed anew at every use with the numbers of the expression around it. If it
  has an omitted middle operand, its second use gets new numbers while its references keep the first
  (`Numbering.DefaultTwice`, `Numbering.SecondUse`; `g() + g()` in `Numbering.CallsTwice`).
- An index printed inside the parts of an `Eif2` carries the level of that `Eif2`, not that of its
  loop (`Numbering.IndexInEif2`; `Numbering.TopNumbered` says when). Clang builds array loops only to
  copy arrays element by element, with the index in a subscript, so its own trees do not have this shape.
- The name of a decomposition is `$0` in every declaration. An operand of comma, `&&` or `||` in a binding
  would refer to the decomposition by its own, empty name (`References.DecompositionNamed`); the bindings
  that Clang builds have no such operands.
- A redeclared enumeration is recorded by its first declaration even when a later one defines it,
  and an opaque one may be recorded as a definition (`ModuleWalk.EnumLikeOthers`).
- With templates off, a variable that is not templated is recorded only as a static local of a
  recorded function (`ModuleWalk.VariableLeftOut`; `int x;` in `ModuleWalk.PlainVariable`).
- `/*/` is a complete comment to the scanner (`CommentScanners.BlockLikeCpp`). The search for the end of
  a line comment starts over from the beginning of the text when it runs off its end. If every line
  has a line comment it never ends (`CommentScanners.RunsForeverIff`). If the comment reaches a last
  line without a newline, the end is past the text, or, when the first line has a comment, at the end
  of the commented lines that the text starts with, before the comment (`CommentScanners.LineLoop`). The
  next scan starts over from there. Whether scanning then ends is decided by what it meets
  (`ScanRuns.HaltsIff`, `ScanRuns.EndlessIff`): it usually comes back to the same place for ever
  (`ScanRuns.FoundForEver`), but need not (`ScanRuns.EndsAllTheSame`).
- The program logic reads a declaration in the condition of a `while` as made once, ahead of the loop; C++
  makes it at every turn. Runs are compared under both readings.
- Case constants are delimited twice, and byte 127 is printed as it is.

## Model

| member | source | states |
|---|---|---|
| RoundTrips.RoundTrip | src/PrintStmt.cpp:39-258 | For every statement whose expressions are in scope and whose names can be quoted: the printed text reads back as exactly the flattened statement, with its expressions and declarations as Coq syntax, if and only if no two of its words run together and no `case` or `default` stands where one statement is expected. Both are conditions on the tree. |
| StmtTerms.TextRead | src/PrintStmt.cpp:39-258 | For every such statement the text parses as the one term of what was written if and only if no words run together; then it reads as the flattened statement if every label has its place, and as no statement at all otherwise. It is never misread. |
| Typing.TypedRoundTrip | src/PrintStmt.cpp:214-228 | For statements that obey the C++ rules on `switch` conditions and array copies, the text reads as the flattened statement when the labels are so placed, and as no statement otherwise. |
| Typing.TypedSeparated | src/PrintStmt.cpp:214-228 | Under these rules no words of a statement run together. |
| ExprTerms.ExprRead | src/PrintExpr.cpp:212-1416 | The term that is written for an expression, in any environment, reads as the Coq expression for which it stands: a reader that knows the constructor names by themselves finds every operator, operand, name, number, value category and type in its place. For every expression in scope. |
| RoundTrips.ExprReadsBack | src/PrintExpr.cpp:1405-1422 | The text of an expression reads back as that Coq expression if and only if no array loop in it has a bare `Enull` as its source. |
| Typing.TypedExprRoundTrip | src/PrintExpr.cpp:1372-1393 | The text of every expression that obeys these rules parses as its one term and reads back as its Coq expression. |
| ExprSizes.ExprTakes | src/PrintExpr.cpp:1405-1416 | The number of tokens from which an expression is read is determined by the expression. |
| CodeUnits.EncodesOnly | src/PrintExpr.cpp:656-688 | The numbers that are written for a string literal are as many as its length, each below 256 to its width with the bytes of the literal from the least significant one on, and they are the only such numbers. |
| DeclTerms.LocalsRead | src/PrintStmt.cpp:39-49 | The declarations of a statement read back in their order, those that are skipped left out, each with its name, type and initializer. |
| DeclTerms.DecompositionRead | src/PrintLocalDecl.cpp:99-137 | A decomposition reads back as its source, its name and its bindings, each with its name, the type of the decomposition and its initializer. |
| References.DecompositionNamed | src/PrintLocalDecl.cpp:99-137 | The name that a decomposition declares in its text is the one that a reference among its bindings carries if and only if the reference is to the decomposition and not an operand of comma, `&&` or `||`, or is to a local variable that happens to have this name; in the source only such a variable carries it. |
| References.RefsNamed | src/PrintExpr.cpp:154-180 | The names in the Coq expression are, from left to right, those of the references: `$` and the position of a declaration on the stack, else its local or global name. |
| RoundTrips.CaseUnderSwitch | src/PrintStmt.cpp:180-228 | A `switch` whose body is a bare `case` is read as a list cell with the `switch` and its label in front and the labelled statement behind, and so as no statement at all; for every condition, label and labelled statement. |
| Typing.LoneCaseLost | src/PrintStmt.cpp:180-228 | `switch (x) case 1: f();` is one: well typed, and its text reads as no statement. |
| StmtSizes.StmtWritten | src/PrintStmt.cpp:180-258 | What is written for a statement has at most as many tokens, parentheses aside, as the flattened statement needs, and as many if and only if its labels are so placed. |
| StmtSizes.ReadingTakes | src/PrintStmt.cpp:180-258 | No term with fewer tokens than a statement needs reads as it. |
| PrintedMeaning.TextRuns | src/PrintStmt.cpp:180-258 | The text reads back as a Coq statement that runs as the C++ statement does, from the start and from every label, with each `goto` followed to its label, for every meaning of its expressions, every bound on iterations and jumps, and both readings of a declaration in a `while` condition. |
| PrintedMeaning.TypedTextRuns | src/PrintStmt.cpp:180-258 | The same for every well-typed statement whose labels stand only in lists or under labels. |
| RoundTrips.TextDeterminesStatement | src/PrintStmt.cpp:350-355 | Two statements with the same text are the same statement once flattened. |
| StmtTerms.ExprRoundTrip | src/PrintExpr.cpp:1405-1422 | The text of an expression parses as its one term if and only if no array loop in it has a bare `Enull` as its source. |
| Typing.FusedSwitch | src/PrintStmt.cpp:214-228 | The layout by itself does not keep words apart: on an ill-typed `switch` over `nullptr` the text does not read back. |
| DocParsing.ReadBack | include/CoqPrinter.hpp:32-40 | For every tree of constructors, lists, tuples, literals and joined labels, in any layout and with labels joined anywhere: the printed text is read by the parser as the tree's term if and only if no two adjacent tokens fuse; parentheses balance and nothing is left over. |
| DocReading.LexDoc | src/Formatter.cpp:27-55 | The tokens of the printed text are those of the tree except that every fusion loses exactly one; the lists agree if and only if there are none. |
| Lexing.ReadRun | src/Formatter.cpp:19-45 | Any run of formatter calls that asks for white space only outside string literals is seen by the lexer as those calls, whatever the indentation. |
| SwitchRuns.FlattenRuns | src/PrintStmt.cpp:180-212 | The list elements that a statement is flattened into run as the nested statement does, with the same effects in the same order and the same way of ending, from the start and from any label, `default` and fall-through included. |
| SwitchRuns.OneRuns | src/PrintStmt.cpp:248-258 | The same for a statement printed where one Coq statement is expected. |
| SwitchRuns.FollowRuns | src/PrintStmt.cpp:325-338 | The same for function bodies in which every `goto` goes on at its label, in and out of loops and nested `switch` bodies. |
| SwitchArms.ArmRuns | theories/lang/cpp/logic/stmt.v:381-417 | For a flat `switch` that the program logic supports, some arm is taken for every selector, and for every arm that is taken jumping into the list runs exactly what follows that arm. |
| SwitchArms.SwitchMeaning | src/PrintStmt.cpp:214-228 | A C++ `switch` runs what the program logic runs for the printed list, and `break` ends it. |
| SwitchArms.SupportedIff | theories/lang/cpp/logic/stmt.v:331-417 | The program logic supports a list if and only if no label of the `switch` is hidden inside another statement, at most one is a `default` and none comes after a declaration. |
| Numbering.TopNumbered | src/PrintExpr.cpp:951-967 | For every expression with references in scope: the environment after printing holds the binders in order with the level restored, and the document is the one in which every binder and reference carries the binder's own number and every index the level of its innermost loop if and only if no `Eif2` part lies between an index and its loop and no binder is printed twice. |
| Numbering.DefaultTwice | src/PrintExpr.cpp:931-937 | A default argument with binders, printed twice in one expression, is never numbered that way. |
| Numbering.CallsTwice | src/PrintExpr.cpp:931-937 | `g() + g()` with `int g(int a = x ?: y)` is such an expression. |
| Numbering.SecondUse | src/PrintExpr.cpp:951-967 | An `Eif2` that is printed again gets a new number, and the reference in its condition carries the old one. |
| Numbering.IndexInEif2 | src/PrintExpr.cpp:1395-1400 | An array loop over a conditional whose last part is the index is not numbered that way. |
| Numbering.IndexExample | src/PrintExpr.cpp:1395-1400 | A concrete loop of that kind. |
| Numbering.Numbered | src/PrintExpr.cpp:1372-1400 | The same in any environment and at any level, for what has been numbered before. |
| Numbering.NumbersDiffer | include/OpaqueNames.hpp:21-42 | Different opaque values never share a number. |
| Binders.Appends | include/OpaqueNames.hpp:16-67 | Printing any expression appends exactly its binders, in order, to the numbered values, and restores the loop level and the stack of anonymous declarations. |
| Layout.RunErased | src/Formatter.cpp:19-40 | White space aside, the output of any run of calls is the concatenation of what was written. |
| Layout.RunTrimmed | src/Formatter.cpp:19-55 | No line ends in a space, however spaces, lines and indentation are asked for. |
| Layout.FirstOnLine | src/Formatter.cpp:27-40 | The first token of a line stands at the depth in force when it is written plus the spaces asked for since the line began. |
| Layout.LaterOnLine | src/Formatter.cpp:35-45 | A later token follows the one before it after exactly the spaces asked for in between. |
| Layout.BalancedDepth | src/Formatter.cpp:47-55 | Indentation calls that never go below zero change the depth by their balance; balanced ones restore it. |
| Layout.TreeLayout | include/CoqPrinter.hpp:32-40 | A printed tree adds its tokens and white space only, and ends no line in a space. |
| CoqTypeReading.SugarText | src/PrintType.cpp:477-502 | For every type with names that can be quoted: the text reads as a type, by the names of the constructors and qualifiers alone, and collapsing its nested qualifiers gives the canonical type at every level. |
| CoqTypeReading.TypeRead | src/PrintType.cpp:282-502 | The term of a type reads as the type, whatever its qualifiers. |
| CoqTypes.SugarErasure | src/PrintType.cpp:477-502 | Collapsing the qualifiers printed for a type built from typedef, parenthesis and elaborated sugar, qualifiers, pointers and references gives the canonical type at every level. |
| CoqTypes.OwnQualifiers | src/PrintType.cpp:477-502 | A `const` type is printed with the volatility of its canonical type, and any other with its own qualifier or none. |
| CoqTypes.TypeErasure | src/PrintType.cpp:296-322 | The same for a type without qualifiers of its own. |
| ModuleWalk.VisitedIsClosure | src/ModuleBuilder.cpp:69-74 | On every finite graph, cyclic or not, the visited declarations are the least set that has the children of the unit and, for each member, the declarations it asks for under the flags of its first visit, as its kind and fields say. |
| ModuleWalk.RunIsSound | src/ModuleBuilder.cpp:84-108 | Over a whole run: no declaration is dispatched twice, the static assertions recorded are those visited in order, `in_template` implies that templates are on, and the assertions on the flags hold if and only if every scope was visited without flags, as it is when scopes nest only in scopes. |
| ModuleWalk.ChainRecordedOnce | src/ModuleBuilder.cpp:126-184 | The entries of a whole run about a chain of classes or functions are one entry for its definition, or else its first declaration, if that is visited and admitted (the filter asks for it, and it is no implicit class, no specialization visited outside its template, no deleted member and, with templates off, not dependent), with the flags of its visit and as a definition exactly when there is one and the filter asks for it; otherwise none. |
| ModuleWalk.EnumRecordedFirst | src/ModuleBuilder.cpp:222-230 | The entries about a chain of enumerations are those of its first declaration. |
| ModuleWalk.EnumLikeOthers | src/ModuleBuilder.cpp:222-230 | An enumeration whose declarations are visited and accepted is recorded as other chains are if and only if its first declaration is its definition, or it has none and the filter asks for a declaration. |
| ModuleWalk.OpaqueEnum | src/ModuleBuilder.cpp:222-230 | A unit in which an opaque enumeration is defined later: the opaque declaration is recorded, as a definition. |
| ModuleWalk.FlagsAsked | src/ModuleBuilder.cpp:84-108 | Every visit of a whole run has flags with which the unit or another visited declaration asks for it. |
| ModuleWalk.RunEntries | src/ModuleBuilder.cpp:69-284 | A whole run adds an entry if and only if some visited declaration yields it under the flags of its first visit; what each kind of declaration yields is stated in terms of its own fields, the options and the filter. |
| ModuleWalk.VariableLeftOut | src/ModuleBuilder.cpp:171-196 | A whole run adds nothing about a variable if and only if the filter rejects it, or it is not visited or not templated while templates are off, and it is not a static local of a visited function that is recorded as a definition. |
| ModuleWalk.PlainVariable | src/ModuleBuilder.cpp:190-196 | In the unit `int x;` the variable is recorded if and only if templates are on. |
| ModuleWalk.LeftToRight | src/ModuleBuilder.cpp:69-108 | Visiting a list of declarations is visiting its first part and then the rest. |
| ModuleWalk.KidsInOrder | src/ModuleBuilder.cpp:84-284 | The visits that a declaration asks for are those of its members or specializations in their order, the pattern of a class template first. |
| ModuleWalk.VisitGrows | src/ModuleBuilder.cpp:69-74 | A visit comes behind the visits, entries and assertions before it and ahead of the visits that it asks for. |
| ModuleWalk.RecordLast | src/ModuleBuilder.cpp:135-150 | A class is recorded after everything that the visits of its members record. |
| ModuleWalk.ThenTheRest | src/ModuleBuilder.cpp:152-230 | A function or an enumeration is recorded first and then, in their order, exactly the static locals of a function recorded as a definition or the enumerators for which the filter asks. |
| ModuleWalk.ListsAre | src/ModuleBuilder.cpp:303-322 | A main list has exactly the entries of its sort that are not in a template, and a template list those that are in a template or a specialization. |
| ModuleWalk.ListsAppend | src/ModuleBuilder.cpp:303-322 | What is recorded later stands later in each list. |
| ModuleWalk.ListsAgree | src/ModuleBuilder.cpp:303-322 | No template entry is in a main list, and the other entries of a template list are exactly the specializations of the main list, in the same order. |
| ModuleBuilders.Build | src/ModuleBuilder.cpp:288-295 | A run over a unit ends with the lists that the log of its traversal determines; it terminates on every graph. |
| ModuleBuilders.BuildModule.Include | src/ModuleBuilder.cpp:42-60 | Adds the entry that the filter asks for, and says which. |
| ModuleBuilders.BuildModule.IncludeStaticLocals | src/ModuleBuilder.cpp:171-180 | Adds the static local variables of a body, in order, and nothing else. |
| ModuleBuilders.BuildModule.IncludeAll | src/ModuleBuilder.cpp:227-229 | Adds the enumerators, in order. |
| ModuleBuilders.BuildModule.VisitDecl | src/ModuleBuilder.cpp:69-74 | Dispatches a declaration the first time and does nothing the second. |
| ModuleBuilders.BuildModule.VisitEach | src/ModuleBuilder.cpp:105-107 | Visits declarations from left to right. |
| ModuleBuilders.BuildModule.DispatchDecl | src/ModuleBuilder.cpp:76-284 | Does what the traversal of the declaration's kind does. |
| ModuleBuilders.BuildModule.VisitScope | src/ModuleBuilder.cpp:101-108 | Checks the flags and visits the members. |
| ModuleBuilders.BuildModule.VisitRecord | src/ModuleBuilder.cpp:135-150 | Visits the members before recording the class; implicit classes and specializations outside templates are skipped. |
| ModuleBuilders.BuildModule.VisitTag | src/ModuleBuilder.cpp:126-133 | Records a definition, or a first declaration without one. |
| ModuleBuilders.BuildModule.VisitFunction | src/ModuleBuilder.cpp:152-184 | Records a function, and the static locals of one recorded as a definition; deleted members and dependent functions are skipped. |
| ModuleBuilders.BuildModule.VisitEnum | src/ModuleBuilder.cpp:222-230 | Records a first declaration and its enumerators. |
| ModuleBuilders.BuildModule.VisitLeaf | src/ModuleBuilder.cpp:186-196 | Records the kinds that ask for no visits. |
| ModuleBuilders.BuildModule.VisitTemplate | src/ModuleBuilder.cpp:254-262 | Records a function or variable template when templates are on, and visits its specializations. |
| ModuleBuilders.BuildModule.VisitClassTemplate | src/ModuleBuilder.cpp:264-271 | Visits the pattern when templates are on, and the specializations. |
| ModuleBuilders.BuildModule.VisitFriend | src/ModuleBuilder.cpp:273-277 | Visits a befriended declaration. |
| ModuleBuilders.Module.AddDefinition | src/ModuleBuilder.cpp:303-318 | Extends the lists of definitions that the log determines. |
| ModuleBuilders.Module.AddDeclaration | src/ModuleBuilder.cpp:303-322 | Extends the lists of declarations that the log determines. |
| ModuleBuilders.Module.AddAssert | src/ModuleBuilder.cpp:297-299 | Appends a static assertion. |
| Mangling.PrintSimpleContext | src/ClangPrinter.cpp:170-280 | Writes `N` if and only if more than one name is needed in all and `E` if and only if this is the outermost call and there is more than one, around the length-prefixed names from outside inwards, and returns their number. |
| Mangling.PrintTypeName | src/ClangPrinter.cpp:305-321 | Writes the mangled name of the whole path in quotes. |
| Mangling.MangleRoundTrip | src/ClangPrinter.cpp:205-280 | A length-prefix reader recovers the path from the mangled name, for every path of identifiers. |
| Mangling.ManglingInjective | src/ClangPrinter.cpp:294-296 | Two contexts have the same mangled name if and only if they are the same, linkage specifications and the kinds of contexts on the way aside. |
| Mangling.NestedName | src/ClangPrinter.cpp:205-280 | A type `B` in a context `A` is named by the two names, outer one first, between `N` and `E`. |
| Mangling.MangledPlain | src/ClangPrinter.cpp:305-321 | The mangled name of unquoted names can stand between quotes. |
| StringReading.StringRoundTrip | src/StringPrettyPrinter.cpp:36-157 | For every byte string the text is one literal or one parenthesised chain that parses as a single term, and the term denotes exactly the bytes. |
| StringReading.LexPretty | src/StringPrettyPrinter.cpp:60-138 | The text lexes into the quoted and the escaped sections joined with `++`. |
| StringReading.SectionsAreRuns | src/StringPrettyPrinter.cpp:102-114 | The sections are the maximal runs of printable and of other bytes, in order. |
| StringPrinting.StringPrettyPrinter.PrettyPrint | src/StringPrettyPrinter.cpp:36-54 | Writes the text of a byte string; the count of parentheses is -1 exactly outside escaped sections between bytes. |
| StringPrinting.StringPrettyPrinter.ToLit | src/StringPrettyPrinter.cpp:60-70 | Continues or starts a quoted section; a quote is doubled. |
| StringPrinting.StringPrettyPrinter.ToEscape | src/StringPrettyPrinter.cpp:76-83 | Continues or starts an escaped section and owes one more parenthesis. |
| StringPrinting.StringPrettyPrinter.SwitchState | src/StringPrettyPrinter.cpp:102-114 | Ends the section under way, if it is of the other kind, and starts the wanted one. |
| StringPrinting.StringPrettyPrinter.Close | src/StringPrettyPrinter.cpp:119-138 | Ends a section with the quote or the parentheses owed. |
| StringPrinting.StringPrettyPrinter.Open | src/StringPrettyPrinter.cpp:143-156 | Starts a section; no parentheses are owed from before. |
| CommentScanners.RunsForeverIff | include/CommentScanner.hpp:25-32 | For every block and every line comment in it: the loop runs forever if and only if every line of the block has a line comment, and if and only if it has no end. |
| CommentScanners.LineLoop | include/CommentScanner.hpp:25-35 | Where the loop ends: at the end of the run of commented lines if and only if that run ends in a newline; otherwise past the text if the first line has no line comment, and else at the end of the first run of commented lines of the text, before the comment itself. |
| CommentScanners.ScansIff | include/CommentScanner.hpp:49-74 | Every comment met has its end if and only if the text has a list of comments at all. |
| CommentScanners.EndedScans | include/CommentScanner.hpp:49-74 | It is enough that every line comment mark has a later newline and every block comment mark a later closing mark. |
| CommentScanners.CommentScanner.Next | include/CommentScanner.hpp:49-74 | Returns the first comment at or after the offset, if there is one, with nothing that opens a comment before it; the branch that cannot happen cannot. |
| CommentScanners.CommentScanner.ParseLineComment | include/CommentScanner.hpp:22-35 | Returns the end of the loop, on every block in which it ends; the range is that of the comment if and only if the run of commented lines ends in a newline. |
| CommentScanners.CommentScanner.ParseBlockComment | include/CommentScanner.hpp:37-44 | The range ends with the first closing mark at or after the opening mark. |
| ScanRuns.Comments | include/CommentScanner.hpp:46-74 | Repeated scanning, on every text on which it comes to an end: returns what the calls return, and exactly the comments of the text when every comment met has its end. |
| ScanRuns.HaltsIff | include/CommentScanner.hpp:49-74 | Repeated scanning of a text comes to an end if and only if it goes forward from comment to comment to the end of the text, or comes back once, from a comment whose end is found before it to the end of the lines that the text starts with, and goes forward from there. |
| ScanRuns.EndlessIff | include/CommentScanner.hpp:49-74 | It goes on for ever if and only if it comes back, and comes back again from there. |
| ScanRuns.OneOrOther | include/CommentScanner.hpp:49-74 | If the marks that are asserted are there and each loop ends, it does one or the other. |
| ScanRuns.MovesForward | include/CommentScanner.hpp:22-44 | The end found for a comment is behind its start if and only if it is a block comment, some later line has no comment, or the first line has none. |
| ScanRuns.FoundForEver | include/CommentScanner.hpp:49-74 | A text whose last comment ends before its second: two comments are found for ever. |
| ScanRuns.EndsAllTheSame | include/CommentScanner.hpp:49-74 | A text on which scanning comes back and still ends: the second time a closing mark is taken for an opening one. |
| ScanRuns.EndsCutOff | include/CommentScanner.hpp:49-74 | A text whose last comment is cut off by its end: scanning ends. |
| CommentScanners.ScanUnique | include/CommentScanner.hpp:49-74 | There is only one such list of ranges. |
| CommentScanners.RangeUnique | include/CommentScanner.hpp:22-44 | The end of a comment is determined by its start. |
| CommentScanners.BlockLikeCpp | include/CommentScanner.hpp:37-44 | A block comment is the one that C++ sees if and only if its opening mark is not followed by a slash. |
| CommentScanners.UnendedLoop | include/CommentScanner.hpp:25-32 | A text of one commented line and an unfinished second one: the loop runs forever. |
| CommentScanners.EndsPastText | include/CommentScanner.hpp:25-35 | A text whose first line is bare: the comment ends past the text. |
| CommentScanners.EndsBeforeComment | include/CommentScanner.hpp:49-74 | A text with an earlier comment: the end is before the comment, and the next scan finds the same comment again. |
| Bytestring.ContainsIff | theories/prelude/bytestring_core.v:227-235 | The greedy search succeeds if and only if the keys can be placed in order without overlap at or after the start. |
| Bytestring.IndexIsLeast | theories/prelude/bytestring_core.v:187-211 | `index` finds the least position from `n` on, and fails if and only if there is none. |
| Bytestring.SubstringIs | theories/prelude/bytestring_core.v:178-185 | `substring` is the slice, clipped to the string. |
| Bytestring.PrefixIff | theories/prelude/bytestring_core.v:163-173 | `prefix` decides whether one string starts another. |
| Bytestring.CmpIsLexicographic | theories/prelude/bytestring_core.v:245-256 | `bs_cmp` is equality, and otherwise decides at the first byte that differs or at the end of the shorter string. |
| Bytestring.LessIsStrictTotal | theories/prelude/bytestring_core.v:295-323 | The order is irreflexive, total, asymmetric and transitive. |
| Avl.CheckCanonIff | theories/prelude/avl.v:110-177 | `check_canon None None` accepts a tree if and only if it is a binary search tree. |
| Avl.CheckIff | theories/prelude/avl.v:110-130 | With bounds: if and only if it is a search tree whose keys lie between them. |
| Avl.CheckCanonAscending | theories/prelude/avl.v:110-130 | Equivalently: if and only if its keys are listed in strictly ascending order. |
| Avl.FindAnyIff | theories/prelude/avl.v:74-83 | `find_any` holds if and only if some entry of the tree satisfies the test. |
| Finite.OfToBitsIff | theories/prelude/finite.v:845-851 | `of_bits (to_bits s) = s` for every set if and only if different values have different bits. |
| Finite.ToOfBits | theories/prelude/finite.v:924-931 | `to_bits (of_bits m)` is `m` restricted to the bits of the type, for every `m`. |
| Finite.ToBitsUnion | theories/prelude/finite.v:793-798 | Unions are encoded by `lor`. |
| Finite.IntersectionIff | theories/prelude/finite.v:826-834 | Intersections are encoded by `land` for all sets if and only if different values have different bits. |
| Finite.OfBitsLorLand | theories/prelude/finite.v:718-722 | `lor` and `land` of masks denote unions and intersections. |
| Finite.FoldOrderIndependent | theories/prelude/finite.v:724-746 | The fold gives the same mask for every order of the elements. |
| Finite.ToBitsIff | theories/prelude/finite.v:900-915 | A bit of the mask is set if and only if it is the bit of some element. |
| Finite.MaskedTop | theories/prelude/finite.v:885-888 | Masking with all bits changes nothing. |
| ListNumbers.RotateIsTurns | theories/prelude/list_numbers.v:568-590 | Rotating by `k` is moving the head to the end `k` times, for every list and `k`. |
| ListNumbers.RotateAdd | theories/prelude/list_numbers.v:642-644 | Rotations compose by addition. |
| ListNumbers.RotateAt | theories/prelude/list_numbers.v:780-788 | Element `i` of a rotated list is element `(k + i) mod length`. |
| Formatters.Formatter.NewLine | src/Formatter.cpp:19-25 | Starts a blank line and forgets pending spaces. |
| Formatters.Formatter.Nobreak | src/Formatter.cpp:27-40 | Writes the indentation of a blank line and the pending spaces, and nothing else. |
| Formatters.Formatter.AddNbsp | src/Formatter.cpp:42-45 | One more pending space. |
| Formatters.Formatter.AddIndent | src/Formatter.cpp:47-50 | Two levels deeper. |
| Formatters.Formatter.SubIndent | src/Formatter.cpp:51-55 | Undoes one indentation; there must be one. |
| Formatters.Formatter.Put | include/Formatter.hpp:40-44 | Writes what is due and then the text. |
| Formatters.Formatter.OpenParen | src/Formatter.cpp:97-102 | Writes a parenthesis and indents. |
| Formatters.Formatter.CloseParen | src/Formatter.cpp:106-111 | Outdents before the parenthesis. |
| Formatters.Formatter.PutInteger | src/Formatter.cpp:127-133 | Writes a signed constant in parentheses with `%Z`. |
| CoqPrinters.CoqPrinter.Ctor | include/CoqPrinter.hpp:32-37 | Opens a constructor, on a line of its own if asked. |
| CoqPrinters.CoqPrinter.EndCtor | include/CoqPrinter.hpp:38-40 | Closes it and restores the depth. |
| CoqPrinters.CoqPrinter.Str | include/CoqPrinter.hpp:71-80 | Writes a text in quotes. |
| CoqPrinters.CoqPrinter.Boolean | include/CoqPrinter.hpp:82-84 | Writes `true` or `false`. |
| CoqPrinters.CoqPrinter.BeginList | include/CoqPrinter.hpp:127-129 | Opens a list. |
| CoqPrinters.CoqPrinter.EndList | include/CoqPrinter.hpp:130-132 | Ends a list with `nil` and restores the depth. |
| CoqPrinters.CoqPrinter.Cons | include/CoqPrinter.hpp:133-135 | Writes `::` between pending spaces. |
| Names.OpaqueNames.Fresh | include/OpaqueNames.hpp:21-25 | Numbers a value by its position. |
| Names.OpaqueNames.Find | include/OpaqueNames.hpp:29-37 | Finds the first position, -1 if there is none. |
| Names.OpaqueNames.PushAnon | include/OpaqueNames.hpp:39-43 | Pushes a declaration and returns its position. |
| Names.OpaqueNames.FindAnon | include/OpaqueNames.hpp:44-52 | Finds the first position on the stack, -1 if there is none. |
| Names.OpaqueNames.PopAnon | include/OpaqueNames.hpp:53-57 | Undoes the matching push. |
| Names.OpaqueNames.IncIndexCount | include/OpaqueNames.hpp:62-64 | One loop level further in. |
| Names.OpaqueNames.DecIndexCount | include/OpaqueNames.hpp:65-67 | One loop level further out. |
| PrintTypes.PrintQualType | src/PrintType.cpp:477-502 | Writes the document of a qualified type, whose const branch asks for volatility of the whole type. |
| PrintTypes.PrintType | src/PrintType.cpp:470-475 | Writes the document of a type; sugar leaves no trace, and the depth is restored. |
| PrintTypes.PrintPointer | src/PrintType.cpp:282-301 | Writes a pointer or reference type. |
| PrintTypes.PrintNamed | src/PrintType.cpp:126-139 | Writes a record or enumeration type. |
| PrintExprs.PrintExpr | src/PrintExpr.cpp:1405-1416 | Writes the document of any expression, leaves the environment that goes with it and restores the depth. |
| PrintExprs.VisitBinaryOperator | src/PrintExpr.cpp:267-330 | Writes operands left to right, with the operator and type of the node. |
| PrintExprs.VisitSequencedOperator | src/PrintExpr.cpp:275-305 | Writes the operands of comma, `&&` and `||` in fresh environments and leaves the environment alone. |
| PrintExprs.VisitUnaryOperator | src/PrintExpr.cpp:370-401 | Writes the operand, the operator for `Eunop`, and the type unless it is `Eaddrof`. |
| PrintExprs.VisitDeclRefExpr | src/PrintExpr.cpp:403-448 | Writes a reference to a variable, read through a reference when it is one. |
| PrintExprs.PrintVarRef | src/PrintExpr.cpp:154-180 | Writes `$` and the number of an anonymous declaration, else a local or a global name. |
| PrintExprs.VisitCallExpr | src/PrintExpr.cpp:472-495 | Writes the callee, the argument list on a new line and the type. |
| PrintExprs.VisitCXXMemberCallExpr | src/PrintExpr.cpp:843-929 | Writes the callee with its kind of call, the receiver and the arguments. |
| PrintExprs.VisitCastExpr | src/PrintExpr.cpp:536-563 | Writes the kind of cast, the operand, value category and type. |
| PrintExprs.VisitIntegerLiteral | src/PrintExpr.cpp:625-637 | Writes the numeral in scope `Z`. |
| PrintExprs.VisitCharacterLiteral | src/PrintExpr.cpp:639-644 | Writes the code in scope `N`. |
| PrintExprs.VisitStringLiteral | src/PrintExpr.cpp:656-688 | Writes the code units of a literal, least significant byte first. |
| PrintExprs.CodeUnit | src/PrintExpr.cpp:666-679 | The inner loop computes a number below 256 to the width whose byte `k` is byte `i + k` of the literal, for every `k` below the width. |
| PrintExprs.PrintUnits | src/PrintExpr.cpp:663-683 | Writes one list element for each code unit; there are as many as the literal has, and each spells its own bytes. |
| PrintExprs.VisitCXXBoolLiteralExpr | src/PrintExpr.cpp:702-710 | Writes a Boolean literal. |
| PrintExprs.VisitMemberExpr | src/PrintExpr.cpp:721-789 | Writes the object, the field and the type, read through a reference when it is one. |
| PrintExprs.VisitArraySubscriptExpr | src/PrintExpr.cpp:791-799 | Writes the array, the subscript and the type. |
| PrintExprs.VisitCXXConstructExpr | src/PrintExpr.cpp:801-812 | Writes the constructor, the arguments and the type. |
| PrintExprs.VisitCXXDefaultArgExpr | src/PrintExpr.cpp:931-937 | Marks an implicit argument. |
| PrintExprs.VisitConditionalOperator | src/PrintExpr.cpp:939-949 | Writes the three parts left to right. |
| PrintExprs.VisitBinaryConditionalOperator | src/PrintExpr.cpp:951-967 | Numbers the common value, and writes the other parts one level further in. |
| PrintExprs.VisitParenExpr | src/PrintExpr.cpp:977-981 | Writes what is inside. |
| PrintExprs.VisitInitListExpr | src/PrintExpr.cpp:1013-1038 | Writes the initializers and the filler, if there is one. |
| PrintExprs.VisitCXXThisExpr | src/PrintExpr.cpp:1040-1045 | Writes `Ethis` with its type. |
| PrintExprs.VisitCXXNullPtrLiteralExpr | src/PrintExpr.cpp:1047-1052 | Writes the bare word `Enull`. |
| PrintExprs.VisitExprWithCleanups | src/PrintExpr.cpp:1201-1216 | Marks the clean-up. |
| PrintExprs.VisitMaterializeTemporaryExpr | src/PrintExpr.cpp:1218-1255 | Writes the operand and the value category. |
| PrintExprs.VisitOpaqueValueExpr | src/PrintExpr.cpp:1272-1277 | Writes the number of the value, -1 if it has none. |
| PrintExprs.VisitArrayInitLoopExpr | src/PrintExpr.cpp:1372-1393 | Numbers the common value, writes the source, and the body one level further in. |
| PrintExprs.VisitArrayInitIndexExpr | src/PrintExpr.cpp:1395-1400 | Writes the current level. |
| PrintExprs.DoneT | src/PrintExpr.cpp:137-152 | Ends a node with its type. |
| PrintExprs.DoneVT | src/PrintExpr.cpp:137-152 | Ends a node with value category and type. |
| PrintExprs.DoneV | src/PrintExpr.cpp:137-152 | Ends a node with its value category. |
| PrintLocalDecls.VisitVarDecl | src/PrintLocalDecl.cpp:47-74 | Writes a local variable, a static one as `Dinit` with its thread-safety. |
| PrintLocalDecls.VisitDecompositionDecl | src/PrintLocalDecl.cpp:99-137 | Writes the bindings with the declaration on the anonymous stack, and pops it. |
| PrintLocalDecls.PrintLocalDecl | src/PrintLocalDecl.cpp:142-146 | Writes a declaration or says that it is skipped, in a fresh environment. |
| PrintStmts.PrintStmt | src/PrintStmt.cpp:350-355 | Writes the document of any statement and restores the depth. |
| PrintStmts.VisitDeclStmt | src/PrintStmt.cpp:39-49 | Writes one list element for each declaration that is not skipped. |
| PrintStmts.VisitWhileStmt | src/PrintStmt.cpp:51-66 | Writes the condition variable, condition and body. |
| PrintStmts.VisitForStmt | src/PrintStmt.cpp:68-97 | Writes the optional parts and the body. |
| PrintStmts.VisitDoStmt | src/PrintStmt.cpp:138-145 | Writes the body before the condition. |
| PrintStmts.VisitIfStmt | src/PrintStmt.cpp:157-178 | Writes both branches, `Sskip` for a missing one. |
| PrintStmts.VisitCaseStmt | src/PrintStmt.cpp:180-202 | Writes the label as a list element of its own, the constant delimited twice, and then the labelled statement. |
| PrintStmts.VisitDefaultStmt | src/PrintStmt.cpp:204-212 | The same for `default`. |
| PrintStmts.VisitSwitchStmt | src/PrintStmt.cpp:214-228 | Writes the three parts with nothing between them. |
| PrintStmts.VisitReturnStmt | src/PrintStmt.cpp:237-246 | Writes the value, if there is one. |
| PrintStmts.VisitExpr | src/PrintStmt.cpp:230-235 | Writes an expression statement. |
| PrintStmts.VisitCompoundStmt | src/PrintStmt.cpp:248-258 | Writes the statements as a list. |
| PrintStmts.VisitAttributedStmt | src/PrintStmt.cpp:308-323 | Writes the attributes and the statement. |
| PrintStmts.VisitLabelStmt | src/PrintStmt.cpp:325-331 | Writes the label and the statement. |
| PrintStmts.VisitGotoStmt | src/PrintStmt.cpp:333-338 | Writes the label. |

## Left out

- Clang itself: syntax trees, the declaration graph, `isDependentContext`, `getDefinition` and the like are inputs; the filter is an arbitrary function.
- Function, template-specialization and anonymous contexts in mangled names, which depend on Clang's own mangler or are marked approximate; names are sequences of one-byte characters.
- The builds with `CLANG_NAMES`, `STRUCTURED_NAMES` and printed type aliases; Clang before version 10.
- Statements: range-based `for`, inline assembly, `try` and unsupported statements. Expressions: `new`, `delete`, `sizeof`, `offsetof`, atomics, lambdas, inherited constructors, pseudo-destructors, overloaded operator calls, calls through member pointers, parenthesised lists, type traits and the nodes that only occur in templates.
- Types: arrays, functions, member pointers and deduced types; builtin types are carried by the name that is printed for them.
- Code units of string literals on a big-endian host.
- The closures that the list functions of `include/CoqPrinter.hpp` take are written out at their call sites.
- Binders.Appends: operands of comma, `&&` and `||` are printed in environments of their own, so their binders are not among those numbered.
- PrintedMeaning.TextRuns: destructors and the scope of declarations are not part of a run.
- PrintExprs.PrintExpr: the node kinds named above and below are not part of the expression type.
- PrintExprs.VisitBinaryOperator: member-pointer access, unsupported operators and the build that prints templates.
- PrintExprs.VisitUnaryOperator: unsupported operators.
- PrintExprs.VisitDeclRefExpr: references to enumerators, of the type of the enumeration or of its underlying type.
- PrintExprs.VisitCallExpr: dependent calls, which only the build that prints templates meets.
- PrintExprs.VisitCXXMemberCallExpr: calls through member pointers. The receiver of `->` is the expression with its dereference, as for members.
- PrintExprs.VisitCastExpr: constructor conversions, which print their operand with a fresh environment, conversion functions, casts between bases and derived classes with their paths, the named casts with their operand kinds, and casts of builtin functions.
- PrintExprs.VisitStringLiteral: the branch for big-endian hosts.
- PrintExprs.CodeUnit: the loop for big-endian hosts.
- PrintExprs.VisitMemberExpr: static data members and static member functions. The operand of `->` is the expression with its dereference, since the `Ederef` that the visitor writes for it is the one written for a dereference.
- PrintStmts.PrintStmt: the statement kinds named above.
- PrintTypes.PrintType: arrays, functions, member pointers and deduced types.
- Mangling.PrintSimpleContext: functions, template specializations and anonymous contexts.
- Mangling.PrintTypeName: records of plain C, which are named without mangling.
- ModuleBuilders.BuildModule.VisitFunction: the comments collected as specifications at a definition.
- ModuleWalk.ChainRecordedOnce: the comments collected for specifications while functions are visited are not modelled.
- Logging, process control, files, the command line, and `Formatter::ascii`, which nothing modelled here calls.
