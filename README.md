# A toy semantic checker for a C subset, twice

The repository holds two small semantic checkers for a C subset with the types
`int` and `float`. One is written in C++ (`Analizador_Semantico_Cpp/analyzer.cpp`),
the other in Python (`ANALYZER/analyzer.py`). Both read the program line by line.
- A line that opens a function (`int f(int a, float b) {`) registers the function's
  signature, seeds a local scope with its parameters, and starts a body.
- The body runs up to the first line that is exactly `}`.
- In a body, a declaration line adds local variables. An assignment line is
  checked: an undeclared target is an error, and the right-hand side is typed by
  an expression evaluator that handles three shapes: a call `f(...)`, one `+`,
  or a single token.
- A call of an unknown function, a wrong argument count and a wrongly typed
  argument are errors. An assignment whose two sides have different types is a
  warning.
- Outside bodies, a declaration line adds global variables; other lines are
  ignored.

This project models both checkers in Dafny and proves what they promise.

Modules:
- `Chars`: the character classes (C `isspace`, Python `str.isspace`, `\w`, digits,
  and what `.` matches).
- `Strings`: scanning, stripping and splitting text.
- `Semantics`: the types, the diagnostics and the scopes.
- `Patterns`: the regular expressions both programs share: the literal shapes,
  the declaration `\s*(int|float)\s+([^;]+);` and the function header.
- `Segments`: how both drivers cut the line sequence into definitions and
  top-level lines.
- `CppPatterns` and `CppChecker`: the C++ program.
- `PyPatterns` and `PyChecker`: the Python program.

Each fixed regular expression is a hand-written recognizer (`MatchDecl`,
`MatchHeader`, `MatchAssign`, `MatchCall`, `MatchSum`, ...). Its partner is a
declarative description of its cut points (`DeclCut`, `HeaderCut`, ...). An
`...Iff` lemma shows that the recognizer accepts exactly the texts that have such
cut points, and captures the text between them. Two rules follow the regex
engines:
- C++ uses `std::regex_match`, a whole match. Python uses `re.match`, a prefix
  match.
- The leftmost-greedy backtracking of each pattern is written out. For example,
  Python's `(.+)\+(.+)` splits at the last `+` of the first line.

The pure functions of each program are Dafny functions: `literalType`,
`tokenType`, `parse_decl` and the evaluator's result. The program's loops are
methods, each proved against those functions:
- `split`'s `getline` loop;
- the argument loop;
- `evalExpr`, which appends to the error list;
- the parameter loops;
- the body loop;
- the driver loop.

Each driver (`CppChecker.Analyze`, `PyChecker.Analyze`) is a method with the
source's own index loop. Its contract is a functional `Analysis`: the
segmentation of the lines, folded with one step per item. Lemmas about
`Analysis` state the promised properties:
- each line is consumed once;
- a body ends at the first `}`;
- the function table is the last definition of each name;
- globals come only from top-level lines;
- a function is registered before its body is checked.

Where the two programs differ, each is modelled as written:
- C++ deletes all spaces from an expression; Python strips its ends.
- C++ splits a sum at the first `+`; Python splits at the last one.
- C++ reports an argument without a type as undeclared; Python reports it as a
  type mismatch.
- C++ `split` drops empty items; Python keeps them.

Some behaviours of both programs are easy to miss, and the model keeps them:
- An undeclared assignment target is tagged (`'u'` in C++, `'undef'` in Python).
  In C++ no expression evaluates to `'u'` (`CppChecker.EvalNotUnknown`). In
  Python an expression can evaluate to `'undef'` (an unknown function, or a
  token with no type), but a right-hand side of type `'undef'` is exempt from
  the warning. So in both programs the line is also warned about whenever the
  right-hand side has a type. See `CppChecker.UndeclaredTargetWarns`,
  `CppChecker.AnalysisTargetWarns` and `PyChecker.UndeclaredTargetWarns`.
- Python splits a sum at the last `+` of the expression's first line.
- Python only strips the ends of an expression and reports an argument without
  a type as a type mismatch (`undef` against the parameter's type).
- Python opens a function on any line that starts with a header (`re.match`),
  whatever follows the `{`.

## Model

| member | source | states |
|---|---|---|
| Patterns.FloatLiteralIff | Analizador_Semantico_Cpp/analyzer.cpp:36-38 | `isFloatLiteral` holds exactly for one or more digits, a '.', and one or more digits |
| Patterns.IntLiteralIff | Analizador_Semantico_Cpp/analyzer.cpp:39-41 | `isIntLiteral` holds exactly for a non-empty run of digits |
| Patterns.LiteralsDisjoint | Analizador_Semantico_Cpp/analyzer.cpp:36-41 | no token is both a float and an int literal |
| CppChecker.LiteralTypeSpec | Analizador_Semantico_Cpp/analyzer.cpp:42-46 | `literalType` is 'f' exactly for the float shape, 'i' exactly for digits, and 0 exactly for neither |
| CppPatterns.Split | Analizador_Semantico_Cpp/analyzer.cpp:47-59 | the `getline` loop returns `Items(s, d)`: the pieces between delimiters, each trimmed, with the empty ones dropped |
| CppPatterns.ReadItem | Analizador_Semantico_Cpp/analyzer.cpp:51-57 | one pass of the loop reads up to the next delimiter and keeps the loop invariant: the output so far followed by the items of the rest is `Items(s, d)` |
| CppPatterns.SplitStart | Analizador_Semantico_Cpp/analyzer.cpp:48-50 | before the first `getline` every item is still to be read |
| CppPatterns.SplitDone | Analizador_Semantico_Cpp/analyzer.cpp:51 | once the end is reached the output is all the items |
| CppPatterns.ItemsFromPieces | Analizador_Semantico_Cpp/analyzer.cpp:51-57 | reading from a position yields the kept pieces of the rest of the text |
| CppPatterns.ItemsWellFormed | Analizador_Semantico_Cpp/analyzer.cpp:52-56 | every item is non-empty, starts and ends with a non-blank, and holds no delimiter |
| CppPatterns.KeptItems | Analizador_Semantico_Cpp/analyzer.cpp:52-56 | trimming and dropping empty pieces gives non-empty, trimmed, delimiter-free items |
| CppPatterns.ItemsAppend | Analizador_Semantico_Cpp/analyzer.cpp:51-57 | items keep their source order: the items of the text before a delimiter come first, then those after it |
| CppPatterns.KeptAppend | Analizador_Semantico_Cpp/analyzer.cpp:56 | keeping non-empty trimmed pieces works piece by piece |
| CppPatterns.ItemsSingle | Analizador_Semantico_Cpp/analyzer.cpp:51-57 | a text without the delimiter is one trimmed item, or none when it is blank |
| CppChecker.TokenTypeScopes | Analizador_Semantico_Cpp/analyzer.cpp:60-69 | the lookup reads globals overridden by locals and falls back on the literal type; a local name always wins |
| CppPatterns.SqueezeSpec | Analizador_Semantico_Cpp/analyzer.cpp:80 | removing spaces leaves no blank, and doing it twice changes nothing more |
| Strings.RemoveNoneIn | Analizador_Semantico_Cpp/analyzer.cpp:80 | `remove_if` leaves none of the removed characters |
| Strings.RemoveAppend | Analizador_Semantico_Cpp/analyzer.cpp:80 | removal works on each part of a text separately, keeping order |
| Strings.RemoveNoop | Analizador_Semantico_Cpp/analyzer.cpp:80 | removing from a text that holds no such character changes nothing |
| CppPatterns.MatchCallIff | Analizador_Semantico_Cpp/analyzer.cpp:84 | `^(\w+)\((.*)\)$` matches exactly a word, '(', text without a line break, and a final ')', and captures the name and argument text |
| CppPatterns.MatchCallAt | Analizador_Semantico_Cpp/analyzer.cpp:84-86 | the cut a call has is the one the recognizer makes |
| CppChecker.EvalIsCall | Analizador_Semantico_Cpp/analyzer.cpp:84-86 | a squeezed expression of the call shape is evaluated as that call |
| CppChecker.EvalUnknownCall | Analizador_Semantico_Cpp/analyzer.cpp:87-91 | a call of an unregistered function yields exactly one error and type 0 |
| CppChecker.EvalKnowsRegistered | Analizador_Semantico_Cpp/analyzer.cpp:87-91 | evaluation never reports a registered function as undeclared |
| CppChecker.KnownCall | Analizador_Semantico_Cpp/analyzer.cpp:92-106 | a registered call returns `fn.ret` whatever its arguments; a count mismatch adds exactly one count error; at most one error per position of the common prefix |
| CppChecker.ArgDiags | Analizador_Semantico_Cpp/analyzer.cpp:97-105 | at most one diagnostic per checked position, each an undeclared-argument or argument-type error |
| CppChecker.ArgDiagsNone | Analizador_Semantico_Cpp/analyzer.cpp:98-105 | no argument error exactly when every checked argument has a type and it is its parameter's type |
| CppChecker.ArgDiagsPrefix | Analizador_Semantico_Cpp/analyzer.cpp:97-98 | only the first min(#args, #params) arguments and parameters are looked at, so nothing is read out of range |
| CppChecker.CheckArgs | Analizador_Semantico_Cpp/analyzer.cpp:97-105 | the argument loop appends exactly `ArgDiags` of the common prefix to the errors |
| CppChecker.CheckArg | Analizador_Semantico_Cpp/analyzer.cpp:99-104 | the loop body: undeclared when untyped, a type error when the type differs, nothing otherwise |
| CppChecker.CheckCall | Analizador_Semantico_Cpp/analyzer.cpp:85-106 | the call branch returns the call's type and appends its diagnostics to `errors` |
| CppChecker.EvalSum | Analizador_Semantico_Cpp/analyzer.cpp:110-117 | a sum at the first '+' is 'f' exactly when either side is 'f', else 'i', even with an untyped side, and adds no error |
| CppChecker.EvalToken | Analizador_Semantico_Cpp/analyzer.cpp:119-120 | neither a call nor a sum: the token's own type, and no error |
| CppChecker.EvalNotUnknown | Analizador_Semantico_Cpp/analyzer.cpp:72-121 | evaluation never yields the 'u' tag when the tables hold only real types |
| CppChecker.EvalDiagKinds | Analizador_Semantico_Cpp/analyzer.cpp:72-121 | evaluation adds only call errors: never an undeclared-variable error and never a warning |
| CppChecker.EvalExpr | Analizador_Semantico_Cpp/analyzer.cpp:72-121 | `evalExpr` returns the evaluated type and appends exactly the evaluation's errors to `errors` |
| Patterns.MatchHeaderIff | Analizador_Semantico_Cpp/analyzer.cpp:155 | the header recognizer (whole match here, prefix match in Python) accepts exactly the lines with a header's cut points and captures the name and raw parameter list |
| Patterns.MatchHeaderSound | Analizador_Semantico_Cpp/analyzer.cpp:155 | an accepted header has the header's cut points |
| Patterns.MatchHeaderComplete | Analizador_Semantico_Cpp/analyzer.cpp:155 | every line with a header's cut points is accepted with that name and parameter text |
| Semantics.KeywordAt | Analizador_Semantico_Cpp/analyzer.cpp:155-156 | `(int|float|void)` matches the type it names and ends right after it |
| Semantics.KeywordAtIs | Analizador_Semantico_Cpp/analyzer.cpp:155-156 | the keyword found is the one the text spells |
| CppPatterns.MatchParamIff | Analizador_Semantico_Cpp/analyzer.cpp:167 | `\s*(int|float)\s+(\w+)\s*` matches exactly a blank-padded type, blanks, and a word, capturing type and name |
| CppPatterns.MatchParamSound | Analizador_Semantico_Cpp/analyzer.cpp:167 | an accepted parameter has the parameter's cut points |
| CppPatterns.MatchParamComplete | Analizador_Semantico_Cpp/analyzer.cpp:167 | every parameter with those cut points is accepted |
| CppChecker.ReadParams | Analizador_Semantico_Cpp/analyzer.cpp:163-174 | the parameter loop binds each recognised parameter, a later one of the same name overriding, records the types in order, and skips malformed ones |
| CppChecker.ReadParamList | Analizador_Semantico_Cpp/analyzer.cpp:164-173 | the loop over the pieces computes the bindings and types of `ParamList` |
| CppChecker.ParamAdvance | Analizador_Semantico_Cpp/analyzer.cpp:165-172 | one piece extends the bindings and types by its parameter, or leaves them when it is malformed |
| CppChecker.ParamListTyped | Analizador_Semantico_Cpp/analyzer.cpp:165-172 | every parameter is `int` or `float` and named by a word |
| Patterns.MatchDeclIff | Analizador_Semantico_Cpp/analyzer.cpp:184 | `\s*(int|float)\s+([^;]+);` (whole match here, prefix match in Python) accepts exactly the lines with a declaration's cut points, capturing the type and name text |
| Patterns.MatchDeclSound | Analizador_Semantico_Cpp/analyzer.cpp:184 | an accepted declaration has the declaration's cut points |
| Patterns.MatchDeclComplete | Analizador_Semantico_Cpp/analyzer.cpp:184 | every line with those cut points is accepted with that capture |
| Patterns.TermAtIff | Analizador_Semantico_Cpp/analyzer.cpp:184 | the tail `\s+([^;]+);` matches exactly blanks, a ';'-free capture (one blank given back when the blanks run into the ';'), and the ';' |
| Semantics.DeclaredSpec | Analizador_Semantico_Cpp/analyzer.cpp:186-189 | the declared names get the declaration's type and every other entry is kept |
| Semantics.DeclareNames | Analizador_Semantico_Cpp/analyzer.cpp:187-189 | the loop over the names computes `Declared` |
| CppChecker.DeclarationFirst | Analizador_Semantico_Cpp/analyzer.cpp:183-193 | `int = 1;` also has the assignment shape, but it declares the name `= 1` and is not checked as an assignment |
| CppPatterns.MatchAssignIff | Analizador_Semantico_Cpp/analyzer.cpp:193 | `\s*(\w+)\s*=\s*(.+);` accepts exactly the lines with an assignment's cut points, capturing target and right-hand side |
| CppPatterns.MatchAssignSound | Analizador_Semantico_Cpp/analyzer.cpp:193 | an accepted assignment has the assignment's cut points |
| CppPatterns.MatchAssignComplete | Analizador_Semantico_Cpp/analyzer.cpp:193 | every line with those cut points is accepted |
| CppChecker.AssignUndeclared | Analizador_Semantico_Cpp/analyzer.cpp:196-200 | an untyped target adds exactly one undeclared-variable error about it, a typed one none; errors are only appended |
| CppChecker.AssignWarning | Analizador_Semantico_Cpp/analyzer.cpp:196-206 | one warning exactly when the target's tag and the right-hand side's type differ and the latter is not 0; it names both |
| CppChecker.UndeclaredTargetWarns | Analizador_Semantico_Cpp/analyzer.cpp:196-206 | in tables holding only real types, an undeclared target is tagged 'u', which no expression evaluates to, so a right-hand side with a type is always warned about |
| Semantics.DeclaredScalar | Analizador_Semantico_Cpp/analyzer.cpp:185-189 | declaring names as `int` or `float` keeps a scope holding only `int` and `float` |
| CppChecker.ParamsScalar | Analizador_Semantico_Cpp/analyzer.cpp:163-174 | the scope a header seeds from its parameters holds only `int` and `float` |
| CppChecker.BodyRunScalar | Analizador_Semantico_Cpp/analyzer.cpp:179-210 | checking body lines keeps the local scope holding only `int` and `float` |
| CppChecker.ItemStepTyped | Analizador_Semantico_Cpp/analyzer.cpp:150-222 | one unit keeps the globals holding only `int` and `float` and every registered function returning `int`, `float` or `void` |
| CppChecker.RunItemsTyped | Analizador_Semantico_Cpp/analyzer.cpp:150-223 | the whole run keeps those tables so typed |
| CppChecker.AnalysisBodyTyped | Analizador_Semantico_Cpp/analyzer.cpp:150-210 | before every body line the analysis checks, the globals, the local scope and the function table (the function's own entry included) are so typed |
| CppChecker.AnalysisTargetWarns | Analizador_Semantico_Cpp/analyzer.cpp:192-206 | hence in every body the analysis checks, an assignment to an undeclared target whose right-hand side has a type adds exactly the warning with the 'u' tag |
| CppChecker.CheckAssign | Analizador_Semantico_Cpp/analyzer.cpp:192-207 | the assignment branch appends the target check, the evaluation's errors, then the warning check |
| CppChecker.CheckLine | Analizador_Semantico_Cpp/analyzer.cpp:180-208 | one body line: declaration first, else assignment, else nothing |
| CppChecker.BodyRunGrows | Analizador_Semantico_Cpp/analyzer.cpp:179-210 | the body lines only ever append errors and warnings |
| CppChecker.BodyRunKnows | Analizador_Semantico_Cpp/analyzer.cpp:179-210 | no body error reports a registered function as undeclared |
| CppChecker.CheckBody | Analizador_Semantico_Cpp/analyzer.cpp:178-210 | the inner loop stops at the first `}` line and leaves the frame `BodyRun` gives for the lines before it |
| CppChecker.CheckBodyLine | Analizador_Semantico_Cpp/analyzer.cpp:180-209 | one turn of the inner loop extends the checked prefix by one line |
| CppChecker.CheckDefinition | Analizador_Semantico_Cpp/analyzer.cpp:155-212 | a header line registers the function, checks its body up to the first `}`, and resumes after that line |
| CppChecker.RecursionResolves | Analizador_Semantico_Cpp/analyzer.cpp:175-201 | the signature is registered before the body is checked, so a body never reports its own function as undeclared |
| CppChecker.CheckTopLine | Analizador_Semantico_Cpp/analyzer.cpp:215-222 | a top-level declaration binds its split names as globals; any other line is skipped |
| CppChecker.DefinitionNext | Analizador_Semantico_Cpp/analyzer.cpp:178-212 | past a definition the analysis continues after its closing line |
| CppChecker.TopLineNext | Analizador_Semantico_Cpp/analyzer.cpp:215-222 | past a top-level line the analysis continues with the next line |
| CppChecker.Analyze | Analizador_Semantico_Cpp/analyzer.cpp:146-223 | the driver loop over the lines computes `Analysis` |
| CppChecker.ItemStepGrows | Analizador_Semantico_Cpp/analyzer.cpp:150-223 | one item only appends diagnostics |
| CppChecker.RunItemsGrows | Analizador_Semantico_Cpp/analyzer.cpp:150-223 | errors and warnings are only ever appended |
| CppChecker.ItemStepTables | Analizador_Semantico_Cpp/analyzer.cpp:150-223 | a definition changes only the function table; a top-level line changes only the globals |
| CppChecker.TopLineTables | Analizador_Semantico_Cpp/analyzer.cpp:215-222 | a top-level line adds its declared names to the globals and leaves the functions |
| CppChecker.DefinitionTables | Analizador_Semantico_Cpp/analyzer.cpp:155-212 | a definition adds its signature to the functions and leaves the globals |
| CppChecker.RunItemsTables | Analizador_Semantico_Cpp/analyzer.cpp:150-223 | the function table binds the definitions' signatures in order; the globals bind the top-level declarations in order |
| CppChecker.AnalysisTables | Analizador_Semantico_Cpp/analyzer.cpp:146-223 | the whole analysis: function table and globals, as above, from the segmentation of the input |
| CppChecker.LastDefinitionWins | Analizador_Semantico_Cpp/analyzer.cpp:175 | a function defined several times keeps its last definition's signature |
| Segments.CloseAtSpec | Analizador_Semantico_Cpp/analyzer.cpp:179 | the body's end is the first `}` line at or after the start, or the end of input |
| Segments.FlattenSegment | Analizador_Semantico_Cpp/analyzer.cpp:150-223 | every line is consumed exactly once and in order: the items glue back into the input |
| Segments.SegmentWellFormed | Analizador_Semantico_Cpp/analyzer.cpp:150-223 | definitions open with a header, a body ends at the first `}` and never holds one, only the last definition may be unclosed, and no top-level line opens a function |
| Segments.SegmentFlatten | Analizador_Semantico_Cpp/analyzer.cpp:150-223 | a well-formed item sequence is the segmentation of its own lines, so the segmentation is the only well-formed reading |
| Segments.SegmentDefinition | Analizador_Semantico_Cpp/analyzer.cpp:178-212 | a definition's own lines in front of more lines segment into that definition first |
| Segments.SegmentDefinitionAt | Analizador_Semantico_Cpp/analyzer.cpp:178-212 | from a header line, the next item is the definition running to the first `}` |
| Segments.SegmentTopAt | Analizador_Semantico_Cpp/analyzer.cpp:215-222 | from any other line, the next item is that top-level line |
| PyPatterns.ParseDeclIff | ANALYZER/analyzer.py:15-25 | `parse_decl` recognises exactly the lines that start with a declaration's cut points, and its names are the stripped comma pieces of the capture |
| PyPatterns.ParseDeclNames | ANALYZER/analyzer.py:20-25 | the type is `int` or `float`; there is one name more than the capture has commas; names are stripped and hold no comma, and empty names are kept |
| PyPatterns.TokensSpec | ANALYZER/analyzer.py:24 | `[n.strip() for n in s.split(',')]` has one token more than commas, each stripped and comma-free |
| PyPatterns.TokensJoin | ANALYZER/analyzer.py:24 | names keep their source order: splitting joined stripped names gives them back |
| Strings.PiecesCount | ANALYZER/analyzer.py:24 | `str.split` gives one piece more than there are delimiters |
| Strings.PiecesNoDelim | ANALYZER/analyzer.py:24 | no piece holds the delimiter |
| Strings.JoinPieces | ANALYZER/analyzer.py:24 | the pieces glue back into the text |
| Strings.PiecesJoin | ANALYZER/analyzer.py:24 | splitting undoes gluing delimiter-free pieces |
| Strings.PiecesAppend | ANALYZER/analyzer.py:24 | pieces keep their order around a delimiter |
| Strings.StripSpec | ANALYZER/analyzer.py:103 | a stripped text is no longer and neither starts nor ends with a blank |
| Strings.StripIsSlice | ANALYZER/analyzer.py:103 | stripping only removes a blank prefix and a blank suffix |
| Strings.StripNoop | ANALYZER/analyzer.py:103 | stripping a text with non-blank ends changes nothing |
| PyPatterns.LiteralTypeSpec | ANALYZER/analyzer.py:27-32 | 'float' exactly for digits '.' digits, 'int' exactly for digits, None exactly for neither |
| PyChecker.TokenTypeScopes | ANALYZER/analyzer.py:133-134 | local over global over literal type, and 'undef' exactly when a name in neither scope is no literal, never None |
| PyPatterns.SourceLinesSpec | ANALYZER/analyzer.py:36 | every line kept is non-empty, stripped, and not a `//` comment |
| PyPatterns.SourceLinesAppend | ANALYZER/analyzer.py:36 | the filter works line by line |
| PyPatterns.SourceLinesIdempotent | ANALYZER/analyzer.py:36 | filtering the kept lines again changes nothing |
| PyPatterns.MatchCallIff | ANALYZER/analyzer.py:106 | `(\w+)\((.*)\)` as a prefix match accepts exactly a word, '(', and a ')' later on the first line, capturing up to the last such ')' |
| PyPatterns.MatchCallSound | ANALYZER/analyzer.py:106 | an accepted call has the call's cut points |
| PyPatterns.MatchCallComplete | ANALYZER/analyzer.py:106 | every expression with those cut points is accepted |
| PyChecker.EvalIsCall | ANALYZER/analyzer.py:103-108 | a stripped expression of the call shape is evaluated as that call |
| PyChecker.EvalUnknownCall | ANALYZER/analyzer.py:106-111 | a call of an unknown function yields exactly one error and 'undef' |
| PyChecker.ArgsCount | ANALYZER/analyzer.py:113 | a blank argument text means zero arguments; otherwise there is one more than it has commas |
| PyChecker.KnownCall | ANALYZER/analyzer.py:112-121 | a known call returns `fn['return']`; a count mismatch adds one error first; then type errors only, none exactly when every zipped argument has its parameter's type |
| PyChecker.ArgDiagsShape | ANALYZER/analyzer.py:117-120 | at most one error per zipped pair, each a type error whose actual and expected types differ |
| PyChecker.ArgDiagsNone | ANALYZER/analyzer.py:117-120 | no error exactly when every zipped argument has its parameter's type, 'undef' counting as a mismatch |
| PyChecker.ArgCheckSpec | ANALYZER/analyzer.py:118-120 | one pair: an error naming argument, its type and the expected one exactly when the types differ |
| PyChecker.CheckArgs | ANALYZER/analyzer.py:117-120 | the `zip` loop appends exactly `ArgDiags` of the common prefix |
| PyChecker.CheckCall | ANALYZER/analyzer.py:108-121 | the call branch returns the call's type and appends its errors |
| PyPatterns.MatchSumIff | ANALYZER/analyzer.py:124 | `(.+)\+(.+)` as a prefix match splits at the last '+' of the first line with a character on each side |
| PyPatterns.MatchSumSound | ANALYZER/analyzer.py:124 | an accepted sum has the sum's cut points |
| PyPatterns.MatchSumComplete | ANALYZER/analyzer.py:124 | every expression with those cut points is accepted |
| PyPatterns.MatchSumJoin | ANALYZER/analyzer.py:124 | the two non-empty operands glue back, around the '+', into a prefix of the expression's first line |
| PyChecker.EvalSum | ANALYZER/analyzer.py:124-128 | a sum is 'float' exactly when either stripped operand is 'float', else 'int', and adds no error |
| PyChecker.EvalToken | ANALYZER/analyzer.py:130-131 | an expression with no call cut and no sum cut is a single token: its own type, and no error |
| PyChecker.EvalDiagKinds | ANALYZER/analyzer.py:102-131 | evaluation adds only call errors, and never reports a registered function as undeclared |
| PyChecker.EvalExpr | ANALYZER/analyzer.py:102-131 | `eval_expr` returns the evaluated type and appends exactly the evaluation's errors |
| PyPatterns.MatchAssignIff | ANALYZER/analyzer.py:75 | `(\w+)\s*=\s*([^;]+);` as a prefix match accepts exactly the lines with an assignment's cut points |
| PyPatterns.MatchAssignSound | ANALYZER/analyzer.py:75 | an accepted assignment has the assignment's cut points |
| PyPatterns.MatchAssignComplete | ANALYZER/analyzer.py:75 | every line with those cut points is accepted |
| PyChecker.AssignSpec | ANALYZER/analyzer.py:77-86 | an undeclared target adds exactly one error, a declared one none; one warning exactly when the types differ and the right-hand side is not 'undef', naming both |
| PyChecker.UndeclaredTargetWarns | ANALYZER/analyzer.py:78-86 | an undeclared target tagged 'undef' is always warned about when the right-hand side has a type |
| PyChecker.CheckAssign | ANALYZER/analyzer.py:76-86 | the assignment branch appends the target check, the evaluation's errors, then the warning check |
| PyChecker.DeclarationFirst | ANALYZER/analyzer.py:66-76 | `int = 1;` also has the assignment shape, but the declaration is tried first: it declares `= 1` and adds no diagnostic |
| PyChecker.CheckLine | ANALYZER/analyzer.py:64-87 | one body line: declaration first, else assignment, else nothing |
| PyChecker.BodyRunGrows | ANALYZER/analyzer.py:63-87 | the body lines only ever append errors and warnings |
| PyChecker.BodyRunKnows | ANALYZER/analyzer.py:63-87 | no body error reports a registered function as undeclared |
| PyChecker.CheckBody | ANALYZER/analyzer.py:62-87 | the inner loop stops at the first `}` line and leaves the frame `BodyRun` gives for the lines before it |
| PyChecker.CheckBodyLine | ANALYZER/analyzer.py:63-87 | one turn of the inner loop extends the checked prefix by one line |
| PyChecker.ReadParams | ANALYZER/analyzer.py:53-58 | a blank parameter text gives no parameters; otherwise each declared name is appended with its piece's type and bound locally, a later one overriding |
| PyChecker.ReadPieces | ANALYZER/analyzer.py:54-58 | the loop over the comma pieces computes `ParamList` and its bindings |
| PyChecker.ReadParam | ANALYZER/analyzer.py:55-58 | one piece appends the pairs `parse_decl(p + ';')` gives |
| PyChecker.AddParams | ANALYZER/analyzer.py:56-58 | the inner loop appends each name with the type and binds it |
| PyChecker.ParamListTyped | ANALYZER/analyzer.py:54-58 | every parameter is `int` or `float`, named by a stripped comma-free text |
| PyChecker.ParamsTyped | ANALYZER/analyzer.py:53-58 | every parameter is typed, so the seeded local scope holds only `int` and `float` |
| Semantics.BindLookup | ANALYZER/analyzer.py:56-58 | a name is bound exactly when some parameter has it, to the type of the last one |
| Semantics.BindPairs | ANALYZER/analyzer.py:69-70 | binding a declaration's pairs maps exactly its names to its type |
| Semantics.DeclaredBind | ANALYZER/analyzer.py:69-70 | declaring names one after another is binding their pairs |
| PyChecker.CheckDefinition | ANALYZER/analyzer.py:47-90 | a header registers the function, checks its body up to the first `}`, and resumes after that line |
| PyChecker.RecursionResolves | ANALYZER/analyzer.py:59-83 | the signature is registered before the body, so a body never reports its own function as undeclared |
| PyChecker.CheckTopLine | ANALYZER/analyzer.py:93-97 | a top-level declaration binds its names as globals; any other line is skipped |
| PyChecker.DefinitionNext | ANALYZER/analyzer.py:61-90 | past a definition the analysis continues after its closing line |
| PyChecker.TopLineNext | ANALYZER/analyzer.py:92-97 | past a top-level line the analysis continues with the next line |
| PyChecker.Analyze | ANALYZER/analyzer.py:35-99 | `analyze` over the raw lines computes `Analysis` |
| PyChecker.ItemStepGrows | ANALYZER/analyzer.py:42-97 | one item only appends diagnostics |
| PyChecker.RunItemsGrows | ANALYZER/analyzer.py:42-99 | errors and warnings are only ever appended |
| PyChecker.ItemStepTables | ANALYZER/analyzer.py:43-97 | a definition changes only the function table; a top-level line changes only the globals |
| PyChecker.RunItemsTables | ANALYZER/analyzer.py:42-99 | the function table binds the definitions' signatures in order; the globals bind the top-level declarations in order |
| PyChecker.AnalysisTables | ANALYZER/analyzer.py:35-99 | the whole analysis, from the filtered lines |
| PyChecker.LastDefinitionWins | ANALYZER/analyzer.py:59 | a function defined several times keeps its last definition's signature |

## Left out

- Command-line handling, file reading and printing are I/O. This covers `main` in `Analizador_Semantico_Cpp/analyzer.cpp` (lines 124-144 and 225-232) and `main` in `ANALYZER/analyzer.py`. Diagnostics are a datatype holding kind, context and names, not message text.
- The C++ line preparation (comment cut at `//` and trimming, lines 137-144) is not modelled: `CppChecker.Analyze` takes the prepared lines. The trim regex is the non-raw literal `"^\s+|\s+$"`. `\s` is not a valid C++ escape, so what it matches depends on the compiler.
- `PyChecker.Analyze` takes the list `code.splitlines()` returns; which characters count as line breaks is not modelled. The filter and strip of line 36 are modelled.
- Python's `\w` is modelled as the ASCII word characters; Unicode letters and digits are left out. Python's `\s` and `str.strip` use the exact `str.isspace` set. C++ `isspace` and `\s` are the six ASCII blanks of the C locale.
- Text is a sequence of characters. C++ `std::string` holds bytes, and `::isspace` on a byte of 0x80 or above (a negative `char`) is undefined behaviour; the model reads such characters as neither blank nor word characters, and does not model the bytes of a multi-byte encoding.
- General regular-expression semantics are not modelled: only the fixed patterns the programs use, each as a recognizer.
- The repository's separate lexer, parser and translator programs (under `Avances en la Construcción de tu Traductor/` and `Fase Actual Análisis Léxico y sintactico/`) are not modelled. `validacion-traductor/traductor.js` and `validacion-traductor/pruebas/prueba-validacion.js` are not part of this model: they are a foreign library call plus file I/O, and a console demo of generated code.
- Python's `local.get(lhs) or global_vars.get(lhs)` is modelled as "local, else global". The two agree because every stored type is a non-empty string.
- `std::unordered_map` and `dict` are maps; iteration order never matters in either program.
