# freecad-stubs scanning core, modelled in Dafny

freecad-stubs generates Python stub files for FreeCAD by reading its C++ sources as text.
This project models the part that turns raw C++ call sites into Python declarations, and
proves what that part does:

- `cpp_function.dfy` (module `CppFunction`) covers the text scanners.
  - A preprocessor filter keeps the first branch of `#if … #else … #endif` and hides the
    `#elif`/`#else` branches. Its state is a stack of live/dead markers and a rolling
    8-character buffer.
  - `findFunctionCall` locates a bracket-balanced call.
  - `generateExpressionUntilChar` splits text at top-level commas, honouring backslash escapes,
    double-quoted spans and bracket depth.
  - `genFuncArgs` is built from the two and keeps the stripped, non-empty arguments.
  - Each scanner is a method with a loop, proved equal to a recursive specification function.
    Lemmas state what those functions mean.
- `arguments_converter.dfy` (module `ArgumentsConverter`) covers `TypesConverter`. It infers
  Python parameters from a `PyArg_ParseTuple` format string.
  - The format-unit tables are constant maps.
  - The scan is a recursive function `Run`, one `Step` per iteration of the source's loop.
  - The class `TypesConverter` holds the tuple-frame stack and `requiredImports` as fields.
    Its methods are proved equal to those functions.
- `exceptions_container.dfy` (module `ExceptionsContainer`) covers the registry of
  `PyErr_NewException` exceptions:
  - building `ExceptionData` records and dropping repeated variable names;
  - the lookup by (class, namespace);
  - the fallback order of `getExceptionText`;
  - rendering a record as a `class` statement.
- `types_enum.dfy` (module `TypesEnum`) covers `generateTypes`. It normalises and splits the
  `X::Y::init()` type names, groups them into one set per prefix, and renders the sorted
  `type_consts.py` text.
- `ordering.dfy` (module `Ordering`) holds Python's ordering of strings and of string pairs.
  It defines `sorted` applied to a set as the unique strictly increasing sequence of its
  elements, and a method that computes it.
- `wrappers.dfy` and `text.dfy` hold `Option`/`Result` and the Python `str` operations the
  scanners use: `strip`, `find`, `rfind`, slicing with Python's clamping, `removeprefix`,
  `join` and integer formatting.

The regular expressions of the source are not modelled. Their matches are inputs:
- the argument literals of the format string;
- the keyword-array initialisers;
- the `PyErr_NewException` matches;
- the `::init()` captures.

The naming helpers are function-valued parameters. These are `getClassWithModulesFromPointer`,
`getModuleName`, `getNamespaceWithClass`, `getClassName`, `removeQuote`,
`convertNamespaceToModule` and `indent`.

Where the source raises an exception that nothing catches, the model returns an explicit error
value. This covers `ValueError`, `IndexError` and `KeyError`.

Behaviour worth knowing, each as the source does it:
- after `#if`, an `#elif` or `#else` marks the innermost branch dead until its `#endif`, so of a
  conditional only the first branch reaches the call scanner
  (lib/freecad_stub_gen/generators/common/cpp_function.py:20-25);
- a parameter without a keyword name is called `"arg"` followed by its number
  (lib/freecad_stub_gen/generators/common/arguments_converter.py:14, 222);
- an `&Py…` pointer whose name is missing from the C-type table raises `KeyError`
  (lib/freecad_stub_gen/generators/common/arguments_converter.py:198-199);
- an empty pointer argument raises `IndexError` at its first character
  (lib/freecad_stub_gen/generators/common/arguments_converter.py:173);
- `ExceptionContainer.checkAllExceptionsCorrect` only calls `repr`, which never resolves a base
  class, so it does not validate the base classes
  (lib/freecad_stub_gen/generators/exceptions/container.py:52-55, 77-79).

## Model

| member | source | states |
|---|---|---|
| CppFunction.Enumerate | lib/freecad_stub_gen/generators/common/cpp_function.py:38-39 | the scan reads exactly the pairs (start + k, text[start + k]), none before the start and none past the end |
| CppFunction.DirectiveStep | lib/freecad_stub_gen/generators/common/cpp_function.py:7-25 | one character keeps the directive state valid: the stack never empties and the buffer never exceeds 8 characters |
| CppFunction.DirectiveStepCases | lib/freecad_stub_gen/generators/common/cpp_function.py:10-25 | a directive is acted on only at a space, tab or newline with `#` among the buffered characters; `#endif` pops only when more than one marker remains; `#elif`/`#else` mark the top dead; `#if`/`#ifdef`/`#ifndef` push a live marker; a recognised directive clears the buffer |
| CppFunction.ReadDirectiveChar | lib/freecad_stub_gen/generators/common/cpp_function.py:11-25 | the stack and the bounded buffer after one character are the ones the directive step specifies |
| CppFunction.SkipAdditionalDirectiveBlocks | lib/freecad_stub_gen/generators/common/cpp_function.py:6-28 | the items passed on are the filter's output from the initial state: stack `[True]` and an empty buffer |
| CppFunction.FilterWithoutDirectives | lib/freecad_stub_gen/generators/common/cpp_function.py:10-28 | inside a live branch, text without `#` passes through unchanged |
| CppFunction.DeadBranchHidden | lib/freecad_stub_gen/generators/common/cpp_function.py:10-28 | inside a dead branch, text without `#` is dropped entirely |
| CppFunction.FindFunctionCall | lib/freecad_stub_gen/generators/common/cpp_function.py:31-53 | the returned text is the call span: from the start (default the first `(`) to the last item read; a negative start is refused as `islice` refuses it; the directive filter is used only when the text holds `#if` |
| CppFunction.ScanCall | lib/freecad_stub_gen/generators/common/cpp_function.py:43-51 | the loop's last index read equals the specification of the bracket scan |
| CppFunction.ScanEndAtFirstClose | lib/freecad_stub_gen/generators/common/cpp_function.py:44-51 | the scan ends at the first closing bracket that brings the depth back to zero |
| CppFunction.ScanEndUnclosed | lib/freecad_stub_gen/generators/common/cpp_function.py:43-51 | when the depth never returns to zero, the scan ends at the last item, or stays at 0 on empty input |
| CppFunction.CallSpanClosed | lib/freecad_stub_gen/generators/common/cpp_function.py:31-53 | without `#if`, the call is the text from the start through the closing `bracketR` that balances it |
| CppFunction.CallSpanUnclosed | lib/freecad_stub_gen/generators/common/cpp_function.py:31-53 | without `#if` and without a balancing bracket, the call runs to the end of the text |
| CppFunction.CallSpanEndsAt | lib/freecad_stub_gen/generators/common/cpp_function.py:38-53 | without `#if`, no character is filtered out before the bracket scan: a scan ending at index e gives `text[start:e + 1]` as the span |
| CppFunction.GenerateExpressionUntilChar | lib/freecad_stub_gen/generators/common/cpp_function.py:56-89 | fails exactly when the separator is a backslash, a double quote or one of the brackets; otherwise yields the pieces of the top-level split |
| CppFunction.ReadSplitChar | lib/freecad_stub_gen/generators/common/cpp_function.py:70-87 | one character updates escape, quote and depth state and keeps, cuts or stops as the lexer specifies |
| CppFunction.SplitChar | lib/freecad_stub_gen/generators/common/cpp_function.py:69-88 | one loop iteration preserves the relation between the pieces yielded so far and the final split, or ends it at an unmatched closing bracket |
| CppFunction.SplitRestRebuilds | lib/freecad_stub_gen/generators/common/cpp_function.py:80-89 | without an early stop, joining the pieces with the separator rebuilds the text, the last piece yielded even if empty; after a stop, the joined pieces are the text before the unmatched closing bracket |
| CppFunction.SplitStopsOnlyBelowZero | lib/freecad_stub_gen/generators/common/cpp_function.py:80-84 | the split stops early only at a closing bracket present in the text |
| CppFunction.PlainRun | lib/freecad_stub_gen/generators/common/cpp_function.py:78-88 | text with no escape, quote, bracket or top-level separator joins the current piece whole |
| CppFunction.InsideQuotes | lib/freecad_stub_gen/generators/common/cpp_function.py:74-77 | inside double quotes, separators and brackets are ignored |
| CppFunction.QuotedRun | lib/freecad_stub_gen/generators/common/cpp_function.py:74-77 | a double-quoted span joins the current piece whole, commas included |
| CppFunction.GroupRun | lib/freecad_stub_gen/generators/common/cpp_function.py:78-85 | a bracketed group joins the current piece whole, commas inside it included |
| CppFunction.CutRun | lib/freecad_stub_gen/generators/common/cpp_function.py:85-87 | a separator at depth 0 ends the current piece and starts an empty one |
| CppFunction.FieldThenSep | lib/freecad_stub_gen/generators/common/cpp_function.py:85-87 | a plain field followed by the separator becomes one piece |
| CppFunction.LastField | lib/freecad_stub_gen/generators/common/cpp_function.py:89 | the trailing field is always yielded as the last piece |
| CppFunction.StopAfterField | lib/freecad_stub_gen/generators/common/cpp_function.py:80-84 | an unmatched closing bracket ends the split, and nothing after it is yielded |
| CppFunction.FieldsAndGroup | lib/freecad_stub_gen/generators/common/cpp_function.py:69-89 | plain fields around a bracketed group split into the fields and the whole group |
| CppFunction.NestedGroupExample | lib/freecad_stub_gen/generators/common/cpp_function.py:69-89 | `a,b,(c,d),e` splits into `a`, `b`, `(c,d)`, `e` |
| CppFunction.FieldsAndQuoted | lib/freecad_stub_gen/generators/common/cpp_function.py:69-89 | plain fields around a quoted field split into the fields and the whole quoted text |
| CppFunction.QuotedCommaExample | lib/freecad_stub_gen/generators/common/cpp_function.py:69-89 | `a,"b,c",d` splits into `a`, `"b,c"`, `d` |
| CppFunction.StrippedNonEmptyTrimmed | lib/freecad_stub_gen/generators/common/cpp_function.py:95-97 | every argument kept is non-empty and has no surrounding whitespace |
| CppFunction.StrippedNonEmptyKeepsTrimmed | lib/freecad_stub_gen/generators/common/cpp_function.py:95-97 | on pieces that are already stripped and non-empty, the filter changes nothing |
| CppFunction.StripArguments | lib/freecad_stub_gen/generators/common/cpp_function.py:95-97 | the loop keeps exactly the stripped, non-empty pieces, in order |
| CppFunction.GenFuncArgs | lib/freecad_stub_gen/generators/common/cpp_function.py:92-97 | fails exactly when locating the call fails; otherwise returns the stripped non-empty top-level pieces between the first `(` and the last `)` of the call, each of them trimmed |
| ArgumentsConverter.TablesAgree | lib/freecad_stub_gen/generators/common/arguments_converter.py:318-331 | the type table and the slot-count table have the same format units, and every unit has a non-empty type |
| ArgumentsConverter.HashRows | lib/freecad_stub_gen/generators/common/arguments_converter.py:276-294 | `s#` and `es#` are `str` with 2 and 3 C targets |
| ArgumentsConverter.GroupRows | lib/freecad_stub_gen/generators/common/arguments_converter.py:299-316 | `i` is `int` with 1 target and `)` has no target |
| ArgumentsConverter.UnitsStartWithInitials | lib/freecad_stub_gen/generators/common/arguments_converter.py:273-317 | every format unit is non-empty and starts with one of the table's initial characters |
| ArgumentsConverter.LongUnits | lib/freecad_stub_gen/generators/common/arguments_converter.py:273-317 | only the three-character units `es#` and `et#` exist, and every longer unit starts with a character that may begin one |
| ArgumentsConverter.SpecialUnits | lib/freecad_stub_gen/generators/common/arguments_converter.py:312-316 | `O!`, `(` and `)` are table units |
| ArgumentsConverter.ArgName | lib/freecad_stub_gen/generators/common/arguments_converter.py:215-222 | the keyword-list entry at `argNum` when keywords are allowed and it exists, else `"arg"` plus `argNumStart + argNum` |
| ArgumentsConverter.DefaultValue | lib/freecad_stub_gen/generators/common/arguments_converter.py:224-229 | the default is `None` exactly for optional arguments, otherwise `Parameter.empty` |
| ArgumentsConverter.QuotedNamesRoundTrip | lib/freecad_stub_gen/generators/common/arguments_converter.py:103-107 | quoting names and then extracting the quoted keyword entries gives the names back |
| ArgumentsConverter.QuotedNamesSkipsUnquoted | lib/freecad_stub_gen/generators/common/arguments_converter.py:104-107 | entries not starting with `"` are dropped |
| ArgumentsConverter.KwargList | lib/freecad_stub_gen/generators/common/arguments_converter.py:91-107 | empty for positional-only functions or without a keyword-array match; otherwise at most one name per top-level entry of the last match |
| ArgumentsConverter.QuotedNamesAppend | lib/freecad_stub_gen/generators/common/arguments_converter.py:104-107 | the names are taken entry by entry, in order: the keyword list of two runs of entries is the list of the first followed by that of the second |
| ArgumentsConverter.QuotedNamesMembers | lib/freecad_stub_gen/generators/common/arguments_converter.py:104-107 | a name is in the keyword list exactly when some entry starts and ends with `"` and is that name between the quotes |
| ArgumentsConverter.QuotedNamesThenOthers | lib/freecad_stub_gen/generators/common/arguments_converter.py:104-107 | quoted names followed by unquoted entries such as `NULL` give exactly those names, in order |
| ArgumentsConverter.KwargListOfInitialiser | lib/freecad_stub_gen/generators/common/arguments_converter.py:99-107 | when the whitespace-free split of the last match is quoted names followed by unquoted entries (`{"a", "b", NULL}`), the keyword list is exactly those names, in order |
| ArgumentsConverter.ArgumentStringsRebuild | lib/freecad_stub_gen/generators/common/arguments_converter.py:57-59 | for any whitespace-free call text: without an early stop, the argument strings split from it, joined by commas, are that text after its first `(` |
| ArgumentsConverter.PointerConversion | lib/freecad_stub_gen/generators/common/arguments_converter.py:191-201 | `…::Type` resolves to a class and records its module; `Py…` is looked up in the C-type table and raises `KeyError` when absent; anything else is unconverted; only a class pointer adds an import |
| ArgumentsConverter.PointerResolution | lib/freecad_stub_gen/generators/common/arguments_converter.py:164-189 | an index past the arguments is reported as not enough arguments; the result is invalid exactly then or for an argument that is neither `&…` nor `…::type_object()` |
| ArgumentsConverter.SwappedTypeWhenNextResolves | lib/freecad_stub_gen/generators/common/arguments_converter.py:178-186 | an unknown pointer form reports a swapped type exactly when the next slot resolves, and an unknown format otherwise; imports are those of the next slot |
| ArgumentsConverter.PointerForms | lib/freecad_stub_gen/generators/common/arguments_converter.py:164-199 | `&X::Type` gives the class and its module import; `&Py…` in the table gives its Python type; `…::type_object()` gives `typing.Any` with a `typing` import; an empty argument raises `IndexError` |
| ArgumentsConverter.IntPairType | lib/freecad_stub_gen/generators/common/arguments_converter.py:206-210 | a frame of two `int` renders as `tuple[int, int]` |
| ArgumentsConverter.Accept | lib/freecad_stub_gen/generators/common/arguments_converter.py:135-148 | a matched unit always advances `realArgNum` by its slot count and consumes text; outside a group it yields exactly one parameter and increments `argNum`; inside a group it yields nothing |
| ArgumentsConverter.ClaimUnit | lib/freecad_stub_gen/generators/common/arguments_converter.py:123-148 | one candidate length either consumes text or leaves the scan unchanged apart from imports |
| ArgumentsConverter.TryUnits | lib/freecad_stub_gen/generators/common/arguments_converter.py:122-149 | trying the candidate lengths in turn either consumes text or leaves the scan unchanged apart from imports |
| ArgumentsConverter.Step | lib/freecad_stub_gen/generators/common/arguments_converter.py:121-160 | every iteration that continues consumes at least one character, so the scan terminates; a halting iteration keeps the parameters already yielded |
| ArgumentsConverter.StepYields | lib/freecad_stub_gen/generators/common/arguments_converter.py:135-155 | an iteration yields at most one parameter, appended with the current name, kind and default; optional is never undone and keyword-only is never left |
| ArgumentsConverter.RunKeepsYielded | lib/freecad_stub_gen/generators/common/arguments_converter.py:120-162 | the whole scan only appends parameters, including when an invalid pointer ends it |
| ArgumentsConverter.InitialKind | lib/freecad_stub_gen/generators/common/arguments_converter.py:110-118 | the kind starts as positional-or-keyword exactly when the keyword list is non-empty, and no argument is optional yet |
| ArgumentsConverter.ControlCharacters | lib/freecad_stub_gen/generators/common/arguments_converter.py:149-160 | a vertical bar makes later arguments optional; `$` also makes them keyword-only; `:` and `;` end the scan; any other character is skipped |
| ArgumentsConverter.ColonEndsScan | lib/freecad_stub_gen/generators/common/arguments_converter.py:156-157 | `:` or `;` finishes the scan with nothing more yielded |
| ArgumentsConverter.LongestMatch | lib/freecad_stub_gen/generators/common/arguments_converter.py:122-148 | the longest candidate of length 3, 2 or 1 found in the table is the unit consumed |
| ArgumentsConverter.HashUnitsAreSingleTokens | lib/freecad_stub_gen/generators/common/arguments_converter.py:122-148 | `s#` and `es#` are each one `str` parameter, advancing `realArgNum` by 2 and 3 |
| ArgumentsConverter.OpenGroup | lib/freecad_stub_gen/generators/common/arguments_converter.py:127-130 | `(` pushes an empty frame and yields nothing |
| ArgumentsConverter.CloseGroup | lib/freecad_stub_gen/generators/common/arguments_converter.py:132-137 | `)` pops the innermost frame and handles its tuple type as one unit; with no open frame it raises `IndexError` |
| ArgumentsConverter.TupleGroup | lib/freecad_stub_gen/generators/common/arguments_converter.py:127-148 | `(ii)` at top level yields one parameter annotated `tuple[int, int]` and advances `realArgNum` by 2 |
| ArgumentsConverter.UnquoteQuote | lib/freecad_stub_gen/generators/common/arguments_converter.py:78 | removing one quote from each end of a quoted literal gives its text back |
| ArgumentsConverter.ClearFormatOfLiterals | lib/freecad_stub_gen/generators/common/arguments_converter.py:75-79 | the cleaned format string is the concatenation of the literals' contents |
| ArgumentsConverter.ClearFormatString | lib/freecad_stub_gen/generators/common/arguments_converter.py:75-78 | the loop builds the cleaned format string |
| ArgumentsConverter.WithoutMacros | lib/freecad_stub_gen/generators/common/arguments_converter.py:82-85 | keeps exactly the arguments without a forbidden macro name, and no others |
| ArgumentsConverter.PySet | lib/freecad_stub_gen/generators/common/arguments_converter.py:79 | Python item assignment keeps the length and stores the value at the possibly negative index |
| ArgumentsConverter.RemoveMacros | lib/freecad_stub_gen/generators/common/arguments_converter.py:74-85 | raises `IndexError` exactly when the format slot does not exist |
| ArgumentsConverter.RemoveMacrosKeeps | lib/freecad_stub_gen/generators/common/arguments_converter.py:74-85 | the slots before the format string are kept and the format slot holds the cleaned string; the arguments after it are kept unless the call uses `PARAM_REF(`, and then only those without forbidden macros remain |
| ArgumentsConverter.PrepareOutcomes | lib/freecad_stub_gen/generators/common/arguments_converter.py:33-49 | construction raises `ValueError` exactly for a negative call start; on success the format slot holds the cleaned format string, positional-only functions get no keyword list, and otherwise the keyword-array slot exists |
| ArgumentsConverter.PrepareCallOutcomes | lib/freecad_stub_gen/generators/common/arguments_converter.py:47-49 | once the call is located nothing raises `ValueError`, and the same success guarantees hold |
| ArgumentsConverter.NewTypesConverter | lib/freecad_stub_gen/generators/common/arguments_converter.py:23-49 | construction fails exactly as the preparation does; otherwise the new converter holds the prepared arguments and keyword list, the given settings and an empty frame stack |
| ArgumentsConverter.TypesConverter.constructor | lib/freecad_stub_gen/generators/common/arguments_converter.py:33-45 | every field is set from the arguments and the frame stack starts empty |
| ArgumentsConverter.TypesConverter.StartSequenceParsing | lib/freecad_stub_gen/generators/common/arguments_converter.py:203-204 | pushes an empty frame |
| ArgumentsConverter.TypesConverter.EndSequenceParsing | lib/freecad_stub_gen/generators/common/arguments_converter.py:206-210 | pops the innermost frame and returns its tuple type; on an empty stack raises `IndexError` and changes nothing |
| ArgumentsConverter.TypesConverter.AddElementToSequence | lib/freecad_stub_gen/generators/common/arguments_converter.py:212-213 | appends the type to the innermost frame only |
| ArgumentsConverter.TypesConverter.ConvertPointerToType | lib/freecad_stub_gen/generators/common/arguments_converter.py:191-201 | returns the pointer conversion and adds only its import |
| ArgumentsConverter.TypesConverter.FindPointerType | lib/freecad_stub_gen/generators/common/arguments_converter.py:164-189 | returns the pointer resolution, recursing into the next slot as the source does, and adds only its imports |
| ArgumentsConverter.TypesConverter.AcceptUnit | lib/freecad_stub_gen/generators/common/arguments_converter.py:135-148 | the frame stack after a matched unit is the one the scan state specifies |
| ArgumentsConverter.TypesConverter.TryFormatSize | lib/freecad_stub_gen/generators/common/arguments_converter.py:123-148 | one candidate length as specified, with the frame stack and imports kept in step |
| ArgumentsConverter.TypesConverter.TryPointer | lib/freecad_stub_gen/generators/common/arguments_converter.py:124-125 | an `O!` candidate resolves its pointer type as specified, a failure ending the scan |
| ArgumentsConverter.TypesConverter.ReadFormatUnit | lib/freecad_stub_gen/generators/common/arguments_converter.py:121-160 | one iteration of the loop is one scan step, fields kept in step |
| ArgumentsConverter.TypesConverter.ConvertFormatToTypes | lib/freecad_stub_gen/generators/common/arguments_converter.py:109-162 | the parameters, the reason the scan stopped, the frame stack and the imports are those of the specified scan from the cleaned format string |
| ExceptionsContainer.BaseNamespaceRules | lib/freecad_stub_gen/generators/exceptions/container.py:23-30 | an explicit base namespace is kept; otherwise it is `__python__` for a `PyExc…` base, else the exception's raw module |
| ExceptionsContainer.OwnNamespaceRules | lib/freecad_stub_gen/generators/exceptions/container.py:18-37 | the own namespace defaults to the raw module, `OCCError` is stored as `PartExceptionOCCError`, and the Python module is the converted raw module |
| ExceptionsContainer.ExceptionData.constructor | lib/freecad_stub_gen/generators/exceptions/container.py:17-39 | the fields are the record built from the first two arguments, with no required imports |
| ExceptionsContainer.QuotedNameArguments | lib/freecad_stub_gen/generators/exceptions/container.py:95-103 | the usual call `"Mod.Err", Base, nullptr` gives exactly three stripped arguments, the quoted name kept whole |
| ExceptionsContainer.DedupFirstWins | lib/freecad_stub_gen/generators/exceptions/container.py:88-93 | the kept matches have distinct names, none seen before, each the first match with its name |
| ExceptionsContainer.DedupCoversNames | lib/freecad_stub_gen/generators/exceptions/container.py:88-93 | every name not seen before is kept once |
| ExceptionsContainer.FirstNamed | lib/freecad_stub_gen/generators/exceptions/container.py:88-93 | the first match with a name is one of the matches and has that name, or no match has it |
| ExceptionsContainer.CollectIsDedup | lib/freecad_stub_gen/generators/exceptions/container.py:86-104 | the registry holds the records of the deduplicated matches, or raises `IndexError` when a kept match has fewer than two arguments |
| ExceptionsContainer.FindExceptions | lib/freecad_stub_gen/generators/exceptions/container.py:86-104 | the new records, or the error, are those of the deduplicated matches; every record is new and has no imports |
| ExceptionsContainer.SplitCalls | lib/freecad_stub_gen/generators/exceptions/container.py:95-103 | each match's argument text is split at top-level commas and stripped |
| ExceptionsContainer.SplitExceptionArgs | lib/freecad_stub_gen/generators/exceptions/container.py:98-103 | one argument text split at top-level commas and stripped |
| ExceptionsContainer.StripArgs | lib/freecad_stub_gen/generators/exceptions/container.py:96-103 | every piece stripped, in order |
| ExceptionsContainer.CollectCalls | lib/freecad_stub_gen/generators/exceptions/container.py:88-104 | the loop with its `seen` set produces the deduplicated records or the first error |
| ExceptionsContainer.FirstData | lib/freecad_stub_gen/generators/exceptions/container.py:106-112 | the first record matching both class and namespace, or none matches |
| ExceptionsContainer.GetExceptionData | lib/freecad_stub_gen/generators/exceptions/container.py:106-112 | returns the first record matching both class and namespace, else raises `ValueError` naming them |
| ExceptionsContainer.FirstWithClass | lib/freecad_stub_gen/generators/exceptions/container.py:115-119 | the first record with the class, whatever its namespace, or none has it |
| ExceptionsContainer.ExceptionTextFound | lib/freecad_stub_gen/generators/exceptions/container.py:114-119 | a record with the same class wins, rendered as its qualified name |
| ExceptionsContainer.QualifiedBase | lib/freecad_stub_gen/generators/exceptions/container.py:118-119 | the module `Base` is rendered as `FreeCAD.Base` and any other module as itself |
| ExceptionsContainer.ExceptionTextFallback | lib/freecad_stub_gen/generators/exceptions/container.py:121-131 | without a record, a `PyExc_` prefix is stripped, then `getPyExceptionType()` gives `Exception`, else `ValueError` is raised |
| ExceptionsContainer.GetExceptionText | lib/freecad_stub_gen/generators/exceptions/container.py:114-131 | the method follows that fallback order |
| ExceptionsContainer.AddOrdered | lib/freecad_stub_gen/generators/exceptions/container.py:48 | adding to the ordered set makes the module a member, keeps the others, and changes nothing when it is already there |
| ExceptionsContainer.BaseClassRules | lib/freecad_stub_gen/generators/exceptions/container.py:41-50 | a builtin base is its class without `PyExc_`; any other base exists exactly when a record matches, and is that record's `module.Class`, its module to be imported |
| ExceptionsContainer.ExceptionData.Str | lib/freecad_stub_gen/generators/exceptions/container.py:41-51 | renders `class <pyClass>(<base>):` with a `pass` body; imports the base's module only for a looked-up base; a failed lookup changes nothing |
| Ordering.StrLessOrder | lib/freecad_stub_gen/generators/types_enum.py:32 | Python's string comparison is a strict total order |
| Ordering.PairLessOrder | lib/freecad_stub_gen/generators/types_enum.py:35 | the comparison of `(name, originalType)` tuples is a strict total order |
| Ordering.LeastExists | lib/freecad_stub_gen/generators/types_enum.py:32-35 | a non-empty set has a least element |
| Ordering.SortedProperties | lib/freecad_stub_gen/generators/types_enum.py:32-35 | `sorted` of a set is strictly increasing, holds exactly its elements and has its size |
| Ordering.Least | lib/freecad_stub_gen/generators/types_enum.py:32-35 | the loop finds the least element of a non-empty set |
| Ordering.SortSet | lib/freecad_stub_gen/generators/types_enum.py:32-35 | the loop returns `sorted` of the set |
| TypesEnum.ReplaceColons | lib/freecad_stub_gen/generators/types_enum.py:19 | the result is empty exactly when the input is, and a first character other than `:` is kept |
| TypesEnum.ReplaceColonsComplete | lib/freecad_stub_gen/generators/types_enum.py:19 | no `::` is left in the result |
| TypesEnum.ReplaceColonsIdentity | lib/freecad_stub_gen/generators/types_enum.py:19 | text without `:` is unchanged |
| TypesEnum.ClassifySplit | lib/freecad_stub_gen/generators/types_enum.py:18-24 | a type name with `_` splits at its first `_`: a non-empty prefix without `_` plus `_` plus the name rebuild it, and the original type is the space-free match |
| TypesEnum.ClassifyCommon | lib/freecad_stub_gen/generators/types_enum.py:25-27 | a type name without `_` gets prefix `Common` and keeps the whole name |
| TypesEnum.ClassifySkips | lib/freecad_stub_gen/generators/types_enum.py:21-24 | an entry is skipped exactly when its type name starts with `_`, so its prefix is empty |
| TypesEnum.CollectMembers | lib/freecad_stub_gen/generators/types_enum.py:13-29 | a pair is in a prefix's set exactly when some entry carried it |
| TypesEnum.GroupMembers | lib/freecad_stub_gen/generators/types_enum.py:13-29 | a (name, originalType) pair is under a prefix exactly when some match classifies to it |
| TypesEnum.GroupNonEmpty | lib/freecad_stub_gen/generators/types_enum.py:13-29 | every prefix present has at least one pair |
| TypesEnum.GroupRepeat | lib/freecad_stub_gen/generators/types_enum.py:13-29 | a repeated match changes nothing, since a set is used |
| TypesEnum.FillGroups | lib/freecad_stub_gen/generators/types_enum.py:13-29 | the grouping loop builds the specified map of prefix to set |
| TypesEnum.Prefixes | lib/freecad_stub_gen/generators/types_enum.py:32 | the prefixes rendered are exactly the map's keys |
| TypesEnum.PrefixOrder | lib/freecad_stub_gen/generators/types_enum.py:32 | classes come in strictly increasing prefix order, one per prefix |
| TypesEnum.ConstantOrder | lib/freecad_stub_gen/generators/types_enum.py:34-36 | a class body lists its pairs in strictly increasing order, each exactly once |
| TypesEnum.TypesTextShape | lib/freecad_stub_gen/generators/types_enum.py:31-39 | the text starts with `# fmt: off\n` and ends with exactly one newline after a non-space character |
| TypesEnum.NoTypes | lib/freecad_stub_gen/generators/types_enum.py:31-39 | without matches the text is just the header |
| TypesEnum.RenderClass | lib/freecad_stub_gen/generators/types_enum.py:33-37 | one class: `class <prefix>:` and its sorted `name = 'originalType'` lines, indented, followed by blank lines |
| TypesEnum.SortedPrefixes | lib/freecad_stub_gen/generators/types_enum.py:32 | the prefixes sorted |
| TypesEnum.AppendClasses | lib/freecad_stub_gen/generators/types_enum.py:32-37 | the loop appends the classes in prefix order |
| TypesEnum.RenderTypes | lib/freecad_stub_gen/generators/types_enum.py:31-39 | the rendered text is the header plus the classes, right-stripped, plus one newline |
| TypesEnum.GenerateTypes | lib/freecad_stub_gen/generators/types_enum.py:12-39 | the whole function: the text rendered from the grouping of the matches |

## Left out

- Reading the C++ sources (`genCppFiles`, `readContent`) and writing `type_consts.py` are I/O and not modelled.
- The regular expressions are not modelled. Their matches are inputs: `REG_STRING`, the keyword-array pattern, `REG_NEW_EXCEPTION` and `initType`.
- The naming helpers and `indent` are not part of this model. They are total function parameters, so the model does not capture any exception they raise. One example is `getModuleName(..., required=True)` on a name without a module.
- Logging calls have no effect on results and are dropped, as are `xmlPath` and `functionName`, which only appear in log messages.
- `_typeFinder` / `ReturnTypeConverter` is not used by the scan and is not part of this model.
- `AnnotationParam` and `RawRepr` are represented by the `Param` datatype. The annotation is the text of the type.
- `convertFormatToTypes` is a generator. The model returns all its parameters at once, together with the reason the scan stopped. A consumer that stops early is not modelled.
- The module-global writes `parseTypeMap['O!']` and `parseTypeMap[')']` are modelled as a per-step override. This is how the source uses them: each is written just before it is read.
- `requiredImports` is a set shared with the caller in the source. The model keeps it as a field of value type, so the aliasing with the caller's set is not captured.
- `ExceptionData.requiredImports` (an `OrderedStrSet`) is modelled as a sequence without repeats.
- `ExceptionData.__repr__`, `checkAllExceptionsCorrect`, `_genExceptions` and the module-level registry construction are not modelled. `__repr__` only formats a display string, `checkAllExceptionsCorrect` discards what `repr` returns, and the other two run at import time over the registry of source files, so none of them produces a result the scan uses.
- ExceptionsContainer.FindExceptions: it splits the argument text of every match before dropping repeated names. The source splits only the kept ones. Splitting is pure and total, so the records and errors are the same.
- ArgumentsConverter.Prepare: it carries no contract of its own; `ArgumentsConverter.PrepareOutcomes` states its outcomes.
- ArgumentsConverter.TupleType: its own contract only says the text is non-empty; `ArgumentsConverter.IntPairType` and `ArgumentsConverter.TupleGroup` state the rendering.
- ExceptionsContainer.Dedup: its own contract only bounds the length; `ExceptionsContainer.DedupFirstWins` and `ExceptionsContainer.DedupCoversNames` state what is kept.
- Python's `sorted` is modelled for sets only, by its unique strictly increasing result. The stability of Timsort does not matter for distinct elements.
