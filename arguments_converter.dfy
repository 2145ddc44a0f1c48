/**
  Format-string type inference for `PyArg_ParseTuple` call sites
  (lib/freecad_stub_gen/generators/common/arguments_converter.py).

  `TypesConverter.convertFormatToTypes` reads a CPython format string one format unit at a
  time, longest match first, and yields one parameter per top-level unit. Its specification is
  the recursive function `Run` over a `Scan` state, one `Step` per iteration of the source's
  `while` loop and `TryUnits` for the inner `for` loop over the candidate lengths 3, 2, 1. The
  class `TypesConverter` keeps on the object what the source keeps there (the stack of tuple
  frames and `requiredImports`), and its methods are proved equal to those functions.
*/
module ArgumentsConverter {
  import opened Wrappers
  import opened Text
  import opened CppFunction

  // ---------------------------------------------------------------------------
  // Lookup tables
  // ---------------------------------------------------------------------------

  /** The format units of the C API table. */
  const Units: set<string> := {
    "s", "s*", "s#", "z", "z*", "z#", "y", "y*", "y#", "S", "Y", "u", "u#", "Z", "Z#", "U",
    "w*", "es", "et", "es#", "et#", "b", "B", "h", "H", "i", "I", "l", "k", "L", "K", "n", "c",
    "C", "f", "d", "D", "O", "O!", "O&", "p", "(", ")"}

  /** The first word of a unit's Python column, with the three byte-buffer spellings read as
      `bytes` and `object` as `typing.Any`. */
  function UnitType(unit: string): string {
    match unit
    case "s" | "s*" | "s#" | "z" | "z*" | "z#" | "u" | "u#" | "Z" | "Z#" | "U" => "str"
    case "es" | "et" | "es#" | "et#" | "C" => "str"
    case "y" | "y*" | "y#" | "S" | "w*" | "c" => "bytes"
    case "Y" => "bytearray"
    case "b" | "B" | "h" | "H" | "i" | "I" | "l" | "k" | "L" | "K" | "n" => "int"
    case "f" | "d" => "float"
    case "D" => "complex"
    case "O" | "O!" | "O&" => "typing.Any"
    case "p" => "bool"
    case "(" | ")" => "tuple"
    case _ => ""
  }

  /** The number of comma-separated C targets in a unit's C column. */
  function UnitSize(unit: string): nat {
    match unit
    case "s#" | "z#" | "y#" | "u#" | "Z#" | "es" | "et" | "O!" | "O&" => 2
    case "es#" | "et#" => 3
    case "(" | ")" => 0
    case _ => 1
  }

  /** `parseTypeMap`: Python type of each format unit. */
  const ParseTypeMap: map<string, string> := map u | u in Units :: UnitType(u)

  /** `parseSizeMap`: how many call arguments each format unit consumes. */
  const ParseSizeMap: map<string, nat> := map u | u in Units :: UnitSize(u)

  /** The C type-object names of the conversion table, with `_Type` appended. The header row
      and the `-` entry of the table's third column are keys as well. */
  const CTypeNames: set<string> := {
    "Rust (Python-native)_Type", "PyAny_Type", "PyUnicode_Type", "PyBytes_Type", "PyBool_Type",
    "PyLong_Type", "PyFloat_Type", "PyComplex_Type", "PyList_Type", "PyDict_Type",
    "PyTuple_Type", "PySet_Type", "PyFrozenSet_Type", "PyByteArray_Type", "PySlice_Type",
    "PyType_Type", "PyModule_Type", "PyDateTime_Type", "PyDate_Type", "PyTime_Type",
    "PyTzInfo_Type", "PyDelta_Type", "-_Type", "PySequence_Type", "PyIterator_Type",
    "PyClass_Type"}

  /** The Python column of the conversion table, cut at its first `[`. */
  function CTypeRow(name: string): string {
    match name
    case "Rust (Python-native)_Type" => "Python"
    case "PyAny_Type" => "object"
    case "PyUnicode_Type" => "str"
    case "PyBytes_Type" => "bytes"
    case "PyBool_Type" => "bool"
    case "PyLong_Type" => "int"
    case "PyFloat_Type" => "float"
    case "PyComplex_Type" => "complex"
    case "PyList_Type" => "list"
    case "PyDict_Type" => "dict"
    case "PyTuple_Type" => "tuple"
    case "PySet_Type" => "set"
    case "PyFrozenSet_Type" => "frozenset"
    case "PyByteArray_Type" => "bytearray"
    case "PySlice_Type" => "slice"
    case "PyType_Type" => "type"
    case "PyModule_Type" => "module"
    case "PyDateTime_Type" => "datetime.datetime"
    case "PyDate_Type" => "datetime.date"
    case "PyTime_Type" => "datetime.time"
    case "PyTzInfo_Type" => "datetime.tzinfo"
    case "PyDelta_Type" => "datetime.timedelta"
    case "-_Type" => "typing.Optional"
    case "PySequence_Type" => "typing.Sequence"
    case "PyIterator_Type" => "typing.Iterator"
    case "PyClass_Type" => "typing.Type"
    case _ => ""
  }

  /** `cTypeToPythonType` */
  const CTypeToPythonType: map<string, string> := map n | n in CTypeNames :: CTypeRow(n)

  /** Both format tables cover the same units, and every unit has a non-empty type, so a unit
      found in `parseTypeMap` is always consumed. */
  lemma TablesAgree()
    ensures ParseTypeMap.Keys == ParseSizeMap.Keys == Units
    ensures forall u :: u in ParseTypeMap ==> ParseTypeMap[u] != []
  {
    forall u | u in Units
      ensures UnitType(u) != []
    {
    }
  }

  // ---------------------------------------------------------------------------
  // Parameters, names and defaults
  // ---------------------------------------------------------------------------

  datatype Kind = PositionalOnly | PositionalOrKeyword | KeywordOnly

  /** `Parameter.empty` for a required parameter, `None` for an optional one. */
  datatype Default = Required | DefaultsToNone

  /** The `AnnotationParam` the scan yields: name, kind, default and annotation text. */
  datatype Param = Param(name: string, kind: Kind, default: Default, annotation: string)

  /** What a converter knows about its call site: the argument strings (format string already
      cleaned of macros), the keyword list, and the naming and module-lookup helpers. */
  datatype Context = Context(
    args: seq<string>,
    kwargs: seq<string>,
    onlyPositional: bool,
    argNumStart: int,
    classWithModules: string -> string,
    moduleName: string -> string)

  /** `_getArgName`: the keyword-list entry when there is one, `arg<n>` otherwise. */
  function ArgName(ctx: Context, argNum: nat): (r: string)
    ensures !ctx.onlyPositional && argNum < |ctx.kwargs| ==> r == ctx.kwargs[argNum]
    ensures ctx.onlyPositional || argNum >= |ctx.kwargs| ==> r == "arg" + IntToString(ctx.argNumStart + argNum)
  {
    if !ctx.onlyPositional && argNum < |ctx.kwargs| then ctx.kwargs[argNum]
    else "arg" + IntToString(ctx.argNumStart + argNum)
  }

  /** `_getDefaultValue` */
  function DefaultValue(isArgOptional: bool): (r: Default)
    ensures r == DefaultsToNone <==> isArgOptional
  {
    if isArgOptional then DefaultsToNone else Required
  }

  // ---------------------------------------------------------------------------
  // Keyword list
  // ---------------------------------------------------------------------------

  /** The entries that start and end with `"`, with the first and the last character removed. */
  function QuotedNames(pieces: seq<string>): (r: seq<string>)
    ensures |r| <= |pieces|
  {
    if pieces == [] then []
    else
      var kw := pieces[0];
      (if StartsWith(kw, "\"") && EndsWith(kw, "\"") then [Slice(kw, 1, -1)] else [])
      + QuotedNames(pieces[1..])
  }

  /** `"name"` */
  function Quote(name: string): string {
    "\"" + name + "\""
  }

  function QuoteAll(names: seq<string>): (r: seq<string>)
    ensures |r| == |names|
    ensures forall i :: 0 <= i < |names| ==> r[i] == Quote(names[i])
  {
    if names == [] then [] else [Quote(names[0])] + QuoteAll(names[1..])
  }

  /** Quoting a list of names and reading the keyword list back gives the names again. */
  lemma {:induction false} QuotedNamesRoundTrip(names: seq<string>)
    ensures QuotedNames(QuoteAll(names)) == names
  {
    if names != [] {
      var q := QuoteAll(names);
      var n := names[0];
      assert q[0] == Quote(n);
      assert Quote(n)[..1] == "\"" && Quote(n)[|Quote(n)| - 1..] == "\"";
      assert Slice(Quote(n), 1, -1) == n by {
        if n != [] {
          assert Quote(n)[1..|n| + 1] == n;
        }
      }
      assert q[1..] == QuoteAll(names[1..]);
      QuotedNamesRoundTrip(names[1..]);
    }
  }

  /** Entries that are not quoted do not reach the keyword list. */
  lemma {:induction false} QuotedNamesSkipsUnquoted(pieces: seq<string>)
    requires forall i :: 0 <= i < |pieces| ==> pieces[i] == [] || pieces[i][0] != '"'
    ensures QuotedNames(pieces) == []
  {
    if pieces != [] {
      assert !StartsWith(pieces[0], "\"");
      QuotedNamesSkipsUnquoted(pieces[1..]);
    }
  }

  /** The keyword list of two runs of entries is the keyword list of the first followed by that of
      the second: with the one-entry case, this fixes the list entry by entry, in order. */
  lemma {:induction false} QuotedNamesAppend(a: seq<string>, b: seq<string>)
    ensures QuotedNames(a + b) == QuotedNames(a) + QuotedNames(b)
  {
    if a == [] {
      assert a + b == b;
    } else {
      assert (a + b)[0] == a[0];
      assert (a + b)[1..] == a[1..] + b;
      QuotedNamesAppend(a[1..], b);
    }
  }

  /** A name is in the keyword list exactly when some entry is that name in quotes. */
  lemma {:induction false} QuotedNamesMembers(pieces: seq<string>, x: string)
    ensures x in QuotedNames(pieces) <==>
      exists i :: 0 <= i < |pieces| && StartsWith(pieces[i], "\"") && EndsWith(pieces[i], "\"")
        && Slice(pieces[i], 1, -1) == x
  {
    if pieces != [] {
      QuotedNamesMembers(pieces[1..], x);
      if exists i :: 0 <= i < |pieces[1..]| && StartsWith(pieces[1..][i], "\"")
          && EndsWith(pieces[1..][i], "\"") && Slice(pieces[1..][i], 1, -1) == x {
        var i :| 0 <= i < |pieces[1..]| && StartsWith(pieces[1..][i], "\"")
          && EndsWith(pieces[1..][i], "\"") && Slice(pieces[1..][i], 1, -1) == x;
        assert pieces[i + 1] == pieces[1..][i];
      }
      if exists i :: 0 <= i < |pieces| && StartsWith(pieces[i], "\"") && EndsWith(pieces[i], "\"")
          && Slice(pieces[i], 1, -1) == x {
        var i :| 0 <= i < |pieces| && StartsWith(pieces[i], "\"") && EndsWith(pieces[i], "\"")
          && Slice(pieces[i], 1, -1) == x;
        if i > 0 {
          assert pieces[1..][i - 1] == pieces[i];
        }
      }
    }
  }

  /** The usual initialiser: quoted names followed by unquoted entries such as `NULL`. */
  lemma QuotedNamesThenOthers(names: seq<string>, others: seq<string>)
    requires forall i :: 0 <= i < |others| ==> others[i] == [] || others[i][0] != '"'
    ensures QuotedNames(QuoteAll(names) + others) == names
  {
    QuotedNamesAppend(QuoteAll(names), others);
    QuotedNamesRoundTrip(names);
    QuotedNamesSkipsUnquoted(others);
  }

  /** When the last matched initialiser splits into quoted names followed by unquoted entries
      (`{"a", "b", NULL}`), the keyword list is exactly those names, in order. */
  lemma KwargListOfInitialiser(matches: seq<string>, names: seq<string>, others: seq<string>)
    requires matches != []
    requires SplitTop(RemoveSpaces(matches[|matches| - 1]), 0, ',', '(', ')').pieces
      == QuoteAll(names) + others
    requires forall i :: 0 <= i < |others| ==> others[i] == [] || others[i][0] != '"'
    ensures KwargList(false, matches) == names
  {
    QuotedNamesThenOthers(names, others);
  }

  /** `_getKwargList`, given the texts the keyword-array pattern matched in the declarations. */
  function KwargList(onlyPositional: bool, matches: seq<string>): (r: seq<string>)
    ensures onlyPositional || matches == [] ==> r == []
    ensures |r| <= |SplitTop(RemoveSpaces(Last(matches)), 0, ',', '(', ')').pieces|
  {
    if onlyPositional || matches == [] then []
    else QuotedNames(SplitTop(RemoveSpaces(matches[|matches| - 1]), 0, ',', '(', ')').pieces)
  }

  function Last(matches: seq<string>): string {
    if matches == [] then [] else matches[|matches| - 1]
  }

  /** `_getArgumentString`: the top-level arguments of the located call with whitespace removed. */
  function ArgumentStrings(funCall: string): seq<string> {
    ArgsOf(RemoveSpaces(funCall)).pieces
  }

  /** The split of the whitespace-free call text after its first `(`. */
  function ArgsOf(sub: string): Pieces {
    SplitTop(sub, Find(sub, '(') + 1, ',', '(', ')')
  }

  /** Unless a stray `)` ends the split early, the argument strings joined by commas are the
      whitespace-free call text `sub` after its first `(`. */
  lemma ArgumentStringsRebuild(sub: string)
    ensures !ArgsOf(sub).stopped ==> Join(ArgsOf(sub).pieces, ",") == sub[Find(sub, '(') + 1..]
  {
    FindBound(sub, '(');
    SplitTopRebuilds(sub, Find(sub, '(') + 1, ',', '(', ')');
  }

  /** The position after a found character is within the text. */
  lemma FindBound(s: string, c: char)
    ensures 0 <= Find(s, c) + 1 <= |s|
  {
  }

  // ---------------------------------------------------------------------------
  // Pointer resolution for `O!`
  // ---------------------------------------------------------------------------

  /** Exceptions that escape the scan. */
  datatype PythonError = IndexError | KeyError(key: string) | ValueError

  /** The three messages `InvalidPointerFormat` carries. */
  datatype PointerError = NotEnoughArguments | UnknownPointerFormat(arg: string) | SwappedType

  datatype Resolution = Resolved(typ: string) | Invalid(reason: PointerError) | Raised(err: PythonError)

  datatype Conversion = Converted(typ: string) | Unconverted | ConvertRaised(err: PythonError)

  /** Python's `seq[k]` accepts `-|seq| <= k < |seq|`. */
  predicate PyIndexable(n: nat, k: int) {
    -(n as int) <= k < n
  }

  function PyAt(s: seq<string>, k: int): string
    requires PyIndexable(|s|, k)
  {
    if k < 0 then s[|s| + k] else s[k]
  }

  /** The pointer text with a leading `&`, a leading `(` and a trailing `)` removed. */
  function PointerCore(pointerArg: string): string {
    RemoveSuffix(RemovePrefix(RemovePrefix(pointerArg, "&"), "("), ")")
  }

  /** `_convertPointerToType`: the type and the imports it adds. */
  function PointerConversion(ctx: Context, pointerArg: string): (r: (Conversion, set<string>))
    ensures r.0.Unconverted? <==> !EndsWith(PointerCore(pointerArg), "::Type") && !StartsWith(PointerCore(pointerArg), "Py")
    ensures r.0.ConvertRaised? <==> !EndsWith(PointerCore(pointerArg), "::Type") && StartsWith(PointerCore(pointerArg), "Py")
                                    && PointerCore(pointerArg) !in CTypeToPythonType
    ensures r.1 != {} ==> r.0.Converted? && r.1 == {ctx.moduleName(r.0.typ)}
  {
    var p := PointerCore(pointerArg);
    if EndsWith(p, "::Type") then
      var c := ctx.classWithModules(p);
      (Converted(c), {ctx.moduleName(c)})
    else if StartsWith(p, "Py") then
      if p in CTypeToPythonType then (Converted(CTypeToPythonType[p]), {}) else (ConvertRaised(KeyError(p)), {})
    else (Unconverted, {})
  }

  /** `_findPointerType(k)`: the resolution and every import added on the way, including those
      added while looking ahead at slot `k + 1`. */
  function PointerResolution(ctx: Context, k: int): (r: (Resolution, set<string>))
    ensures r.0 == Invalid(NotEnoughArguments) <==> !PyIndexable(|ctx.args|, k)
    ensures r.0.Invalid? <==> !PyIndexable(|ctx.args|, k)
                              || (var arg := PyAt(ctx.args, k);
                                  arg != [] && arg[0] != '&' && !EndsWith(arg, "::type_object()"))
    decreases |ctx.args| - k
  {
    if !PyIndexable(|ctx.args|, k) then (Invalid(NotEnoughArguments), {})
    else
      var arg := PyAt(ctx.args, k);
      if arg == [] then (Raised(IndexError), {})
      else if arg[0] == '&' then
        var (c, imports) := PointerConversion(ctx, arg[1..]);
        match c
        case Converted(t) => (Resolved(t), imports)
        case ConvertRaised(e) => (Raised(e), imports)
        case Unconverted => (Resolved("typing.Any"), imports + {"typing"})
      else if EndsWith(arg, "::type_object()") then (Resolved("typing.Any"), {"typing"})
      else
        var (ahead, imports) := PointerResolution(ctx, k + 1);
        (Invalid(if ahead.Resolved? then SwappedType else UnknownPointerFormat(arg)), imports)
  }

  /** The look-ahead only chooses the message: an argument that is neither a `&` pointer nor a
      type object is reported as swapped exactly when the next slot resolves, and whatever the
      next slot raises never escapes. */
  lemma SwappedTypeWhenNextResolves(ctx: Context, k: int)
    requires PyIndexable(|ctx.args|, k)
    requires var arg := PyAt(ctx.args, k); arg != [] && arg[0] != '&' && !EndsWith(arg, "::type_object()")
    ensures PointerResolution(ctx, k).0 == Invalid(SwappedType) <==> PointerResolution(ctx, k + 1).0.Resolved?
    ensures PointerResolution(ctx, k).0 == Invalid(UnknownPointerFormat(PyAt(ctx.args, k))) <==> !PointerResolution(ctx, k + 1).0.Resolved?
    ensures PointerResolution(ctx, k).1 == PointerResolution(ctx, k + 1).1
  {
  }

  /** A `&X::Type` pointer resolves to the class the naming helper gives and imports its module;
      a `::type_object()` call or an unknown `&` kind falls back to `typing.Any`. */
  lemma PointerForms(ctx: Context, k: int)
    requires PyIndexable(|ctx.args|, k)
    ensures var arg := PyAt(ctx.args, k);
            var r := PointerResolution(ctx, k);
            && (arg != [] && arg[0] == '&' && EndsWith(PointerCore(arg[1..]), "::Type") ==>
                  var c := ctx.classWithModules(PointerCore(arg[1..]));
                  r == (Resolved(c), {ctx.moduleName(c)}))
            && (arg != [] && arg[0] == '&' && PointerCore(arg[1..]) in CTypeToPythonType
                && !EndsWith(PointerCore(arg[1..]), "::Type") && StartsWith(PointerCore(arg[1..]), "Py") ==>
                  r == (Resolved(CTypeToPythonType[PointerCore(arg[1..])]), {}))
            && (arg != [] && arg[0] != '&' && EndsWith(arg, "::type_object()") ==>
                  r == (Resolved("typing.Any"), {"typing"}))
            && (arg == [] ==> r.0 == Raised(IndexError))
  {
  }

  // ---------------------------------------------------------------------------
  // The scan
  // ---------------------------------------------------------------------------

  /** Everything the loop of `convertFormatToTypes` reads and writes: its locals, the frame stack,
      the imports, and the parameters yielded so far. */
  datatype Scan = Scan(
    fmt: string,
    realArgNum: int,
    argNum: nat,
    optional: bool,
    kind: Kind,
    stack: seq<seq<string>>,
    imports: set<string>,
    params: seq<Param>)

  /** How the scan ended: the format string ran out (or hit `:`/`;`), an `InvalidPointerFormat`
      was caught, or an exception escaped. */
  datatype Stop = Finished | PointerStop(reason: PointerError) | Crashed(err: PythonError)

  /** One candidate length of the inner loop: a unit was consumed, none matched, or the scan ends. */
  datatype Attempt = Consumed(s: Scan) | Unmatched(s: Scan) | Halted(s: Scan, stop: Stop)

  /** One iteration of the outer loop. */
  datatype Next = Continue(s: Scan) | Halt(s: Scan, stop: Stop)

  /** `tuple[...]` for a closed frame. */
  function TupleType(frame: seq<string>): (r: string)
    ensures r != []
  {
    "tuple[" + Join(frame, ", ") + "]"
  }

  /** A matched unit `cur` of length `size` with type `t`: appended to the innermost frame inside
      a group, yielded as a parameter outside one; either way the unit's slots are counted. */
  function Accept(ctx: Context, s: Scan, cur: string, size: nat, t: string): (r: Scan)
    requires s.fmt != [] && size > 0 && cur in ParseSizeMap
    ensures |r.fmt| < |s.fmt|
    ensures r.realArgNum == s.realArgNum + ParseSizeMap[cur]
    ensures r.optional == s.optional && r.kind == s.kind && r.imports == s.imports
    ensures s.stack == [] ==> r.stack == [] && r.argNum == s.argNum + 1 && |r.params| == |s.params| + 1
                              && r.params[..|s.params|] == s.params
                              && YieldedFrom(ctx, s, r.params[|s.params|]) && r.params[|s.params|].annotation == t
    ensures s.stack != [] ==> r.stack != [] && r.argNum == s.argNum && r.params == s.params
  {
    var s1 :=
      if s.stack != [] then s.(stack := s.stack[..|s.stack| - 1] + [s.stack[|s.stack| - 1] + [t]])
      else s.(params := s.params + [Param(ArgName(ctx, s.argNum), s.kind, DefaultValue(s.optional), t)],
              argNum := s.argNum + 1);
    s1.(realArgNum := s.realArgNum + ParseSizeMap[cur], fmt := Drop(s.fmt, size))
  }

  /** A parameter the scan yields from state `s`. */
  predicate YieldedFrom(ctx: Context, s: Scan, p: Param) {
    p.name == ArgName(ctx, s.argNum) && p.kind == s.kind && p.default == DefaultValue(s.optional)
  }

  /** `s'` has yielded nothing more than `s`, or exactly one parameter at the top level. */
  predicate YieldsAtMostOne(ctx: Context, s: Scan, s': Scan) {
    || (s'.params == s.params && s'.argNum == s.argNum)
    || (&& s'.stack == [] && |s.stack| <= 1
        && s'.argNum == s.argNum + 1
        && |s'.params| == |s.params| + 1 && s'.params[..|s.params|] == s.params
        && YieldedFrom(ctx, s, s'.params[|s.params|]))
  }

  /** One iteration of the inner `for` loop: the candidate `formatStr[:size]`. It is unmatched
      when it is not in the table, or when it is `O!` and the pointer resolves to an empty type
      (the imports added by the resolution stay). */
  function ClaimUnit(ctx: Context, s: Scan, size: nat): (r: Attempt)
    requires s.fmt != [] && 0 < size <= 3
    ensures r.Consumed? ==> |r.s.fmt| < |s.fmt|
    ensures !r.Consumed? ==> r.s == s.(imports := r.s.imports)
  {
    var cur := Take(s.fmt, size);
    if cur == "O!" then
      var (res, imports) := PointerResolution(ctx, s.realArgNum);
      var s1 := s.(imports := s.imports + imports);
      match res
      case Invalid(reason) => Halted(s1, PointerStop(reason))
      case Raised(e) => Halted(s1, Crashed(e))
      case Resolved(t) => if t != [] then Consumed(Accept(ctx, s1, cur, size, t)) else Unmatched(s1)
    else if cur == "(" then
      Consumed(s.(stack := s.stack + [[]], fmt := Drop(s.fmt, size)))
    else if cur == ")" then
      if s.stack == [] then Halted(s, Crashed(IndexError))
      else
        var t := TupleType(s.stack[|s.stack| - 1]);
        Consumed(Accept(ctx, s.(stack := s.stack[..|s.stack| - 1]), cur, size, t))
    else if cur in ParseTypeMap && ParseTypeMap[cur] != [] then
      Consumed(Accept(ctx, s, cur, size, ParseTypeMap[cur]))
    else Unmatched(s)
  }

  /** The inner `for` loop from candidate length `size` down to 1; its `else` branch runs when
      the result is `Unmatched`. */
  function TryUnits(ctx: Context, s: Scan, size: nat): (r: Attempt)
    requires s.fmt != [] && size <= 3
    ensures r.Consumed? ==> |r.s.fmt| < |s.fmt|
    ensures !r.Consumed? ==> r.s == s.(imports := r.s.imports)
    decreases size
  {
    if size == 0 then Unmatched(s)
    else
      match ClaimUnit(ctx, s, size)
      case Unmatched(s1) => TryUnits(ctx, s1, size - 1)
      case other => other
  }

  /** Accepting a unit in `s`, where `s` is `s0` or `s0` with its innermost frame popped,
      yields at most one parameter relative to `s0`. */
  lemma AcceptYields(ctx: Context, s0: Scan, s: Scan, cur: string, size: nat, t: string)
    requires s.fmt != [] && size > 0 && cur in ParseSizeMap
    requires s.params == s0.params && s.argNum == s0.argNum && s.kind == s0.kind && s.optional == s0.optional
    requires s.stack == s0.stack || (s0.stack != [] && s.stack == s0.stack[..|s0.stack| - 1])
    ensures var r := Accept(ctx, s, cur, size, t);
            r.optional == s0.optional && r.kind == s0.kind && YieldsAtMostOne(ctx, s0, r)
  {
    var r := Accept(ctx, s, cur, size, t);
    if s.stack == [] {
      assert YieldedFrom(ctx, s, r.params[|s.params|]);
    }
  }

  /** A consumed candidate keeps the flags and yields at most one parameter. */
  lemma ClaimUnitYields(ctx: Context, s: Scan, size: nat)
    requires s.fmt != [] && 0 < size <= 3
    ensures var r := ClaimUnit(ctx, s, size);
            r.Consumed? ==> r.s.optional == s.optional && r.s.kind == s.kind && YieldsAtMostOne(ctx, s, r.s)
  {
    var cur := Take(s.fmt, size);
    if cur == "O!" {
      var (res, imports) := PointerResolution(ctx, s.realArgNum);
      if res.Resolved? && res.typ != [] {
        AcceptYields(ctx, s, s.(imports := s.imports + imports), cur, size, res.typ);
      }
    } else if cur == "(" {
    } else if cur == ")" {
      if s.stack != [] {
        AcceptYields(ctx, s, s.(stack := s.stack[..|s.stack| - 1]), cur, size, TupleType(s.stack[|s.stack| - 1]));
      }
    } else if cur in ParseTypeMap && ParseTypeMap[cur] != [] {
      AcceptYields(ctx, s, s, cur, size, ParseTypeMap[cur]);
    }
  }

  /** Trying the candidate lengths keeps the flags, and yields nothing inside a group and at
      most one parameter, named and marked from the current state, outside one. */
  lemma {:induction false} TryUnitsYields(ctx: Context, s: Scan, size: nat)
    requires s.fmt != [] && size <= 3
    ensures var r := TryUnits(ctx, s, size);
            r.Consumed? ==> r.s.optional == s.optional && r.s.kind == s.kind && YieldsAtMostOne(ctx, s, r.s)
    decreases size
  {
    if size > 0 {
      ClaimUnitYields(ctx, s, size);
      var c := ClaimUnit(ctx, s, size);
      if c.Unmatched? {
        TryUnitsYields(ctx, c.s, size - 1);
      }
    }
  }

  /** One iteration of `while formatStr`: the longest matching unit, or else one control or
      unknown character. */
  function Step(ctx: Context, s: Scan): (r: Next)
    requires s.fmt != []
    ensures r.Continue? ==> |r.s.fmt| < |s.fmt|
    ensures r.Halt? ==> r.s.params == s.params
  {
    match TryUnits(ctx, s, 3)
    case Consumed(s') => Continue(s')
    case Halted(s', stop) => Halt(s', stop)
    case Unmatched(s') =>
      var c := s'.fmt[0];
      var s2 :=
        if c == '|' then s'.(optional := true)
        else if c == '$' then s'.(optional := true, kind := KeywordOnly)
        else s';
      Continue(s2.(fmt := if c == ':' || c == ';' then [] else s'.fmt[1..]))
  }

  /** The whole `try: while formatStr: ...` block from state `s`. */
  function Run(ctx: Context, s: Scan): (Scan, Stop)
    decreases |s.fmt|
  {
    if s.fmt == [] then (s, Finished)
    else
      match Step(ctx, s)
      case Continue(s') => Run(ctx, s')
      case Halt(s', stop) => (s', stop)
  }

  /** The state `convertFormatToTypes` starts from. */
  function Initial(ctx: Context, fmt: string, realStartArgNum: int, stack: seq<seq<string>>, imports: set<string>): Scan {
    Scan(fmt, realStartArgNum, 0, false, if ctx.kwargs != [] then PositionalOrKeyword else PositionalOnly,
         stack, imports, [])
  }

  /** `convertFormatToTypes` with the format string at `formatStrPosition`. */
  function FormatToTypes(ctx: Context, formatStrPosition: int, realStartArgNum: int, stack: seq<seq<string>>, imports: set<string>): (Scan, Stop) {
    if !PyIndexable(|ctx.args|, formatStrPosition) then
      (Initial(ctx, [], realStartArgNum, stack, imports), Crashed(IndexError))
    else Run(ctx, Initial(ctx, PyAt(ctx.args, formatStrPosition), realStartArgNum, stack, imports))
  }

  // ---------------------------------------------------------------------------
  // What the scan promises
  // ---------------------------------------------------------------------------

  /** One iteration yields at most one parameter, and `|` and `$` are never undone: an
      optional scan stays optional and a keyword-only scan stays keyword-only. */
  lemma StepYields(ctx: Context, s: Scan)
    requires s.fmt != []
    ensures var r := Step(ctx, s);
            r.Continue? ==> && YieldsAtMostOne(ctx, s, r.s)
                            && (s.optional ==> r.s.optional)
                            && (r.s.kind == s.kind || r.s.kind == KeywordOnly)
                            && (s.kind == KeywordOnly ==> r.s.kind == KeywordOnly)
  {
    TryUnitsYields(ctx, s, 3);
  }

  /** A parameter yielded after state `s` respects its flags: `None` default once optional,
      keyword-only once keyword-only, and otherwise the current kind or keyword-only. */
  predicate Marked(s: Scan, p: Param) {
    && (s.optional ==> p.default == DefaultsToNone)
    && (p.kind == s.kind || p.kind == KeywordOnly)
    && (s.kind == KeywordOnly ==> p.kind == KeywordOnly)
  }

  /** `fin` keeps the parameters of `s` and every parameter it adds is marked by `s`. */
  predicate Extends(s: Scan, fin: Scan) {
    && |s.params| <= |fin.params| && fin.params[..|s.params|] == s.params
    && forall i | |s.params| <= i < |fin.params| :: Marked(s, fin.params[i])
  }

  /** The flags only move forward from `s` to `s'`. */
  predicate FlagsForward(s: Scan, s': Scan) {
    && (s.optional ==> s'.optional)
    && (s'.kind == s.kind || s'.kind == KeywordOnly)
    && (s.kind == KeywordOnly ==> s'.kind == KeywordOnly)
  }

  lemma ExtendsTrans(s: Scan, s': Scan, fin: Scan)
    requires Extends(s, s') && Extends(s', fin) && FlagsForward(s, s')
    ensures Extends(s, fin)
  {
    forall i | |s.params| <= i < |fin.params|
      ensures Marked(s, fin.params[i])
    {
      if i < |s'.params| {
        assert fin.params[i] == s'.params[i];
      }
    }
  }

  lemma YieldsExtend(ctx: Context, s: Scan, s': Scan)
    requires YieldsAtMostOne(ctx, s, s') || s'.params == s.params
    ensures Extends(s, s')
  {
    if s'.params != s.params {
      assert YieldedFrom(ctx, s, s'.params[|s.params|]);
    }
  }

  /** The parameters already yielded are kept however the scan ends, including when an
      `InvalidPointerFormat` stops it, and every later one is marked by the flags in force:
      `|` and `$` are never undone. */
  lemma {:induction false} RunKeepsYielded(ctx: Context, s: Scan)
    ensures Extends(s, Run(ctx, s).0)
    decreases |s.fmt|
  {
    if s.fmt != [] {
      StepYields(ctx, s);
      var r := Step(ctx, s);
      YieldsExtend(ctx, s, r.s);
      if r.Continue? {
        RunKeepsYielded(ctx, r.s);
        ExtendsTrans(s, r.s, Run(ctx, r.s).0);
      }
    }
  }

  /** The parameter kind starts as positional-or-keyword exactly when there is a keyword list. */
  lemma InitialKind(ctx: Context, fmt: string, realStartArgNum: int, stack: seq<seq<string>>, imports: set<string>)
    ensures var s := Initial(ctx, fmt, realStartArgNum, stack, imports);
            && (s.kind == PositionalOrKeyword <==> ctx.kwargs != [])
            && (s.kind == PositionalOnly <==> ctx.kwargs == [])
            && !s.optional && s.params == [] && s.argNum == 0
  {
  }

  /** The characters a format unit can start with. */
  predicate UnitInitial(c: char) {
    c in {'s', 'z', 'y', 'u', 'S', 'Y', 'Z', 'U', 'w', 'e', 'b', 'B', 'h', 'H', 'i', 'I', 'l', 'k',
          'L', 'K', 'n', 'c', 'C', 'f', 'd', 'D', 'O', 'p', '(', ')'}
  }

  /** Every unit of the table starts with a unit initial. */
  lemma UnitsStartWithInitials()
    ensures forall u :: u in ParseTypeMap ==> u != [] && UnitInitial(u[0])
  {
    forall u | u in Units
      ensures u != [] && UnitInitial(u[0])
    {
    }
  }

  /** A character no unit starts with is handled by the `else` branch of the inner loop:
      `|` makes the scan optional, `$` optional and keyword-only, `:` and `;` end it, and any
      other character is skipped. Nothing is yielded. */
  lemma ControlCharacters(ctx: Context, s: Scan)
    requires s.fmt != [] && !UnitInitial(s.fmt[0])
    ensures var c := s.fmt[0];
            Step(ctx, s) == Continue(
              if c == '|' then s.(optional := true, fmt := s.fmt[1..])
              else if c == '$' then s.(optional := true, kind := KeywordOnly, fmt := s.fmt[1..])
              else if c == ':' || c == ';' then s.(fmt := [])
              else s.(fmt := s.fmt[1..]))
  {
    forall size | 0 < size <= 3
      ensures ClaimUnit(ctx, s, size) == Unmatched(s)
    {
      var cur := Take(s.fmt, size);
      assert cur[0] == s.fmt[0];
      UnitsStartWithInitials();
    }
  }

  /** `:` and `;` end the scan with nothing more yielded. */
  lemma ColonEndsScan(ctx: Context, s: Scan)
    requires s.fmt != [] && (s.fmt[0] == ':' || s.fmt[0] == ';')
    ensures Run(ctx, s) == (s.(fmt := []), Finished)
  {
    ControlCharacters(ctx, s);
    var s' := s.(fmt := []);
    assert Step(ctx, s) == Continue(s');
    assert Run(ctx, s') == (s', Finished);
  }

  /** The characters a unit longer than one character can start with. */
  predicate MultiInitial(c: char) {
    c in {'s', 'z', 'y', 'u', 'Z', 'w', 'e', 'O'}
  }

  /** Only `s`, `z`, `y`, `u`, `Z`, `w`, `e` and `O` begin units longer than one character, and the
      only three-character units are `es#` and `et#`. */
  lemma LongUnits()
    ensures forall u :: u in ParseTypeMap && |u| > 1 ==> MultiInitial(u[0])
    ensures forall u :: u in ParseTypeMap && |u| > 2 ==> u == "es#" || u == "et#"
  {
    forall u | u in Units
      ensures |u| > 1 ==> MultiInitial(u[0])
      ensures |u| > 2 ==> u == "es#" || u == "et#"
    {
    }
  }

  /** A unit of the table has a non-empty type. */
  lemma UnitHasType(u: string)
    requires u in ParseTypeMap
    ensures ParseTypeMap[u] != []
  {
    TablesAgree();
  }

  /** The three units the inner loop treats specially are in the table. */
  lemma SpecialUnits()
    ensures "O!" in ParseTypeMap && "(" in ParseTypeMap && ")" in ParseTypeMap
  {
    assert "O!" in Units && "(" in Units && ")" in Units;
  }

  /** Only the one-character candidate can be a unit when the first character cannot start a
      longer one. */
  lemma OnlySingleUnit(fmt: string)
    requires fmt != [] && !MultiInitial(fmt[0])
    ensures forall m :: 1 < m <= 3 && m <= |fmt| ==> Take(fmt, m) !in ParseTypeMap
  {
    LongUnits();
    forall m | 1 < m <= 3 && m <= |fmt|
      ensures Take(fmt, m) !in ParseTypeMap
    {
      assert Take(fmt, m)[0] == fmt[0];
    }
  }

  /** A three-character candidate that does not start with `e` is not a unit. */
  lemma NoThreeCharacterUnit(x: string)
    requires |x| == 3 && x[0] != 'e'
    ensures x !in ParseTypeMap
  {
    LongUnits();
  }

  /** Nor is the three-character candidate of a format string that does not start with `e`. */
  lemma NoThreeCharacterCandidate(fmt: string)
    requires fmt != [] && fmt[0] != 'e'
    ensures forall m :: 2 < m <= 3 && m <= |fmt| ==> Take(fmt, m) !in ParseTypeMap
  {
    if |fmt| >= 3 {
      assert Take(fmt, 3)[0] == fmt[0];
      NoThreeCharacterUnit(Take(fmt, 3));
    }
  }

  /** A candidate that is not in the table is unmatched. */
  lemma ClaimMiss(ctx: Context, s: Scan, size: nat)
    requires s.fmt != [] && 0 < size <= 3 && Take(s.fmt, size) !in ParseTypeMap
    ensures ClaimUnit(ctx, s, size) == Unmatched(s)
  {
    SpecialUnits();
  }

  /** An ordinary unit of the table is consumed. */
  lemma ClaimHit(ctx: Context, s: Scan, size: nat)
    requires s.fmt != [] && 0 < size <= 3
    requires var u := Take(s.fmt, size); u in ParseTypeMap && u != "O!" && u != "(" && u != ")"
    ensures var u := Take(s.fmt, size);
            ClaimUnit(ctx, s, size) == Consumed(Accept(ctx, s, u, size, ParseTypeMap[u]))
  {
    UnitHasType(Take(s.fmt, size));
  }

  /** A candidate length past the end of the format string consumes all of it. */
  lemma AcceptPastEnd(ctx: Context, s: Scan, u: string, j: nat, k: nat, t: string)
    requires s.fmt != [] && 0 < k <= j && k == |s.fmt| && u in ParseSizeMap
    ensures Accept(ctx, s, u, j, t) == Accept(ctx, s, u, k, t)
  {
    assert Drop(s.fmt, j) == Drop(s.fmt, k);
  }

  /** The inner loop from length `j` finds the unit of length `k` when no longer candidate up to
      `j` is in the table. */
  lemma {:induction false} TryUnitsFinds(ctx: Context, s: Scan, j: nat, k: nat)
    requires s.fmt != [] && 0 < k <= j <= 3 && k <= |s.fmt|
    requires var u := Take(s.fmt, k); u in ParseTypeMap && u != "O!" && u != "(" && u != ")"
    requires forall m :: k < m <= j && m <= |s.fmt| ==> Take(s.fmt, m) !in ParseTypeMap
    ensures var u := Take(s.fmt, k);
            TryUnits(ctx, s, j) == Consumed(Accept(ctx, s, u, k, ParseTypeMap[u]))
    decreases j
  {
    if j == k {
      TryHit(ctx, s, k);
    } else if j > |s.fmt| && k == |s.fmt| {
      TryHitPastEnd(ctx, s, j);
    } else {
      TryMissAt(ctx, s, j);
      TryUnitsFinds(ctx, s, j - 1, k);
    }
  }

  /** A candidate running past the end of the format string is the whole rest of it. */
  lemma TryHitPastEnd(ctx: Context, s: Scan, j: nat)
    requires s.fmt != [] && |s.fmt| < j <= 3
    requires var u := s.fmt; u in ParseTypeMap && u != "O!" && u != "(" && u != ")"
    ensures TryUnits(ctx, s, j) == Consumed(Accept(ctx, s, s.fmt, |s.fmt|, ParseTypeMap[s.fmt]))
  {
    assert Take(s.fmt, j) == s.fmt;
    TryHit(ctx, s, j);
    AcceptPastEnd(ctx, s, s.fmt, j, |s.fmt|, ParseTypeMap[s.fmt]);
  }

  /** `TryMiss` for a length that may run past the end of the format string. */
  lemma TryMissAt(ctx: Context, s: Scan, j: nat)
    requires s.fmt != [] && 0 < j <= 3
    requires j <= |s.fmt| ==> Take(s.fmt, j) !in ParseTypeMap
    requires j > |s.fmt| ==> Take(s.fmt, |s.fmt|) !in ParseTypeMap
    ensures TryUnits(ctx, s, j) == TryUnits(ctx, s, j - 1)
  {
    if j > |s.fmt| {
      assert Take(s.fmt, j) == Take(s.fmt, |s.fmt|);
    }
    TryMiss(ctx, s, j);
  }

  /** `ClaimHit`, for the inner loop. */
  lemma TryHit(ctx: Context, s: Scan, size: nat)
    requires s.fmt != [] && 0 < size <= 3
    requires var u := Take(s.fmt, size); u in ParseTypeMap && u != "O!" && u != "(" && u != ")"
    ensures var u := Take(s.fmt, size);
            TryUnits(ctx, s, size) == Consumed(Accept(ctx, s, u, size, ParseTypeMap[u]))
  {
    ClaimHit(ctx, s, size);
  }

  /** `ClaimMiss`, for the inner loop. */
  lemma TryMiss(ctx: Context, s: Scan, size: nat)
    requires s.fmt != [] && 0 < size <= 3 && Take(s.fmt, size) !in ParseTypeMap
    ensures TryUnits(ctx, s, size) == TryUnits(ctx, s, size - 1)
  {
    ClaimMiss(ctx, s, size);
  }

  /** Longest match: when the unit `formatStr[:k]` is in the table and no longer candidate is,
      the iteration consumes exactly that unit. */
  lemma LongestMatch(ctx: Context, s: Scan, k: nat)
    requires s.fmt != [] && 0 < k <= 3 && k <= |s.fmt|
    requires var u := Take(s.fmt, k); u in ParseTypeMap && u != "O!" && u != "(" && u != ")"
    requires forall m :: k < m <= 3 && m <= |s.fmt| ==> Take(s.fmt, m) !in ParseTypeMap
    ensures var u := Take(s.fmt, k);
            Step(ctx, s) == Continue(Accept(ctx, s, u, k, ParseTypeMap[u]))
  {
    TryUnitsFinds(ctx, s, 3, k);
  }

  /** The table rows of `s#` and `es#`. */
  lemma HashRows()
    ensures "s#" in ParseTypeMap && ParseTypeMap["s#"] == "str" && ParseSizeMap["s#"] == 2
    ensures "es#" in ParseTypeMap && ParseTypeMap["es#"] == "str" && ParseSizeMap["es#"] == 3
  {
    assert "s#" in Units && "es#" in Units;
    assert UnitType("s#") == "str" && UnitSize("s#") == 2;
    assert UnitType("es#") == "str" && UnitSize("es#") == 3;
  }

  /** A unit accepted at the top level becomes the next parameter. */
  lemma TopLevelAccept(ctx: Context, s: Scan, u: string, k: nat, t: string)
    requires s.fmt != [] && k > 0 && u in ParseSizeMap && s.stack == []
    ensures Accept(ctx, s, u, k, t) ==
              s.(fmt := Drop(s.fmt, k), realArgNum := s.realArgNum + ParseSizeMap[u], argNum := s.argNum + 1,
                 params := s.params + [Param(ArgName(ctx, s.argNum), s.kind, DefaultValue(s.optional), t)])
  {
  }

  /** `s#` and `es#` are single units: a top-level `s#` yields one `str` parameter and counts
      two call arguments, `es#` yields one `str` parameter and counts three. */
  lemma HashUnitsAreSingleTokens(ctx: Context, s: Scan, rest: string)
    requires s.stack == []
    ensures var p := Param(ArgName(ctx, s.argNum), s.kind, DefaultValue(s.optional), "str");
            && (s.fmt == "s#" + rest ==>
                  Step(ctx, s) == Continue(s.(fmt := rest, realArgNum := s.realArgNum + 2,
                                              argNum := s.argNum + 1, params := s.params + [p])))
            && (s.fmt == "es#" + rest ==>
                  Step(ctx, s) == Continue(s.(fmt := rest, realArgNum := s.realArgNum + 3,
                                              argNum := s.argNum + 1, params := s.params + [p])))
  {
    if s.fmt == "s#" + rest {
      ShortHashStep(ctx, s, rest);
    }
    if s.fmt == "es#" + rest {
      LongHashStep(ctx, s, rest);
    }
  }

  /** `s#` at the top level. */
  lemma ShortHashStep(ctx: Context, s: Scan, rest: string)
    requires s.stack == [] && s.fmt == "s#" + rest
    ensures Step(ctx, s) ==
              Continue(s.(fmt := rest, realArgNum := s.realArgNum + 2, argNum := s.argNum + 1,
                          params := s.params + [Param(ArgName(ctx, s.argNum), s.kind, DefaultValue(s.optional), "str")]))
  {
    HashAccept(ctx, s, "s#", rest);
    assert Take(s.fmt, 2) == "s#";
    NoThreeCharacterCandidate(s.fmt);
    LongestMatch(ctx, s, 2);
  }

  /** `es#` at the top level. */
  lemma LongHashStep(ctx: Context, s: Scan, rest: string)
    requires s.stack == [] && s.fmt == "es#" + rest
    ensures Step(ctx, s) ==
              Continue(s.(fmt := rest, realArgNum := s.realArgNum + 3, argNum := s.argNum + 1,
                          params := s.params + [Param(ArgName(ctx, s.argNum), s.kind, DefaultValue(s.optional), "str")]))
  {
    HashAccept(ctx, s, "es#", rest);
    assert Take(s.fmt, 3) == "es#";
    LongestMatch(ctx, s, 3);
  }

  /** The acceptance of `s#` or `es#` at the top level, without the iteration around it. */
  lemma HashAccept(ctx: Context, s: Scan, u: string, rest: string)
    requires s.stack == [] && s.fmt == u + rest && (u == "s#" || u == "es#")
    ensures u in ParseTypeMap && u in ParseSizeMap
    ensures Accept(ctx, s, u, |u|, ParseTypeMap[u]) ==
              s.(fmt := rest, realArgNum := s.realArgNum + |u|, argNum := s.argNum + 1,
                 params := s.params + [Param(ArgName(ctx, s.argNum), s.kind, DefaultValue(s.optional), "str")])
  {
    HashRows();
    TopLevelAccept(ctx, s, u, |u|, ParseTypeMap[u]);
    assert Drop(s.fmt, |u|) == rest;
  }

  /** A unit that is a single character and cannot start a longer unit is consumed alone. */
  lemma SingleCharacterUnit(ctx: Context, s: Scan)
    requires s.fmt != [] && [s.fmt[0]] in ParseTypeMap && !MultiInitial(s.fmt[0])
    requires s.fmt[0] != '(' && s.fmt[0] != ')'
    ensures var u := [s.fmt[0]];
            Step(ctx, s) == Continue(Accept(ctx, s, u, 1, ParseTypeMap[u]))
  {
    OnlySingleUnit(s.fmt);
    assert Take(s.fmt, 1) == [s.fmt[0]];
    LongestMatch(ctx, s, 1);
  }

  /** The inner loop from length `j` pushes a frame for a leading `(`. */
  lemma {:induction false} OpenGroupFrom(ctx: Context, s: Scan, j: nat)
    requires s.fmt != [] && s.fmt[0] == '(' && 0 < j <= 3
    ensures TryUnits(ctx, s, j) == Consumed(s.(stack := s.stack + [[]], fmt := s.fmt[1..]))
    decreases j
  {
    if j > |s.fmt| && |s.fmt| == 1 {
      assert Take(s.fmt, j) == "(";
      assert Drop(s.fmt, j) == s.fmt[1..];
    } else if j > 1 {
      OnlySingleUnit(s.fmt);
      if j > |s.fmt| {
        assert Take(s.fmt, j) == Take(s.fmt, |s.fmt|);
      }
      ClaimMiss(ctx, s, j);
      OpenGroupFrom(ctx, s, j - 1);
    } else {
      assert Take(s.fmt, 1) == "(";
      assert Drop(s.fmt, 1) == s.fmt[1..];
    }
  }

  /** `(` pushes an empty frame and yields nothing. */
  lemma OpenGroup(ctx: Context, s: Scan)
    requires s.fmt != [] && s.fmt[0] == '('
    ensures Step(ctx, s) == Continue(s.(stack := s.stack + [[]], fmt := s.fmt[1..]))
  {
    OpenGroupFrom(ctx, s, 3);
  }

  /** The inner loop from length `j` closes the innermost frame for a leading `)`, or raises
      `IndexError` when no frame is open. */
  lemma {:induction false} CloseGroupFrom(ctx: Context, s: Scan, j: nat)
    requires s.fmt != [] && s.fmt[0] == ')' && 0 < j <= 3
    ensures s.stack == [] ==> TryUnits(ctx, s, j) == Halted(s, Crashed(IndexError))
    ensures s.stack != [] ==>
              TryUnits(ctx, s, j) == Consumed(Accept(ctx, s.(stack := s.stack[..|s.stack| - 1]), ")", 1,
                                                     TupleType(s.stack[|s.stack| - 1])))
    decreases j
  {
    if j > 1 && (j > |s.fmt| ==> |s.fmt| > 1) {
      CloseMissAt(ctx, s, j);
      CloseGroupFrom(ctx, s, j - 1);
    } else {
      TryClose(ctx, s, j);
    }
  }

  /** A candidate longer than `)` itself is no unit. */
  lemma CloseMissAt(ctx: Context, s: Scan, j: nat)
    requires s.fmt != [] && s.fmt[0] == ')' && 1 < j <= 3 && (j > |s.fmt| ==> |s.fmt| > 1)
    ensures TryUnits(ctx, s, j) == TryUnits(ctx, s, j - 1)
  {
    OnlySingleUnit(s.fmt);
    if j > |s.fmt| {
      assert Take(s.fmt, j) == Take(s.fmt, |s.fmt|);
    }
    TryMiss(ctx, s, j);
  }

  /** The candidate that is `)` alone, possibly cut short by the end of the format string. */
  lemma TryClose(ctx: Context, s: Scan, j: nat)
    requires s.fmt != [] && s.fmt[0] == ')' && 0 < j <= 3 && (j > 1 ==> j > |s.fmt| == 1)
    ensures s.stack == [] ==> TryUnits(ctx, s, j) == Halted(s, Crashed(IndexError))
    ensures s.stack != [] ==>
              TryUnits(ctx, s, j) == Consumed(Accept(ctx, s.(stack := s.stack[..|s.stack| - 1]), ")", 1,
                                                     TupleType(s.stack[|s.stack| - 1])))
  {
    assert Take(s.fmt, j) == ")";
    ClaimClose(ctx, s, j);
    assert Drop(s.fmt, j) == Drop(s.fmt, 1);
  }

  /** The candidate `)` closes a frame or raises `IndexError`. */
  lemma ClaimClose(ctx: Context, s: Scan, size: nat)
    requires s.fmt != [] && 0 < size <= 3 && Take(s.fmt, size) == ")"
    ensures s.stack == [] ==> ClaimUnit(ctx, s, size) == Halted(s, Crashed(IndexError))
    ensures s.stack != [] ==>
              ClaimUnit(ctx, s, size) == Consumed(Accept(ctx, s.(stack := s.stack[..|s.stack| - 1]), ")", size,
                                                         TupleType(s.stack[|s.stack| - 1])))
  {
  }

  /** `)` pops the innermost frame and accepts it as one `tuple[...]` unit; with no frame open
      the source's `pop()` raises `IndexError`, which escapes. */
  lemma CloseGroup(ctx: Context, s: Scan)
    requires s.fmt != [] && s.fmt[0] == ')'
    ensures s.stack == [] ==> Step(ctx, s) == Halt(s, Crashed(IndexError))
    ensures s.stack != [] ==>
              Step(ctx, s) == Continue(Accept(ctx, s.(stack := s.stack[..|s.stack| - 1]), ")", 1,
                                              TupleType(s.stack[|s.stack| - 1])))
  {
    CloseGroupFrom(ctx, s, 3);
  }

  /** The table rows of `i`, `(` and `)`. */
  lemma GroupRows()
    ensures "i" in ParseTypeMap && ParseTypeMap["i"] == "int" && ParseSizeMap["i"] == 1
    ensures ")" in ParseSizeMap && ParseSizeMap[")"] == 0
  {
    assert "i" in Units && ")" in Units;
    assert UnitType("i") == "int" && UnitSize("i") == 1 && UnitSize(")") == 0;
  }

  /** An iteration that continues leaves the rest of the scan to the next one. */
  lemma RunContinues(ctx: Context, s: Scan, s': Scan)
    requires s.fmt != [] && Step(ctx, s) == Continue(s')
    ensures Run(ctx, s) == Run(ctx, s')
  {
  }

  /** A unit accepted inside a group is appended to the innermost frame. */
  lemma FrameAccept(ctx: Context, s: Scan, u: string, k: nat, t: string)
    requires s.fmt != [] && k > 0 && u in ParseSizeMap && s.stack != []
    ensures Accept(ctx, s, u, k, t) ==
              s.(fmt := Drop(s.fmt, k), realArgNum := s.realArgNum + ParseSizeMap[u],
                 stack := s.stack[..|s.stack| - 1] + [s.stack[|s.stack| - 1] + [t]])
  {
  }

  /** Inside a group, `i` appends `int` to the innermost frame and counts one call argument. */
  lemma IntInGroup(ctx: Context, s: Scan, rest: string)
    requires s.fmt == "i" + rest && s.stack != []
    ensures Step(ctx, s) == Continue(s.(fmt := rest, realArgNum := s.realArgNum + 1,
                                        stack := s.stack[..|s.stack| - 1] + [s.stack[|s.stack| - 1] + ["int"]]))
  {
    GroupRows();
    assert [s.fmt[0]] == "i";
    SingleCharacterUnit(ctx, s);
    FrameAccept(ctx, s, "i", 1, "int");
    assert Drop(s.fmt, 1) == rest;
  }

  /** Closing the only open frame yields it as one `tuple[...]` parameter. */
  lemma CloseTopGroup(ctx: Context, s: Scan, rest: string, frame: seq<string>)
    requires s.fmt == ")" + rest && s.stack == [frame]
    ensures Step(ctx, s) ==
              Continue(s.(fmt := rest, stack := [], argNum := s.argNum + 1,
                          params := s.params + [Param(ArgName(ctx, s.argNum), s.kind, DefaultValue(s.optional),
                                                      TupleType(frame))]))
  {
    CloseGroup(ctx, s);
    CloseTopAccept(ctx, s, rest, frame);
  }

  /** The acceptance of a closed top-level frame, without the table lookup of the iteration. */
  lemma CloseTopAccept(ctx: Context, s: Scan, rest: string, frame: seq<string>)
    requires s.fmt == ")" + rest && s.stack == [frame]
    ensures Accept(ctx, s.(stack := []), ")", 1, TupleType(frame)) ==
              s.(fmt := rest, stack := [], argNum := s.argNum + 1,
                 params := s.params + [Param(ArgName(ctx, s.argNum), s.kind, DefaultValue(s.optional),
                                             TupleType(frame))])
  {
    GroupRows();
    TopLevelAccept(ctx, s.(stack := []), ")", 1, TupleType(frame));
    assert Drop(s.fmt, 1) == rest;
  }

  /** The type of a closed frame of two `int` members. */
  lemma IntPairType()
    ensures TupleType(["int", "int"]) == "tuple[int, int]"
  {
    assert Join(["int"], ", ") == "int";
  }

  /** The frames of `(ii)` as its members are appended. */
  lemma FramesGrow()
    ensures [] + ["int"] == ["int"] && ["int"] + ["int"] == ["int", "int"]
  {
  }

  /** A top-level group `(ii)` yields one `tuple[int, int]` parameter and counts the two call
      arguments of its members; the scan then goes on with what follows the group. */
  lemma TupleGroup(ctx: Context, s: Scan, rest: string)
    requires s.fmt == "(ii)" + rest && s.stack == []
    ensures Run(ctx, s) ==
              Run(ctx, s.(fmt := rest, realArgNum := s.realArgNum + 2, argNum := s.argNum + 1,
                          params := s.params + [Param(ArgName(ctx, s.argNum), s.kind, DefaultValue(s.optional),
                                                      "tuple[int, int]")]))
  {
    var s1 := s.(stack := [[]], fmt := "ii)" + rest);
    var s4 := s.(fmt := rest, realArgNum := s.realArgNum + 2, argNum := s.argNum + 1,
                 params := s.params + [Param(ArgName(ctx, s.argNum), s.kind, DefaultValue(s.optional),
                                             "tuple[int, int]")]);
    assert Run(ctx, s) == Run(ctx, s1) by {
      TupleText(rest);
      OpenTopGroupRun(ctx, s, "ii)" + rest, s1);
    }
    assert Run(ctx, s1) == Run(ctx, s4) by {
      IntPairRun(ctx, s1, rest, s4);
    }
  }

  /** The format text of `(ii)` read one character at a time. */
  lemma TupleText(rest: string)
    ensures "(ii)" + rest == "(" + ("ii)" + rest)
    ensures "ii)" + rest == "i" + ("i)" + rest)
    ensures "i)" + rest == "i" + (")" + rest)
  {
  }

  /** `OpenGroup` at the top level, for the rest of the scan. */
  lemma OpenTopGroupRun(ctx: Context, s: Scan, rest: string, s': Scan)
    requires s.fmt == "(" + rest && s.stack == []
    requires s' == s.(stack := [[]], fmt := rest)
    ensures Run(ctx, s) == Run(ctx, s')
  {
    OpenGroup(ctx, s);
    assert s.fmt[1..] == rest;
    RunContinues(ctx, s, s');
  }

  /** Inside a frame opened at the top level, `ii)` closes a `tuple[int, int]` parameter. */
  lemma IntPairRun(ctx: Context, s: Scan, rest: string, s': Scan)
    requires s.fmt == "ii)" + rest && s.stack == [[]]
    requires s' == s.(fmt := rest, stack := [], realArgNum := s.realArgNum + 2, argNum := s.argNum + 1,
                      params := s.params + [Param(ArgName(ctx, s.argNum), s.kind, DefaultValue(s.optional),
                                                  "tuple[int, int]")])
    ensures Run(ctx, s) == Run(ctx, s')
  {
    var s2 := s.(stack := [["int"]], fmt := "i)" + rest, realArgNum := s.realArgNum + 1);
    TupleText(rest);
    FramesGrow();
    IntInGroupRun(ctx, s, "i)" + rest, [], s2);
    IntCloseRun(ctx, s2, rest, s');
  }

  /** Inside a frame holding one `int`, `i)` closes a `tuple[int, int]` parameter. */
  lemma IntCloseRun(ctx: Context, s: Scan, rest: string, s': Scan)
    requires s.fmt == "i)" + rest && s.stack == [["int"]]
    requires s' == s.(fmt := rest, stack := [], realArgNum := s.realArgNum + 1, argNum := s.argNum + 1,
                      params := s.params + [Param(ArgName(ctx, s.argNum), s.kind, DefaultValue(s.optional),
                                                  "tuple[int, int]")])
    ensures Run(ctx, s) == Run(ctx, s')
  {
    var s3 := s.(stack := [["int", "int"]], fmt := ")" + rest, realArgNum := s.realArgNum + 1);
    TupleText(rest);
    FramesGrow();
    IntInGroupRun(ctx, s, ")" + rest, ["int"], s3);
    IntPairType();
    CloseTopGroupRun(ctx, s3, rest, ["int", "int"], s');
  }

  /** `IntInGroup`, for the rest of the scan. */
  lemma IntInGroupRun(ctx: Context, s: Scan, rest: string, frame: seq<string>, s': Scan)
    requires s.fmt == "i" + rest && s.stack == [frame]
    requires s' == s.(fmt := rest, realArgNum := s.realArgNum + 1, stack := [frame + ["int"]])
    ensures Run(ctx, s) == Run(ctx, s')
  {
    IntInGroup(ctx, s, rest);
    assert s.stack[..|s.stack| - 1] + [s.stack[|s.stack| - 1] + ["int"]] == [frame + ["int"]];
    RunContinues(ctx, s, s');
  }

  /** `CloseTopGroup`, for the rest of the scan. */
  lemma CloseTopGroupRun(ctx: Context, s: Scan, rest: string, frame: seq<string>, s': Scan)
    requires s.fmt == ")" + rest && s.stack == [frame]
    requires s' == s.(fmt := rest, stack := [], argNum := s.argNum + 1,
                      params := s.params + [Param(ArgName(ctx, s.argNum), s.kind, DefaultValue(s.optional),
                                                  TupleType(frame))])
    ensures Run(ctx, s) == Run(ctx, s')
  {
    CloseTopGroup(ctx, s, rest, frame);
    RunContinues(ctx, s, s');
  }

  // ---------------------------------------------------------------------------
  // Construction: the call, its argument strings, the cleaned format string
  // ---------------------------------------------------------------------------

  /** A string literal as the literal pattern matches it, with one `"` removed from each end. */
  function Unquote(literal: string): (r: string)
    ensures |r| <= |literal|
  {
    RemovePrefix(RemoveSuffix(literal, "\""), "\"")
  }

  /** The cleaned format string: the literals found in the format argument, unquoted and
      concatenated, as C concatenates adjacent string literals. */
  function ClearFormat(literals: seq<string>): string {
    if literals == [] then [] else ClearFormat(literals[..|literals| - 1]) + Unquote(literals[|literals| - 1])
  }

  /** The loop of `_removeMacros` that builds `clearFormat`. */
  method ClearFormatString(literals: seq<string>) returns (clearFormat: string)
    ensures clearFormat == ClearFormat(literals)
  {
    clearFormat := "";
    var i := 0;
    while i < |literals|
      invariant i <= |literals|
      invariant clearFormat == ClearFormat(literals[..i])
    {
      assert literals[..i + 1][..i] == literals[..i];
      clearFormat := clearFormat + Unquote(literals[i]);
      i := i + 1;
    }
    assert literals[..i] == literals;
  }

  function Concat(parts: seq<string>): string {
    if parts == [] then [] else Concat(parts[..|parts| - 1]) + parts[|parts| - 1]
  }

  /** Unquoting undoes quoting. */
  lemma UnquoteQuote(name: string)
    ensures Unquote(Quote(name)) == name
  {
    var q := Quote(name);
    assert EndsWith(q, "\"") && q[..|q| - 1] == "\"" + name;
    assert StartsWith("\"" + name, "\"");
    assert ("\"" + name)[1..] == name;
  }

  /** Adjacent literals `"ab" "cd"` give the format string `abcd`. */
  lemma {:induction false} ClearFormatOfLiterals(names: seq<string>)
    ensures ClearFormat(QuoteAll(names)) == Concat(names)
  {
    if names != [] {
      var n := |names|;
      var q := QuoteAll(names);
      assert q[..n - 1] == QuoteAll(names[..n - 1]);
      UnquoteQuote(names[n - 1]);
      ClearFormatOfLiterals(names[..n - 1]);
    }
  }

  /** An argument that mentions one of `_FORBIDDEN_MACROS`. */
  predicate HasForbiddenMacro(arg: string) {
    Contains(arg, "PARAM_REF") || Contains(arg, "PARAM_FARG") || Contains(arg, "AREA_PARAMS_OPCODE")
  }

  /** The arguments that mention none of the forbidden macros, in their order. */
  function WithoutMacros(args: seq<string>): (r: seq<string>)
    ensures |r| <= |args|
    ensures forall x :: x in r ==> x in args && !HasForbiddenMacro(x)
    ensures forall x :: x in args && !HasForbiddenMacro(x) ==> x in r
  {
    if args == [] then []
    else (if HasForbiddenMacro(args[0]) then [] else [args[0]]) + WithoutMacros(args[1..])
  }

  /** `seq[k] = v` with Python's negative indices. */
  function PySet(s: seq<string>, k: int, v: string): (r: seq<string>)
    requires PyIndexable(|s|, k)
    ensures |r| == |s| && PyAt(r, k) == v
  {
    if k < 0 then s[|s| + k := v] else s[k := v]
  }

  /** `_removeMacros`: the format slot replaced by the cleaned format string and, when the call
      uses `PARAM_REF(`, the macro arguments after the format slot dropped. Indexing a missing
      format slot raises `IndexError`. */
  function RemoveMacros(args: seq<string>, formatStrPosition: int, funCall: string, literals: seq<string>)
    : (r: Result<seq<string>, PythonError>)
    ensures r.Failure? <==> !PyIndexable(|args|, formatStrPosition)
  {
    if !PyIndexable(|args|, formatStrPosition) then Failure(IndexError)
    else
      var cleared := PySet(args, formatStrPosition, ClearFormat(literals));
      if Contains(funCall, "PARAM_REF(") then
        var lo := Bound(formatStrPosition + 1, |cleared|);
        Success(cleared[..lo] + WithoutMacros(cleared[lo..]))
      else Success(cleared)
  }

  /** Without `PARAM_REF(` only the format slot changes, and it holds the cleaned format string;
      with it, the slots up to the format slot are kept and the rest lose their macro arguments. */
  lemma RemoveMacrosKeeps(args: seq<string>, formatStrPosition: int, funCall: string, literals: seq<string>)
    requires 0 <= formatStrPosition < |args|
    ensures var r := RemoveMacros(args, formatStrPosition, funCall, literals);
            && r.Success?
            && r.value[..formatStrPosition] == args[..formatStrPosition]
            && |r.value| > formatStrPosition && r.value[formatStrPosition] == ClearFormat(literals)
            && (!Contains(funCall, "PARAM_REF(") ==>
                  |r.value| == |args| && r.value[formatStrPosition + 1..] == args[formatStrPosition + 1..])
            && (Contains(funCall, "PARAM_REF(") ==>
                  r.value[formatStrPosition + 1..] == WithoutMacros(args[formatStrPosition + 1..]))
  {
    var cleared := args[formatStrPosition := ClearFormat(literals)];
    assert cleared[formatStrPosition + 1..] == args[formatStrPosition + 1..];
    if Contains(funCall, "PARAM_REF(") {
      var r := cleared[..formatStrPosition + 1] + WithoutMacros(cleared[formatStrPosition + 1..]);
      assert r[formatStrPosition + 1..] == WithoutMacros(args[formatStrPosition + 1..]);
      assert r[..formatStrPosition] == args[..formatStrPosition];
    }
  }

  /** What `__init__` computes before the object exists: the argument strings and the keyword
      list, or the exception it raises. The call is located with `findFunctionCall` on `(`/`)`,
      whose negative start makes `islice` raise `ValueError`; a missing format slot, or a
      missing keyword-array slot when keywords are allowed, raises `IndexError`. */
  function Prepare(functionBody: string, funStart: int, onlyPositional: bool, formatStrPosition: int,
                   literals: seq<string>, kwargMatches: seq<string>)
    : Result<(seq<string>, seq<string>), PythonError>
  {
    match CallSpan(functionBody, Some(funStart), '(', ')')
    case Failure(_) => Failure(ValueError)
    case Success(funCall) =>
      PrepareCall(ArgumentStrings(funCall), funCall, onlyPositional, formatStrPosition, literals, kwargMatches)
  }

  /** The part of `__init__` after the call is located, given its argument strings. */
  function PrepareCall(args: seq<string>, funCall: string, onlyPositional: bool, formatStrPosition: int,
                       literals: seq<string>, kwargMatches: seq<string>)
    : Result<(seq<string>, seq<string>), PythonError>
  {
    match RemoveMacros(args, formatStrPosition, funCall, literals)
    case Failure(e) => Failure(e)
    case Success(args) =>
      if !onlyPositional && !PyIndexable(|args|, formatStrPosition + 1) then Failure(IndexError)
      else Success((args, KwargList(onlyPositional, kwargMatches)))
  }

  /** `__init__` raises `ValueError` exactly for a negative start; once it succeeds, the format
      slot holds the cleaned format string, the keyword list is empty for positional-only
      functions, and otherwise the keyword-array slot after the format slot exists. */
  lemma PrepareOutcomes(functionBody: string, funStart: int, onlyPositional: bool, formatStrPosition: int,
                        literals: seq<string>, kwargMatches: seq<string>)
    ensures var p := Prepare(functionBody, funStart, onlyPositional, formatStrPosition, literals, kwargMatches);
            && (p == Failure(ValueError) <==> funStart < 0)
            && (p.Success? && formatStrPosition >= 0 ==>
                  formatStrPosition < |p.value.0| && p.value.0[formatStrPosition] == ClearFormat(literals))
            && (p.Success? && onlyPositional ==> p.value.1 == [])
            && (p.Success? && !onlyPositional ==> PyIndexable(|p.value.0|, formatStrPosition + 1))
  {
    var call := CallSpan(functionBody, Some(funStart), '(', ')');
    if call.Success? {
      PrepareCallOutcomes(ArgumentStrings(call.value), call.value, onlyPositional, formatStrPosition,
                          literals, kwargMatches);
    }
  }

  /** The same, once the call is located: nothing after that raises `ValueError`. */
  lemma PrepareCallOutcomes(args: seq<string>, funCall: string, onlyPositional: bool, formatStrPosition: int,
                            literals: seq<string>, kwargMatches: seq<string>)
    ensures var p := PrepareCall(args, funCall, onlyPositional, formatStrPosition, literals, kwargMatches);
            && p != Failure(ValueError)
            && (p.Success? && formatStrPosition >= 0 ==>
                  formatStrPosition < |p.value.0| && p.value.0[formatStrPosition] == ClearFormat(literals))
            && (p.Success? && onlyPositional ==> p.value.1 == [])
            && (p.Success? && !onlyPositional ==> PyIndexable(|p.value.0|, formatStrPosition + 1))
  {
    if 0 <= formatStrPosition < |args| {
      RemoveMacrosKeeps(args, formatStrPosition, funCall, literals);
    }
  }

  // ---------------------------------------------------------------------------
  // The converter object
  // ---------------------------------------------------------------------------

  /** `TypesConverter` once `__init__` has run: the argument strings with the format string
      cleaned, the keyword list, and the two pieces of state its methods update, the frame stack
      of open `(` groups and the set of imports the stub needs. */
  class TypesConverter {
    const argumentStrings: seq<string>
    const formatStrPosition: int
    const onlyPositional: bool
    const argNumStart: int
    const realStartArgNum: int
    const kwargList: seq<string>
    const classWithModules: string -> string
    const moduleName: string -> string
    var requiredImports: set<string>
    var sequenceStack: seq<seq<string>>

    /** The call-site data the specification functions read. */
    function Ctx(): Context {
      Context(argumentStrings, kwargList, onlyPositional, argNumStart, classWithModules, moduleName)
    }

    constructor(argumentStrings: seq<string>, requiredImports: set<string>, onlyPositional: bool,
                formatStrPosition: int, argNumStart: int, realStartArgNum: int, kwargList: seq<string>,
                classWithModules: string -> string, moduleName: string -> string)
      ensures this.argumentStrings == argumentStrings && this.requiredImports == requiredImports
      ensures this.onlyPositional == onlyPositional && this.formatStrPosition == formatStrPosition
      ensures this.argNumStart == argNumStart && this.realStartArgNum == realStartArgNum
      ensures this.kwargList == kwargList
      ensures this.classWithModules == classWithModules && this.moduleName == moduleName
      ensures sequenceStack == []
    {
      this.argumentStrings := argumentStrings;
      this.requiredImports := requiredImports;
      this.onlyPositional := onlyPositional;
      this.formatStrPosition := formatStrPosition;
      this.argNumStart := argNumStart;
      this.realStartArgNum := realStartArgNum;
      this.kwargList := kwargList;
      this.classWithModules := classWithModules;
      this.moduleName := moduleName;
      sequenceStack := [];
    }

    /** `_startSequenceParsing`: open an empty frame. */
    method StartSequenceParsing()
      modifies this`sequenceStack
      ensures sequenceStack == old(sequenceStack) + [[]]
    {
      sequenceStack := sequenceStack + [[]];
    }

    /** `_endSequenceParsing`: pop the innermost frame and render it; `pop()` on an empty stack
        raises `IndexError`. */
    method EndSequenceParsing() returns (r: Result<string, PythonError>)
      modifies this`sequenceStack
      ensures old(sequenceStack) == [] ==> r == Failure(IndexError) && sequenceStack == []
      ensures old(sequenceStack) != [] ==>
                && r == Success(TupleType(old(sequenceStack)[|old(sequenceStack)| - 1]))
                && sequenceStack == old(sequenceStack)[..|old(sequenceStack)| - 1]
    {
      if sequenceStack == [] {
        return Failure(IndexError);
      }
      var val := sequenceStack[|sequenceStack| - 1];
      sequenceStack := sequenceStack[..|sequenceStack| - 1];
      r := Success("tuple[" + Join(val, ", ") + "]");
    }

    /** `_addElementToSequence`: append a type to the innermost frame; only called while a
        frame is open. */
    method AddElementToSequence(objType: string)
      requires sequenceStack != []
      modifies this`sequenceStack
      ensures sequenceStack == old(sequenceStack)[..|old(sequenceStack)| - 1]
                               + [old(sequenceStack)[|old(sequenceStack)| - 1] + [objType]]
    {
      var n := |sequenceStack|;
      sequenceStack := sequenceStack[..n - 1] + [sequenceStack[n - 1] + [objType]];
    }

    /** `_convertPointerToType` */
    method ConvertPointerToType(pointerArg: string) returns (r: Conversion)
      modifies this`requiredImports
      ensures r == PointerConversion(Ctx(), pointerArg).0
      ensures requiredImports == old(requiredImports) + PointerConversion(Ctx(), pointerArg).1
    {
      var p := RemoveSuffix(RemovePrefix(RemovePrefix(pointerArg, "&"), "("), ")");
      if EndsWith(p, "::Type") {
        var c := classWithModules(p);
        requiredImports := requiredImports + {moduleName(c)};
        return Converted(c);
      } else if StartsWith(p, "Py") {
        if p !in CTypeToPythonType {
          return ConvertRaised(KeyError(p));
        }
        return Converted(CTypeToPythonType[p]);
      }
      return Unconverted;
    }

    /** `_findPointerType(k)`, with the look-ahead at slot `k + 1` as a recursive call. */
    method FindPointerType(k: int) returns (r: Resolution)
      modifies this`requiredImports
      ensures r == PointerResolution(Ctx(), k).0
      ensures requiredImports == old(requiredImports) + PointerResolution(Ctx(), k).1
      decreases |argumentStrings| - k
    {
      if !PyIndexable(|argumentStrings|, k) {
        return Invalid(NotEnoughArguments);
      }
      var pointerArg := PyAt(argumentStrings, k);
      if pointerArg == [] {
        return Raised(IndexError);
      }
      if pointerArg[0] == '&' {
        var c := ConvertPointerToType(pointerArg[1..]);
        match c
        case Converted(t) =>
          return Resolved(t);
        case ConvertRaised(e) =>
          return Raised(e);
        case Unconverted =>
      } else if !EndsWith(pointerArg, "::type_object()") {
        var ahead := FindPointerType(k + 1);
        return Invalid(if ahead.Resolved? then SwappedType else UnknownPointerFormat(pointerArg));
      }
      requiredImports := requiredImports + {"typing"};
      return Resolved("typing.Any");
    }

    /** The body of `if objType := parseTypeMap.get(curVal)`: the type goes into the innermost
        frame inside a group and becomes the next parameter outside one; then the unit's call
        arguments are counted and the unit is dropped from the format string. `s` holds the
        generator's locals. */
    method AcceptUnit(s: Scan, curVal: string, formatSize: nat, objType: string) returns (r: Scan)
      requires s.fmt != [] && formatSize > 0 && curVal in ParseSizeMap && s.stack == sequenceStack
      modifies this`sequenceStack
      ensures r == Accept(Ctx(), s, curVal, formatSize, objType) && sequenceStack == r.stack
    {
      r := s;
      if sequenceStack != [] {
        AddElementToSequence(objType);
        r := r.(stack := sequenceStack);
      } else {
        var name := ArgName(Ctx(), s.argNum);
        var default := DefaultValue(s.optional);
        r := r.(params := s.params + [Param(name, s.kind, default, objType)], argNum := s.argNum + 1);
      }
      r := r.(realArgNum := s.realArgNum + ParseSizeMap[curVal], fmt := Drop(s.fmt, formatSize));
    }

    /** One pass of the inner `for formatSize in range(3, 0, -1)` loop. */
    method TryFormatSize(s: Scan, formatSize: nat) returns (a: Attempt)
      requires s.fmt != [] && 0 < formatSize <= 3
      requires s.stack == sequenceStack && s.imports == requiredImports
      modifies this
      ensures a == ClaimUnit(Ctx(), s, formatSize)
      ensures sequenceStack == a.s.stack && requiredImports == a.s.imports
    {
      SpecialUnits();
      var curVal := Take(s.fmt, formatSize);
      var objType := "";
      var s1 := s;
      if curVal == "O!" {
        a := TryPointer(s, formatSize);
        return;
      } else if curVal == "(" {
        StartSequenceParsing();
        return Consumed(s.(stack := sequenceStack, fmt := Drop(s.fmt, formatSize)));
      } else if curVal == ")" {
        var e := EndSequenceParsing();
        if e.Failure? {
          return Halted(s, Crashed(e.error));
        }
        s1 := s.(stack := sequenceStack);
        objType := e.value;
      } else if curVal in ParseTypeMap {
        objType := ParseTypeMap[curVal];
      }
      if objType != [] {
        var r := AcceptUnit(s1, curVal, formatSize, objType);
        return Consumed(r);
      }
      return Unmatched(s1);
    }

    /** The candidate `O!`: its type is whatever `_findPointerType` resolves at `realArgNum`. */
    method TryPointer(s: Scan, formatSize: nat) returns (a: Attempt)
      requires s.fmt != [] && 0 < formatSize <= 3 && Take(s.fmt, formatSize) == "O!"
      requires s.stack == sequenceStack && s.imports == requiredImports
      modifies this
      ensures a == ClaimUnit(Ctx(), s, formatSize)
      ensures sequenceStack == a.s.stack && requiredImports == a.s.imports
    {
      SpecialUnits();
      var res := FindPointerType(s.realArgNum);
      var s1 := s.(imports := requiredImports);
      match res
      case Invalid(reason) =>
        return Halted(s1, PointerStop(reason));
      case Raised(e) =>
        return Halted(s1, Crashed(e));
      case Resolved(objType) =>
        if objType != [] {
          var r := AcceptUnit(s1, "O!", formatSize, objType);
          return Consumed(r);
        }
        return Unmatched(s1);
    }

    /** One iteration of `while formatStr`: the inner loop over the candidate lengths, and its
        `else` branch for a character that starts no unit. */
    method ReadFormatUnit(s: Scan) returns (n: Next)
      requires s.fmt != [] && s.stack == sequenceStack && s.imports == requiredImports
      modifies this
      ensures n == Step(Ctx(), s)
      ensures sequenceStack == n.s.stack && requiredImports == n.s.imports
    {
      var formatSize := 3;
      while formatSize > 0
        invariant formatSize <= 3
        invariant sequenceStack == s.stack
        invariant TryUnits(Ctx(), s.(imports := requiredImports), formatSize) == TryUnits(Ctx(), s, 3)
        decreases formatSize
      {
        var a := TryFormatSize(s.(imports := requiredImports), formatSize);
        if a.Consumed? {
          return Continue(a.s);
        } else if a.Halted? {
          return Halt(a.s, a.stop);
        }
        formatSize := formatSize - 1;
      }
      var s' := s.(imports := requiredImports);
      var curVal := s'.fmt[0];
      if curVal == '|' {
        s' := s'.(optional := true);
      } else if curVal == '$' {
        s' := s'.(optional := true, kind := KeywordOnly);
      } else if curVal == ':' || curVal == ';' {
        s' := s'.(fmt := []);
      }
      n := Continue(s'.(fmt := if s'.fmt == [] then [] else s'.fmt[1..]));
    }

    /** `convertFormatToTypes`: the parameters it yields and how it ends. The frame stack and
        the imports are left as the scan leaves them. */
    method ConvertFormatToTypes() returns (params: seq<Param>, stop: Stop)
      modifies this
      ensures var r := FormatToTypes(Ctx(), formatStrPosition, realStartArgNum, old(sequenceStack), old(requiredImports));
              params == r.0.params && stop == r.1 && sequenceStack == r.0.stack && requiredImports == r.0.imports
    {
      ghost var target := FormatToTypes(Ctx(), formatStrPosition, realStartArgNum, sequenceStack, requiredImports);
      params := [];
      if !PyIndexable(|argumentStrings|, formatStrPosition) {
        return [], Crashed(IndexError);
      }
      var formatStr := PyAt(argumentStrings, formatStrPosition);
      var realArgNum := realStartArgNum;
      var argNum: nat := 0;
      var isArgOptional := false;
      var parameterKind := if kwargList != [] then PositionalOrKeyword else PositionalOnly;
      while formatStr != []
        invariant Run(Ctx(), Scan(formatStr, realArgNum, argNum, isArgOptional, parameterKind,
                                  sequenceStack, requiredImports, params)) == target
        decreases |formatStr|
      {
        var s := Scan(formatStr, realArgNum, argNum, isArgOptional, parameterKind, sequenceStack, requiredImports, params);
        var next := ReadFormatUnit(s);
        if next.Halt? {
          return next.s.params, next.stop;
        }
        formatStr, realArgNum, argNum := next.s.fmt, next.s.realArgNum, next.s.argNum;
        isArgOptional, parameterKind, params := next.s.optional, next.s.kind, next.s.params;
      }
      stop := Finished;
    }
  }

  /** `TypesConverter(functionBody, funStart, requiredImports, onlyPositional, formatStrPosition,
      argNumStart, realStartArgNum=...)`. The literal pattern's matches in the format argument
      and the keyword-array pattern's matches in the declarations are inputs, as are the naming
      helpers. */
  method NewTypesConverter(functionBody: string, funStart: int, requiredImports: set<string>,
                           onlyPositional: bool, formatStrPosition: int, argNumStart: int,
                           realStartArgNum: int, literals: seq<string>, kwargMatches: seq<string>,
                           classWithModules: string -> string, moduleName: string -> string)
    returns (r: Result<TypesConverter, PythonError>)
    ensures var p := Prepare(functionBody, funStart, onlyPositional, formatStrPosition, literals, kwargMatches);
            && (r.Failure? <==> p.Failure?)
            && (r.Failure? ==> r.error == p.error)
            && (r.Success? ==> && fresh(r.value)
                               && r.value.argumentStrings == p.value.0 && r.value.kwargList == p.value.1
                               && r.value.requiredImports == requiredImports && r.value.sequenceStack == []
                               && r.value.onlyPositional == onlyPositional
                               && r.value.formatStrPosition == formatStrPosition
                               && r.value.argNumStart == argNumStart && r.value.realStartArgNum == realStartArgNum
                               && r.value.classWithModules == classWithModules && r.value.moduleName == moduleName)
  {
    var call := FindFunctionCall(functionBody, Some(funStart), '(', ')');
    if call.Failure? {
      return Failure(ValueError);
    }
    var funCall := call.value;
    var sub := RemoveSpaces(funCall);
    var split := GenerateExpressionUntilChar(sub, Find(sub, '(') + 1, ',', '(', ')');
    assert !BadSplitChar(',', '(', ')');
    var argumentStrings := split.value;
    if !PyIndexable(|argumentStrings|, formatStrPosition) {
      return Failure(IndexError);
    }
    var clearFormat := ClearFormatString(literals);
    argumentStrings := PySet(argumentStrings, formatStrPosition, clearFormat);
    if Contains(funCall, "PARAM_REF(") {
      var lo := Bound(formatStrPosition + 1, |argumentStrings|);
      argumentStrings := argumentStrings[..lo] + WithoutMacros(argumentStrings[lo..]);
    }
    var kwargList := [];
    if !onlyPositional {
      if !PyIndexable(|argumentStrings|, formatStrPosition + 1) {
        return Failure(IndexError);
      }
      kwargList := KwargList(onlyPositional, kwargMatches);
    }
    var converter := new TypesConverter(argumentStrings, requiredImports, onlyPositional, formatStrPosition,
                                        argNumStart, realStartArgNum, kwargList, classWithModules, moduleName);
    r := Success(converter);
  }
}
