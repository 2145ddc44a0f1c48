/**
  The registry of the exceptions the C++ sources create with `PyErr_NewException`
  (lib/freecad_stub_gen/generators/exceptions/container.py).

  Each match of the `PyErr_NewException` pattern (its variable name and its raw argument text)
  becomes an `ExceptionData`: the module and class the exception gets in Python, the base class
  it derives from, and the C++ namespace and class it is looked up by. The registry keeps the
  first record per variable name, answers lookups by (class, namespace) and by class alone, and
  renders each record as a `class` statement. The naming helpers are parameters.
*/
module ExceptionsContainer {
  import opened Wrappers
  import opened Text
  import opened CppFunction

  /** The naming and formatting helpers the registry calls. */
  datatype Helpers = Helpers(
    removeQuote: string -> string,
    moduleName: string -> string,
    namespaceToModule: string -> string,
    className: string -> string,
    namespaceWithClass: string -> (Option<string>, string),
    indent: string -> string)

  /** What the registry raises: `IndexError` for a call with fewer than two arguments, and
      `ValueError` when a lookup finds nothing. */
  datatype RegistryError =
    | IndexError
    | ExceptionNotFound(cppClass: string, cppNamespace: string)
    | UnknownException(text: string)

  /** One match of the `PyErr_NewException` pattern: the `name` and `funArg` groups. */
  datatype Match = Match(name: string, funArg: string)

  /** A match with its argument text split into the arguments `ExceptionData` receives. */
  datatype Call = Call(name: string, args: seq<string>)

  /** The fields `ExceptionData.__init__` assigns. */
  datatype Record = Record(
    pyModuleRaw: string,
    pyModule: string,
    pyClass: string,
    baseCppNamespace: string,
    baseCppClass: string,
    cppNamespace: string,
    cppClass: string)

  /** The namespace of Python's builtin exceptions. */
  const PythonNamespace: string := "__python__"

  // ---------------------------------------------------------------------------
  // Building a record
  // ---------------------------------------------------------------------------

  /** The record `ExceptionData(exceptionName, newExceptionArgs)` builds from the first two
      arguments: the quoted `module.Class` and the base exception. */
  function RecordOf(h: Helpers, exceptionName: string, newExceptionArgs: seq<string>): Record
    requires |newExceptionArgs| >= 2
  {
    var excModuleWithClass := h.removeQuote(newExceptionArgs[0]);
    var raw := h.moduleName(excModuleWithClass);
    var base := h.namespaceWithClass(newExceptionArgs[1]);
    var baseNamespace, baseCppClass := base.0, base.1;
    var own := h.namespaceWithClass(exceptionName);
    var cppNamespace, cppClass := own.0, own.1;
    Record(
      raw,
      h.namespaceToModule(raw),
      h.className(excModuleWithClass),
      if baseNamespace.Some? then baseNamespace.value
      else if StartsWith(baseCppClass, "PyExc") then PythonNamespace
      else raw,
      baseCppClass,
      if cppNamespace.Some? then cppNamespace.value else raw,
      if cppClass == "OCCError" then "PartExceptionOCCError" else cppClass)
  }

  /** The base namespace: an explicit one is kept; without one, a `PyExc…` base is a Python
      builtin and any other base lives in the exception's own raw module. */
  lemma BaseNamespaceRules(h: Helpers, exceptionName: string, newExceptionArgs: seq<string>)
    requires |newExceptionArgs| >= 2
    ensures var r := RecordOf(h, exceptionName, newExceptionArgs);
            var (ns, base) := h.namespaceWithClass(newExceptionArgs[1]);
            && r.baseCppClass == base
            && (ns.Some? ==> r.baseCppNamespace == ns.value)
            && (ns.None? && StartsWith(base, "PyExc") ==> r.baseCppNamespace == PythonNamespace)
            && (ns.None? && !StartsWith(base, "PyExc") ==> r.baseCppNamespace == r.pyModuleRaw)
  {
  }

  /** The record's own namespace defaults to the raw module, and the class `OCCError` is
      stored as `PartExceptionOCCError`; any other class is stored as it is. */
  lemma OwnNamespaceRules(h: Helpers, exceptionName: string, newExceptionArgs: seq<string>)
    requires |newExceptionArgs| >= 2
    ensures var r := RecordOf(h, exceptionName, newExceptionArgs);
            var (ns, cls) := h.namespaceWithClass(exceptionName);
            && (ns.Some? ==> r.cppNamespace == ns.value)
            && (ns.None? ==> r.cppNamespace == r.pyModuleRaw)
            && (cls == "OCCError" ==> r.cppClass == "PartExceptionOCCError")
            && (cls != "OCCError" ==> r.cppClass == cls)
            && r.pyModule == h.namespaceToModule(r.pyModuleRaw)
  {
  }

  /** The arguments of one `PyErr_NewException` call: its top-level comma-separated pieces,
      stripped. */
  function ExceptionArgs(funArg: string): seq<string> {
    StripEach(SplitTop(funArg, 0, ',', '(', ')').pieces)
  }

  /** `[e.strip() for e in pieces]` */
  function StripEach(pieces: seq<string>): seq<string> {
    seq(|pieces|, i requires 0 <= i < |pieces| => Strip(pieces[i]))
  }

  /** Each match with its arguments split. */
  function Calls(matches: seq<Match>): seq<Call> {
    seq(|matches|, k requires 0 <= k < |matches| => Call(matches[k].name, ExceptionArgs(matches[k].funArg)))
  }

  /** A string literal in C++ source: the text between double quotes. */
  function Quoted(q: string): string {
    "\"" + q + "\""
  }

  /** The usual argument list `"Mod.Err", Base, nullptr`: a quoted name (which may hold
      commas and brackets, but no quote or backslash) and two plain arguments (no commas,
      brackets, quotes or backslashes, no surrounding spaces) give exactly those three
      arguments, the name keeping its quotes. */
  lemma QuotedNameArguments(q: string, b: string, c: string)
    requires forall k :: 0 <= k < |q| ==> q[k] != '\\' && q[k] != '"'
    requires Plain(b, ',', '(', ')', 0) && Plain(c, ',', '(', ')', 0)
    requires Trimmed(b) && Trimmed(c)
    ensures ExceptionArgs(Quoted(q) + ", " + b + ", " + c) == [Quoted(q), b, c]
  {
    var pieces := QuotedNamePieces(q, b, c);
    assert Trimmed(Quoted(q));
    StripTrimmed(Quoted(q));
    StripLeadingSpace(b);
    StripLeadingSpace(c);
    StripThree(Quoted(q), " " + b, " " + c);
  }

  /** Stripping a three-piece list strips each piece. */
  lemma StripThree(x: string, y: string, z: string)
    ensures StripEach([x, y, z]) == [Strip(x), Strip(y), Strip(z)]
  {
    var r := StripEach([x, y, z]);
    assert |r| == 3 && r[0] == Strip(x) && r[1] == Strip(y) && r[2] == Strip(z);
    ThreeElements(r);
  }

  /** A three-element sequence is the display of its elements. */
  lemma ThreeElements<T>(r: seq<T>)
    requires |r| == 3
    ensures r == [r[0], r[1], r[2]]
  {
  }

  /** The top-level pieces of such an argument list, before stripping. */
  lemma QuotedNamePieces(q: string, b: string, c: string) returns (pieces: seq<string>)
    requires forall k :: 0 <= k < |q| ==> q[k] != '\\' && q[k] != '"'
    requires Plain(b, ',', '(', ')', 0) && Plain(c, ',', '(', ')', 0)
    ensures pieces == [Quoted(q), " " + b, " " + c]
    ensures SplitTop(Quoted(q) + ", " + b + ", " + c, 0, ',', '(', ')').pieces == pieces
  {
    pieces := [Quoted(q), " " + b, " " + c];
    var t2 := " " + c;
    var t1 := " " + b + [','] + t2;
    var text := Quoted(q) + ", " + b + ", " + c;
    assert text == "\"" + q + "\"" + ([','] + t1);
    assert text[0..] == text;
    QuotedRun(q, [','] + t1, 0, ',', '(', ')');
    CutRun(t1, ',', '(', ')');
    SpacedPlain(b);
    SpacedPlain(c);
    FieldThenSep(" " + b, t2, ',', '(', ')');
    LastField(t2, ',', '(', ')');
    var p0 := SplitRest([','] + t1, StartLexer, ',', '(', ')');
    assert p0 == Pieces([[], " " + b, t2], false);
    assert Quoted(q) + [] == Quoted(q);
  }

  /** A space in front of a plain argument keeps it plain. */
  lemma SpacedPlain(b: string)
    requires Plain(b, ',', '(', ')', 0)
    ensures Plain(" " + b, ',', '(', ')', 0)
  {
    var t := " " + b;
    forall i | 0 <= i < |t|
      ensures t[i] != '\\' && t[i] != '"' && t[i] != '(' && t[i] != ')' && t[i] != ','
    {
      if i > 0 {
        assert t[i] == b[i - 1];
      }
    }
  }

  lemma StripLeadingSpace(b: string)
    requires Trimmed(b)
    ensures Strip(" " + b) == b
  {
    var t := " " + b;
    assert RStrip(t) == t;
    assert t[1..] == b;
    assert LStrip(b) == b;
  }

  // ---------------------------------------------------------------------------
  // First record per variable name
  // ---------------------------------------------------------------------------

  /** The calls `findExceptions` keeps: each one whose name was not seen before. */
  function Dedup(calls: seq<Call>, seen: set<string>): (r: seq<Call>)
    ensures |r| <= |calls|
  {
    if calls == [] then []
    else if calls[0].name in seen then Dedup(calls[1..], seen)
    else [calls[0]] + Dedup(calls[1..], seen + {calls[0].name})
  }

  /** The first match with a given name. */
  function FirstNamed(calls: seq<Call>, name: string): (r: Option<Call>)
    ensures r.Some? ==> r.value in calls && r.value.name == name
    ensures r.None? ==> forall m :: m in calls ==> m.name != name
  {
    if calls == [] then None
    else if calls[0].name == name then Some(calls[0])
    else FirstNamed(calls[1..], name)
  }

  /** No two calls share a variable name. */
  predicate DistinctNames(d: seq<Call>) {
    forall i, j :: 0 <= i < j < |d| ==> d[i].name != d[j].name
  }

  /** Every match of `d` is the first match of `calls` with its name, and that name was not
      seen before. */
  predicate FirstOccurrences(calls: seq<Call>, seen: set<string>, d: seq<Call>) {
    forall i :: 0 <= i < |d| ==> d[i].name !in seen && FirstNamed(calls, d[i].name) == Some(d[i])
  }

  /** At most one record per variable name, none of the names seen before, and the first
      occurrence wins: every kept match is the first match with its name. */
  lemma {:induction false} DedupFirstWins(calls: seq<Call>, seen: set<string>)
    ensures DistinctNames(Dedup(calls, seen))
    ensures FirstOccurrences(calls, seen, Dedup(calls, seen))
  {
    if calls != [] {
      var m := calls[0];
      var seen' := if m.name in seen then seen else seen + {m.name};
      var rest := Dedup(calls[1..], seen');
      DedupFirstWins(calls[1..], seen');
      var d := Dedup(calls, seen);
      assert d == if m.name in seen then rest else [m] + rest;
      forall i | 0 <= i < |rest|
        ensures rest[i].name !in seen && rest[i].name != m.name && FirstNamed(calls, rest[i].name) == Some(rest[i])
      {
        assert rest[i].name !in seen';
      }
      if m.name !in seen {
        forall i | 0 <= i < |d|
          ensures d[i].name !in seen && FirstNamed(calls, d[i].name) == Some(d[i])
        {
          if i > 0 {
            assert d[i] == rest[i - 1];
          }
        }
        forall i, j | 0 <= i < j < |d|
          ensures d[i].name != d[j].name
        {
          assert d[j] == rest[j - 1];
          if i > 0 {
            assert d[i] == rest[i - 1];
          }
        }
      }
    }
  }

  /** Every name that was not seen before keeps a record. */
  lemma {:induction false} DedupCoversNames(calls: seq<Call>, seen: set<string>)
    ensures forall m :: m in calls && m.name !in seen ==> exists d :: d in Dedup(calls, seen) && d.name == m.name
  {
    if calls != [] {
      var m0 := calls[0];
      var seen' := if m0.name in seen then seen else seen + {m0.name};
      DedupCoversNames(calls[1..], seen');
      forall m | m in calls && m.name !in seen
        ensures exists d :: d in Dedup(calls, seen) && d.name == m.name
      {
        if m.name == m0.name {
          assert m0 in Dedup(calls, seen);
        } else {
          assert m in calls[1..];
          var d :| d in Dedup(calls[1..], seen') && d.name == m.name;
          assert d in Dedup(calls, seen);
        }
      }
    }
  }

  /** `findExceptions` as a whole, over the matches with their arguments split: the records of
      the kept calls, or `IndexError` at the first kept call with fewer than two arguments. */
  function Collect(h: Helpers, calls: seq<Call>, seen: set<string>): Result<seq<Record>, RegistryError> {
    if calls == [] then Success([])
    else if calls[0].name in seen then Collect(h, calls[1..], seen)
    else
      var args := calls[0].args;
      if |args| < 2 then Failure(IndexError)
      else
        match Collect(h, calls[1..], seen + {calls[0].name})
        case Failure(e) => Failure(e)
        case Success(rest) => Success([RecordOf(h, calls[0].name, args)] + rest)
  }

  /** Every kept call has at least the two arguments `ExceptionData` reads. */
  predicate EnoughArgs(d: seq<Call>) {
    forall j :: 0 <= j < |d| ==> |d[j].args| >= 2
  }

  /** The records of the kept calls, in order. */
  function RecordsFor(h: Helpers, d: seq<Call>): (r: seq<Record>)
    requires EnoughArgs(d)
    ensures |r| == |d|
  {
    seq(|d|, j requires 0 <= j < |d| => RecordOf(h, d[j].name, d[j].args))
  }

  /** `findExceptions` yields one record per kept match, built from that match, and fails
      with `IndexError` exactly when a kept call has fewer than two arguments. */
  lemma {:induction false} CollectIsDedup(h: Helpers, calls: seq<Call>, seen: set<string>)
    ensures EnoughArgs(Dedup(calls, seen)) ==> Collect(h, calls, seen) == Success(RecordsFor(h, Dedup(calls, seen)))
    ensures !EnoughArgs(Dedup(calls, seen)) ==> Collect(h, calls, seen) == Failure(IndexError)
  {
    if calls != [] {
      var m := calls[0];
      if m.name in seen {
        CollectIsDedup(h, calls[1..], seen);
      } else {
        var rest := Dedup(calls[1..], seen + {m.name});
        CollectIsDedup(h, calls[1..], seen + {m.name});
        assert Dedup(calls, seen) == [m] + rest;
        var args := m.args;
        if |args| >= 2 {
          EnoughArgsCons(m, rest);
          if EnoughArgs(rest) {
            RecordsForCons(h, m, rest);
          }
        } else {
          assert ([m] + rest)[0] == m;
        }
      }
    }
  }

  lemma EnoughArgsCons(m: Call, rest: seq<Call>)
    requires |m.args| >= 2
    ensures EnoughArgs([m] + rest) <==> EnoughArgs(rest)
  {
    var d := [m] + rest;
    if EnoughArgs(rest) {
      forall j | 0 <= j < |d|
        ensures |d[j].args| >= 2
      {
        if j > 0 {
          assert d[j] == rest[j - 1];
        }
      }
    }
    if EnoughArgs(d) {
      forall j | 0 <= j < |rest|
        ensures |rest[j].args| >= 2
      {
        assert d[j + 1] == rest[j];
      }
    }
  }

  lemma RecordsForCons(h: Helpers, m: Call, rest: seq<Call>)
    requires |m.args| >= 2 && EnoughArgs(rest) && EnoughArgs([m] + rest)
    ensures RecordsFor(h, [m] + rest) == [RecordOf(h, m.name, m.args)] + RecordsFor(h, rest)
  {
    var d := [m] + rest;
    var r := RecordsFor(h, d);
    var t := [RecordOf(h, m.name, m.args)] + RecordsFor(h, rest);
    assert |r| == |t|;
    forall j | 0 <= j < |d|
      ensures r[j] == t[j]
    {
      if j > 0 {
        assert d[j] == rest[j - 1];
        assert t[j] == RecordsFor(h, rest)[j - 1];
      }
    }
  }

  /** `p` in front of the records of `r`, or `r`'s error. */
  function Prepend(p: seq<Record>, r: Result<seq<Record>, RegistryError>): Result<seq<Record>, RegistryError> {
    if r.Failure? then r else Success(p + r.value)
  }

  // ---------------------------------------------------------------------------
  // Lookups
  // ---------------------------------------------------------------------------

  /** The index of the first record with class `cppClass` in namespace `cppNamespace`. */
  function FirstData(records: seq<Record>, cppClass: string, cppNamespace: string): (r: Option<nat>)
    ensures r.Some? ==> && r.value < |records|
                        && records[r.value].cppClass == cppClass && records[r.value].cppNamespace == cppNamespace
                        && forall i :: 0 <= i < r.value ==>
                             !(records[i].cppClass == cppClass && records[i].cppNamespace == cppNamespace)
    ensures r.None? ==> forall i :: 0 <= i < |records| ==>
                          !(records[i].cppClass == cppClass && records[i].cppNamespace == cppNamespace)
  {
    if records == [] then None
    else if records[0].cppClass == cppClass && records[0].cppNamespace == cppNamespace then Some(0)
    else match FirstData(records[1..], cppClass, cppNamespace)
      case None => None
      case Some(k) => Some(k + 1)
  }

  /** The index of the first record with class `cppClass`, whatever its namespace. */
  function FirstWithClass(records: seq<Record>, cppClass: string): (r: Option<nat>)
    ensures r.Some? ==> && r.value < |records| && records[r.value].cppClass == cppClass
                        && forall i :: 0 <= i < r.value ==> records[i].cppClass != cppClass
    ensures r.None? ==> forall i :: 0 <= i < |records| ==> records[i].cppClass != cppClass
  {
    if records == [] then None
    else if records[0].cppClass == cppClass then Some(0)
    else match FirstWithClass(records[1..], cppClass)
      case None => None
      case Some(k) => Some(k + 1)
  }

  /** `module.Class` for a record, with the module `Base` spelled `FreeCAD.Base`. */
  function QualifiedName(r: Record): string {
    (if r.pyModuleRaw != "Base" then r.pyModuleRaw else "FreeCAD.Base") + "." + r.pyClass
  }

  /** `getExceptionText`: the first record with the same class, then a `PyExc_` name without
      its prefix, then `Exception` for a `getPyExceptionType()` call. */
  function ExceptionText(h: Helpers, records: seq<Record>, text: string): Result<string, RegistryError> {
    var cppClass := h.namespaceWithClass(text).1;
    match FirstWithClass(records, cppClass)
    case Some(k) => Success(QualifiedName(records[k]))
    case None =>
      if StartsWith(text, "PyExc_") then Success(text[6..])
      else if Contains(text, "getPyExceptionType()") then Success("Exception")
      else Failure(UnknownException(text))
  }

  /** A record with the same class wins, whatever its namespace and even over a `PyExc_`
      spelling: the first such record is the answer. */
  lemma ExceptionTextFound(h: Helpers, records: seq<Record>, text: string, k: nat)
    requires k < |records| && records[k].cppClass == h.namespaceWithClass(text).1
    requires forall i :: 0 <= i < k ==> records[i].cppClass != h.namespaceWithClass(text).1
    ensures ExceptionText(h, records, text) == Success(QualifiedName(records[k]))
  {
    FirstWithClassAt(records, h.namespaceWithClass(text).1, k);
  }

  /** Without a record of the same class, a `PyExc_` name loses its prefix; only otherwise is
      a `getPyExceptionType()` call read as `Exception`; and any other text raises. */
  lemma ExceptionTextFallback(h: Helpers, records: seq<Record>, text: string)
    requires forall i :: 0 <= i < |records| ==> records[i].cppClass != h.namespaceWithClass(text).1
    ensures StartsWith(text, "PyExc_") ==>
              ExceptionText(h, records, text).Success? && "PyExc_" + ExceptionText(h, records, text).value == text
    ensures !StartsWith(text, "PyExc_") && Contains(text, "getPyExceptionType()") ==>
              ExceptionText(h, records, text) == Success("Exception")
    ensures !StartsWith(text, "PyExc_") && !Contains(text, "getPyExceptionType()") ==>
              ExceptionText(h, records, text) == Failure(UnknownException(text))
  {
  }

  /** A record from the module `Base` is written under `FreeCAD.Base`; any other keeps its
      raw module. */
  lemma QualifiedBase(r: Record)
    ensures r.pyModuleRaw == "Base" ==> QualifiedName(r) == "FreeCAD.Base." + r.pyClass
    ensures r.pyModuleRaw != "Base" ==> QualifiedName(r) == r.pyModuleRaw + "." + r.pyClass
  {
  }

  // ---------------------------------------------------------------------------
  // Rendering
  // ---------------------------------------------------------------------------

  /** `OrderedStrSet.add`: append unless already present. */
  function AddOrdered(s: seq<string>, x: string): (r: seq<string>)
    ensures x in r && (forall y :: y in s ==> y in r)
    ensures forall y :: y in r ==> y in s || y == x
    ensures x in s ==> r == s
  {
    if x in s then s else s + [x]
  }

  /** The base class as `__str__` writes it, and the module it imports for it, if any. */
  function BaseClassText(records: seq<Record>, r: Record): Result<(string, Option<string>), RegistryError> {
    if r.baseCppNamespace == PythonNamespace then Success((RemovePrefix(r.baseCppClass, "PyExc_"), None))
    else match FirstData(records, r.baseCppClass, r.baseCppNamespace)
      case None => Failure(ExceptionNotFound(r.baseCppClass, r.baseCppNamespace))
      case Some(k) => Success((records[k].pyModule + "." + records[k].pyClass, Some(records[k].pyModule)))
  }

  /** `class <pyClass>(<base>):` followed by an indented `pass`. */
  function ClassStatement(h: Helpers, pyClass: string, baseClass: string): string {
    "class " + pyClass + "(" + baseClass + "):\n" + h.indent("pass") + "\n"
  }

  /** A builtin base never consults the registry and imports nothing; any other base is the
      first record with its class and namespace, whose module is imported. */
  lemma BaseClassRules(records: seq<Record>, r: Record)
    ensures r.baseCppNamespace == PythonNamespace ==>
              BaseClassText(records, r) == Success((RemovePrefix(r.baseCppClass, "PyExc_"), None))
    ensures r.baseCppNamespace != PythonNamespace ==>
              (BaseClassText(records, r).Success? <==>
                 exists i :: 0 <= i < |records| && records[i].cppClass == r.baseCppClass
                                                && records[i].cppNamespace == r.baseCppNamespace)
    ensures r.baseCppNamespace != PythonNamespace && BaseClassText(records, r).Success? ==>
              var k := FirstData(records, r.baseCppClass, r.baseCppNamespace).value;
              BaseClassText(records, r).value == (records[k].pyModule + "." + records[k].pyClass, Some(records[k].pyModule))
  {
    if r.baseCppNamespace != PythonNamespace {
      var f := FirstData(records, r.baseCppClass, r.baseCppNamespace);
      if f.Some? {
        assert records[f.value].cppClass == r.baseCppClass;
      }
    }
  }

  // ---------------------------------------------------------------------------
  // The objects
  // ---------------------------------------------------------------------------

  /** `ExceptionData`: the fields `__init__` assigns, and the ordered set of imports that
      `__str__` fills. */
  class ExceptionData {
    const pyModuleRaw: string
    const pyModule: string
    const pyClass: string
    const baseCppNamespace: string
    const baseCppClass: string
    const cppNamespace: string
    const cppClass: string
    var requiredImports: seq<string>

    function Fields(): Record {
      Record(pyModuleRaw, pyModule, pyClass, baseCppNamespace, baseCppClass, cppNamespace, cppClass)
    }

    /** `ExceptionData(exceptionName, newExceptionArgs)`; the source indexes the first two
        arguments, and `FindExceptions` reports the `IndexError` of a shorter list. */
    constructor(h: Helpers, exceptionName: string, newExceptionArgs: seq<string>)
      requires |newExceptionArgs| >= 2
      ensures Fields() == RecordOf(h, exceptionName, newExceptionArgs)
      ensures requiredImports == []
    {
      var excModuleWithClass := h.removeQuote(newExceptionArgs[0]);
      var raw := h.moduleName(excModuleWithClass);
      var (baseNamespace, baseClass) := h.namespaceWithClass(newExceptionArgs[1]);
      if baseNamespace.None? {
        if StartsWith(baseClass, "PyExc") {
          baseNamespace := Some(PythonNamespace);
        } else {
          baseNamespace := Some(raw);
        }
      }
      var (ns, cls) := h.namespaceWithClass(exceptionName);
      if cls == "OCCError" {
        cls := "PartExceptionOCCError";
      }
      if ns.None? {
        ns := Some(raw);
      }
      pyModuleRaw := raw;
      pyModule := h.namespaceToModule(raw);
      pyClass := h.className(excModuleWithClass);
      baseCppNamespace := baseNamespace.value;
      baseCppClass := baseClass;
      cppNamespace := ns.value;
      cppClass := cls;
      requiredImports := [];
    }

    /** `__str__`: the class statement, importing the base's module when the base is not a
        builtin; a base missing from the registry raises `ValueError`. */
    method Str(h: Helpers, exceptions: seq<ExceptionData>) returns (r: Result<string, RegistryError>)
      modifies this`requiredImports
      ensures var b := BaseClassText(RecordsOf(exceptions), Fields());
              && (b.Failure? ==> r == Failure(b.error) && requiredImports == old(requiredImports))
              && (b.Success? ==> r == Success(ClassStatement(h, pyClass, b.value.0))
                                 && requiredImports == (if b.value.1.Some? then AddOrdered(old(requiredImports), b.value.1.value)
                                                        else old(requiredImports)))
    {
      var baseClass;
      if baseCppNamespace == PythonNamespace {
        baseClass := RemovePrefix(baseCppClass, "PyExc_");
      } else {
        var ed := GetExceptionData(exceptions, baseCppClass, baseCppNamespace);
        if ed.Failure? {
          return Failure(ed.error);
        }
        requiredImports := AddOrdered(requiredImports, ed.value.pyModule);
        baseClass := ed.value.pyModule + "." + ed.value.pyClass;
      }
      r := Success("class " + pyClass + "(" + baseClass + "):\n" + h.indent("pass") + "\n");
    }
  }

  /** The records of a list of `ExceptionData` objects. */
  function RecordsOf(es: seq<ExceptionData>): (r: seq<Record>)
    ensures |r| == |es| && forall i :: 0 <= i < |es| ==> r[i] == es[i].Fields()
  {
    if es == [] then [] else [es[0].Fields()] + RecordsOf(es[1..])
  }

  /** `findExceptions` over the pattern's matches, in order. */
  method FindExceptions(h: Helpers, matches: seq<Match>) returns (r: Result<seq<ExceptionData>, RegistryError>)
    ensures var c := Collect(h, Calls(matches), {});
            && (r.Failure? <==> c.Failure?)
            && (r.Failure? ==> r.error == c.error)
            && (r.Success? ==> RecordsOf(r.value) == c.value
                               && forall e :: e in r.value ==> fresh(e) && e.requiredImports == [])
  {
    var calls := SplitCalls(matches);
    r := CollectCalls(h, calls);
  }

  /** The arguments of every match, split and stripped. */
  method SplitCalls(matches: seq<Match>) returns (calls: seq<Call>)
    ensures calls == Calls(matches)
  {
    calls := [];
    var i := 0;
    while i < |matches|
      invariant i <= |matches| && |calls| == i
      invariant forall k :: 0 <= k < i ==> calls[k] == Call(matches[k].name, ExceptionArgs(matches[k].funArg))
    {
      var funArgs := SplitExceptionArgs(matches[i].funArg);
      calls := calls + [Call(matches[i].name, funArgs)];
      i := i + 1;
    }
  }

  /** The loop of `findExceptions`: skip a name seen before, otherwise remember it and build
      the object. */
  method CollectCalls(h: Helpers, calls: seq<Call>) returns (r: Result<seq<ExceptionData>, RegistryError>)
    ensures var c := Collect(h, calls, {});
            && (r.Failure? <==> c.Failure?)
            && (r.Failure? ==> r.error == c.error)
            && (r.Success? ==> RecordsOf(r.value) == c.value
                               && forall e :: e in r.value ==> fresh(e) && e.requiredImports == [])
  {
    var seen: set<string> := {};
    var found: seq<ExceptionData> := [];
    var i := 0;
    WalkStart(h, calls);
    while i < |calls|
      invariant i <= |calls|
      invariant Collect(h, calls, {}) == Prepend(RecordsOf(found), Collect(h, calls[i..], seen))
      invariant forall k :: 0 <= k < |found| ==> fresh(found[k])
      invariant forall k :: 0 <= k < |found| ==> found[k].requiredImports == []
    {
      var c := calls[i];
      if c.name in seen {
        SkipSeen(h, calls, i, seen, RecordsOf(found));
      } else {
        if |c.args| < 2 {
          TooFewArgs(h, calls, i, seen, RecordsOf(found));
          return Failure(IndexError);
        }
        var ed := new ExceptionData(h, c.name, c.args);
        KeepNew(h, calls, i, seen, found, ed);
        seen := seen + {c.name};
        found := found + [ed];
      }
      i := i + 1;
    }
    WalkDone(h, calls, seen, RecordsOf(found));
    r := Success(found);
  }

  /** Past the last call, the walk adds nothing. */
  lemma WalkDone(h: Helpers, calls: seq<Call>, seen: set<string>, p: seq<Record>)
    ensures Prepend(p, Collect(h, calls[|calls|..], seen)) == Success(p)
  {
    assert calls[|calls|..] == [];
    assert p + [] == p;
  }

  /** Before the first call, the walk is all still to come. */
  lemma WalkStart(h: Helpers, calls: seq<Call>)
    ensures Collect(h, calls, {}) == Prepend(RecordsOf([]), Collect(h, calls[0..], {}))
  {
    assert calls[0..] == calls;
    var c := Collect(h, calls, {});
    if c.Success? {
      assert [] + c.value == c.value;
    }
  }

  /** A seen name adds nothing. */
  lemma SkipSeen(h: Helpers, calls: seq<Call>, i: nat, seen: set<string>, p: seq<Record>)
    requires i < |calls| && calls[i].name in seen
    ensures Prepend(p, Collect(h, calls[i..], seen)) == Prepend(p, Collect(h, calls[i + 1..], seen))
  {
    assert calls[i..][1..] == calls[i + 1..];
  }

  /** A new name with fewer than two arguments ends the walk with `IndexError`. */
  lemma TooFewArgs(h: Helpers, calls: seq<Call>, i: nat, seen: set<string>, p: seq<Record>)
    requires i < |calls| && calls[i].name !in seen && |calls[i].args| < 2
    ensures Prepend(p, Collect(h, calls[i..], seen)) == Failure(IndexError)
  {
  }

  /** A new name with enough arguments adds its record. */
  lemma KeepNew(h: Helpers, calls: seq<Call>, i: nat, seen: set<string>, found: seq<ExceptionData>, ed: ExceptionData)
    requires i < |calls| && calls[i].name !in seen && |calls[i].args| >= 2
    requires ed.Fields() == RecordOf(h, calls[i].name, calls[i].args)
    ensures Prepend(RecordsOf(found), Collect(h, calls[i..], seen))
         == Prepend(RecordsOf(found + [ed]), Collect(h, calls[i + 1..], seen + {calls[i].name}))
  {
    assert calls[i..][1..] == calls[i + 1..];
    var rec := RecordOf(h, calls[i].name, calls[i].args);
    FoundGrows(found, ed, rec);
    var rest := Collect(h, calls[i + 1..], seen + {calls[i].name});
    if rest.Success? {
      assert RecordsOf(found) + ([rec] + rest.value) == (RecordsOf(found) + [rec]) + rest.value;
    }
  }

  /** The stripped top-level arguments of one call. */
  method SplitExceptionArgs(funArg: string) returns (args: seq<string>)
    ensures args == ExceptionArgs(funArg)
  {
    var split := GenerateExpressionUntilChar(funArg, 0, ',', '(', ')');
    assert !BadSplitChar(',', '(', ')');
    args := StripArgs(split.value);
  }

  /** The list comprehension that strips each argument. */
  method StripArgs(pieces: seq<string>) returns (r: seq<string>)
    ensures r == StripEach(pieces)
  {
    r := [];
    var i := 0;
    while i < |pieces|
      invariant i <= |pieces| && r == StripEach(pieces)[..i]
    {
      PrefixSnoc(StripEach(pieces), i);
      r := r + [Strip(pieces[i])];
      i := i + 1;
    }
    assert StripEach(pieces)[..|pieces|] == StripEach(pieces);
  }

  /** A prefix one longer is the prefix and the next element. */
  lemma PrefixSnoc<T>(s: seq<T>, i: nat)
    requires i < |s|
    ensures s[..i + 1] == s[..i] + [s[i]]
  {
  }

  lemma FoundGrows(found: seq<ExceptionData>, ed: ExceptionData, rec: Record)
    requires ed.Fields() == rec
    ensures RecordsOf(found + [ed]) == RecordsOf(found) + [rec]
  {
    var grown := found + [ed];
    forall i | 0 <= i < |grown|
      ensures RecordsOf(grown)[i] == (RecordsOf(found) + [rec])[i]
    {
      if i < |found| {
        assert grown[i] == found[i];
      }
    }
  }

  /** `getExceptionData`: the first object with that class and namespace. */
  method GetExceptionData(exceptions: seq<ExceptionData>, cppClass: string, cppNamespace: string)
    returns (r: Result<ExceptionData, RegistryError>)
    ensures var f := FirstData(RecordsOf(exceptions), cppClass, cppNamespace);
            && (r.Success? <==> f.Some?)
            && (r.Success? ==> r.value == exceptions[f.value])
            && (r.Failure? ==> r.error == ExceptionNotFound(cppClass, cppNamespace))
  {
    var i := 0;
    while i < |exceptions|
      invariant i <= |exceptions|
      invariant forall j :: 0 <= j < i ==> !(exceptions[j].cppClass == cppClass && exceptions[j].cppNamespace == cppNamespace)
    {
      var e := exceptions[i];
      if e.cppClass == cppClass && e.cppNamespace == cppNamespace {
        FirstDataAt(RecordsOf(exceptions), cppClass, cppNamespace, i);
        return Success(e);
      }
      i := i + 1;
    }
    return Failure(ExceptionNotFound(cppClass, cppNamespace));
  }

  /** The first match is unique. */
  lemma FirstDataAt(records: seq<Record>, cppClass: string, cppNamespace: string, k: nat)
    requires k < |records| && records[k].cppClass == cppClass && records[k].cppNamespace == cppNamespace
    requires forall j :: 0 <= j < k ==> !(records[j].cppClass == cppClass && records[j].cppNamespace == cppNamespace)
    ensures FirstData(records, cppClass, cppNamespace) == Some(k)
  {
  }

  /** `getExceptionText` */
  method GetExceptionText(h: Helpers, exceptions: seq<ExceptionData>, cTypeExceptionText: string)
    returns (r: Result<string, RegistryError>)
    ensures r == ExceptionText(h, RecordsOf(exceptions), cTypeExceptionText)
  {
    var (_, cppClass) := h.namespaceWithClass(cTypeExceptionText);
    var i := 0;
    while i < |exceptions|
      invariant i <= |exceptions|
      invariant forall j :: 0 <= j < i ==> exceptions[j].cppClass != cppClass
    {
      var e := exceptions[i];
      if e.cppClass == cppClass {
        FirstWithClassAt(RecordsOf(exceptions), cppClass, i);
        var pyModule := if e.pyModuleRaw != "Base" then e.pyModuleRaw else "FreeCAD.Base";
        return Success(pyModule + "." + e.pyClass);
      }
      i := i + 1;
    }
    if StartsWith(cTypeExceptionText, "PyExc_") {
      return Success(RemovePrefix(cTypeExceptionText, "PyExc_"));
    }
    if Contains(cTypeExceptionText, "getPyExceptionType()") {
      return Success("Exception");
    }
    return Failure(UnknownException(cTypeExceptionText));
  }

  lemma FirstWithClassAt(records: seq<Record>, cppClass: string, k: nat)
    requires k < |records| && records[k].cppClass == cppClass
    requires forall j :: 0 <= j < k ==> records[j].cppClass != cppClass
    ensures FirstWithClass(records, cppClass) == Some(k)
  {
  }
}
