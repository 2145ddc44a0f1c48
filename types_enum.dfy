/**
  The type-constant stub (lib/freecad_stub_gen/generators/types_enum.py): every C++ type whose
  `::init()` the sources call becomes a constant `name = 'Original::Type'` inside a class named
  after the type's prefix.

  Each matched type text loses its spaces; with `::` turned into `_` it is split at its first
  `_` into a prefix and a name (no `_` at all: prefix `Common`, the whole text as the name; an
  empty prefix: skipped). The entries are grouped into one set per prefix and rendered as one
  class per prefix, classes and lines sorted, after a `# fmt: off` header. The regular
  expression finding the `::init()` calls is replaced by its matches, the indentation helper
  is a parameter, and writing the text to a file is not modelled.
*/
module TypesEnum {
  import opened Wrappers
  import opened Text
  import opened Ordering

  /** One constant: the class it goes to, its name and the type text it stands for. */
  datatype Entry = Entry(prefix: string, name: string, originalType: string)

  /** The prefix-to-constants table: constant name and original type per prefix. */
  type Groups = map<string, set<(string, string)>>

  /** The first line of the rendered text, which turns the `black` formatter off. */
  const Header := "# fmt: off\n"

  // ---------------------------------------------------------------------------
  // Normalising one matched type
  // ---------------------------------------------------------------------------

  /** `s.replace('::', '_')`: left to right, non-overlapping. */
  function ReplaceColons(s: string): (r: string)
    ensures r == [] <==> s == []
    ensures s != [] && s[0] != ':' ==> r[0] == s[0]
    decreases |s|
  {
    if |s| >= 2 && s[0] == ':' && s[1] == ':' then "_" + ReplaceColons(s[2..])
    else if s == [] then []
    else [s[0]] + ReplaceColons(s[1..])
  }

  /** No two colons in a row. */
  predicate NoColonPair(r: string) {
    forall i :: 0 <= i < |r| - 1 ==> !(r[i] == ':' && r[i + 1] == ':')
  }

  /** After the replacement no `::` is left. */
  lemma {:induction false} ReplaceColonsComplete(s: string)
    ensures NoColonPair(ReplaceColons(s))
    decreases |s|
  {
    if |s| >= 2 && s[0] == ':' && s[1] == ':' {
      ReplaceColonsComplete(s[2..]);
      var r := ReplaceColons(s);
      assert forall i :: 1 <= i < |r| ==> r[i] == ReplaceColons(s[2..])[i - 1];
    } else if s != [] {
      ReplaceColonsComplete(s[1..]);
      var r := ReplaceColons(s);
      var t := ReplaceColons(s[1..]);
      assert forall i :: 1 <= i < |r| ==> r[i] == t[i - 1];
      if s[0] == ':' && |s| >= 2 {
        assert s[1..][0] != ':';
        assert r[1] == t[0] == s[1];
      }
    }
  }

  /** Text without colons is left as it is. */
  lemma {:induction false} ReplaceColonsIdentity(s: string)
    requires ':' !in s
    ensures ReplaceColons(s) == s
    decreases |s|
  {
    if s != [] {
      assert ':' !in s[1..];
      ReplaceColonsIdentity(s[1..]);
    }
  }

  /** `match.group(1).replace(' ', '')` */
  function OriginalType(matched: string): string {
    RemoveChar(matched, ' ')
  }

  /** The type name the prefix and name come from. */
  function TypeName(matched: string): string {
    ReplaceColons(OriginalType(matched))
  }

  /** The constant one matched type gives, if any. */
  function Classify(matched: string): Option<Entry> {
    var originalType := OriginalType(matched);
    var typeName := ReplaceColons(originalType);
    if '_' in typeName then
      var k := Find(typeName, '_');
      if k == 0 then None else Some(Entry(typeName[..k], typeName[k + 1..], originalType))
    else
      Some(Entry("Common", typeName, originalType))
  }

  /** A type name with `_` is cut at its first `_`: the prefix is non-empty and holds no `_`,
      and prefix, `_` and name give the type name back. */
  lemma ClassifySplit(matched: string)
    requires '_' in TypeName(matched) && Classify(matched).Some?
    ensures var e := Classify(matched).value;
      && e.prefix != [] && '_' !in e.prefix
      && e.prefix + "_" + e.name == TypeName(matched)
      && e.originalType == OriginalType(matched)
  {
    var t := TypeName(matched);
    var k := Find(t, '_');
    assert t[..k] + "_" + t[k + 1..] == t;
  }

  /** A type name without `_` goes to `Common` whole. */
  lemma ClassifyCommon(matched: string)
    requires '_' !in TypeName(matched)
    ensures Classify(matched) == Some(Entry("Common", TypeName(matched), OriginalType(matched)))
  {
  }

  /** The only skipped types are those whose type name starts with `_`. */
  lemma ClassifySkips(matched: string)
    ensures Classify(matched).None? <==> (TypeName(matched) != [] && TypeName(matched)[0] == '_')
  {
  }

  // ---------------------------------------------------------------------------
  // Grouping
  // ---------------------------------------------------------------------------

  /** `prefixToTypes[prefix]` of the `defaultdict`: empty when the prefix is new. */
  function Members(groups: Groups, prefix: string): set<(string, string)> {
    if prefix in groups then groups[prefix] else {}
  }

  /** `prefixToTypes[prefix].add((name, originalType))`, or nothing for a skipped type. */
  function Add(groups: Groups, e: Option<Entry>): Groups {
    match e
    case None => groups
    case Some(e) => groups[e.prefix := Members(groups, e.prefix) + {(e.name, e.originalType)}]
  }

  /** The constant each match gives, in order. */
  function Classified(matches: seq<string>): seq<Option<Entry>> {
    seq(|matches|, i requires 0 <= i < |matches| => Classify(matches[i]))
  }

  /** The table after adding the given constants, in order. */
  function Collect(es: seq<Option<Entry>>): Groups
    decreases |es|
  {
    if es == [] then map[]
    else Add(Collect(es[..|es| - 1]), es[|es| - 1])
  }

  /** The table after all the matches. */
  function Group(matches: seq<string>): Groups {
    Collect(Classified(matches))
  }

  /** One more constant is added to the table of those before it. */
  lemma CollectSnoc(es: seq<Option<Entry>>, i: nat)
    requires i < |es|
    ensures Collect(es[..i + 1]) == Add(Collect(es[..i]), es[i])
  {
    assert es[..i + 1][..i] == es[..i];
  }

  /** A constant is in the table exactly when it was added. */
  lemma {:induction false} CollectMembers(es: seq<Option<Entry>>, prefix: string, c: (string, string))
    ensures (prefix in Collect(es) && c in Collect(es)[prefix]) <==> Some(Entry(prefix, c.0, c.1)) in es
    decreases |es|
  {
    if es != [] {
      var init := es[..|es| - 1];
      CollectMembers(init, prefix, c);
      assert es == init + [es[|es| - 1]];
    }
  }

  /** A constant is in the table exactly when some match gives it. */
  lemma GroupMembers(matches: seq<string>, prefix: string, name: string, originalType: string)
    ensures (prefix in Group(matches) && (name, originalType) in Group(matches)[prefix])
        <==> exists k :: 0 <= k < |matches| && Classify(matches[k]) == Some(Entry(prefix, name, originalType))
  {
    var es := Classified(matches);
    var e := Some(Entry(prefix, name, originalType));
    CollectMembers(es, prefix, (name, originalType));
    if e in es {
      var k :| 0 <= k < |es| && es[k] == e;
      assert Classify(matches[k]) == e;
    }
    if exists k :: 0 <= k < |matches| && Classify(matches[k]) == e {
      var k :| 0 <= k < |matches| && Classify(matches[k]) == e;
      assert es[k] == e;
    }
  }

  /** Every prefix in the table has at least one constant. */
  lemma {:induction false} CollectNonEmpty(es: seq<Option<Entry>>)
    ensures forall p :: p in Collect(es) ==> Collect(es)[p] != {}
    decreases |es|
  {
    if es != [] {
      CollectNonEmpty(es[..|es| - 1]);
    }
  }

  /** Every class of the rendered text has at least one line. */
  lemma GroupNonEmpty(matches: seq<string>)
    ensures forall p :: p in Group(matches) ==> Group(matches)[p] != {}
  {
    CollectNonEmpty(Classified(matches));
  }

  /** Adding a constant already added changes nothing. */
  lemma CollectRepeat(es: seq<Option<Entry>>, e: Option<Entry>)
    requires e in es
    ensures Collect(es + [e]) == Collect(es)
  {
    assert (es + [e])[..|es|] == es;
    if e.Some? {
      var g := Collect(es);
      var c := (e.value.name, e.value.originalType);
      CollectMembers(es, e.value.prefix, c);
      assert Members(g, e.value.prefix) + {c} == g[e.value.prefix];
    }
  }

  /** A type matched again changes nothing: the set drops the duplicate. */
  lemma GroupRepeat(matches: seq<string>, m: string)
    requires m in matches
    ensures Group(matches + [m]) == Group(matches)
  {
    var k :| 0 <= k < |matches| && matches[k] == m;
    assert Classified(matches)[k] == Classify(m);
    assert Classified(matches + [m]) == Classified(matches) + [Classify(m)];
    CollectRepeat(Classified(matches), Classify(m));
  }

  /** The first loop of `generateTypes`: the table of all the matched types. */
  method FillGroups(matches: seq<string>) returns (prefixToTypes: Groups)
    ensures prefixToTypes == Group(matches)
  {
    prefixToTypes := map[];
    for i := 0 to |matches|
      invariant prefixToTypes == Collect(Classified(matches)[..i])
    {
      CollectSnoc(Classified(matches), i);
      var originalType := RemoveChar(matches[i], ' ');
      var typeName := ReplaceColons(originalType);
      var prefix, name;
      if '_' in typeName {
        var k := Find(typeName, '_');
        prefix, name := typeName[..k], typeName[k + 1..];
        if prefix == [] {
          assert Classify(matches[i]).None?;
          continue;
        }
      } else {
        prefix, name := "Common", typeName;
      }
      assert Classify(matches[i]) == Some(Entry(prefix, name, originalType));
      prefixToTypes := prefixToTypes[prefix := Members(prefixToTypes, prefix) + {(name, originalType)}];
    }
    assert Classified(matches)[..|matches|] == Classified(matches);
  }

  // ---------------------------------------------------------------------------
  // Rendering
  // ---------------------------------------------------------------------------

  /** `f"{name} = '{originalType}'"` */
  function Line(c: (string, string)): string {
    c.0 + " = '" + c.1 + "'"
  }

  /** One line per constant, in the given order. */
  function Lines(cs: seq<(string, string)>): seq<string> {
    seq(|cs|, i requires 0 <= i < |cs| => Line(cs[i]))
  }

  /** One class: its header and its indented lines, then two blank lines. */
  function ClassText(indent: string -> string, prefix: string, lines: seq<string>): string {
    "class " + prefix + ":\n" + indent(Join(lines, "\n")) + "\n\n\n"
  }

  /** The class of one prefix, its constants sorted. */
  ghost function ClassOf(indent: string -> string, groups: Groups, prefix: string): string
    requires prefix in groups
  {
    PairLessOrder();
    ClassText(indent, prefix, Lines(Sorted(groups[prefix], PairLess)))
  }

  /** The classes of the given prefixes, one after the other. */
  ghost function Classes(indent: string -> string, groups: Groups, prefixes: seq<string>): string
    requires forall p :: p in prefixes ==> p in groups
    decreases |prefixes|
  {
    if prefixes == [] then []
    else
      var last := prefixes[|prefixes| - 1];
      Classes(indent, groups, prefixes[..|prefixes| - 1]) + ClassOf(indent, groups, last)
  }

  /** The prefixes in the order their classes appear. */
  ghost function Prefixes(groups: Groups): (r: seq<string>)
    ensures forall p :: p in r <==> p in groups
  {
    StrLessOrder();
    SortedProperties(groups.Keys, StrLess);
    Sorted(groups.Keys, StrLess)
  }

  /** The whole rendered text. */
  ghost function TypesText(indent: string -> string, groups: Groups): string {
    RStrip(Header + Classes(indent, groups, Prefixes(groups))) + "\n"
  }

  /** The classes come in strictly increasing prefix order, one per prefix. */
  lemma PrefixOrder(groups: Groups)
    ensures Increasing(Prefixes(groups), StrLess)
    ensures |Prefixes(groups)| == |groups|
  {
    StrLessOrder();
    SortedProperties(groups.Keys, StrLess);
  }

  /** Within a class the constants come in strictly increasing order, each once. */
  lemma ConstantOrder(groups: Groups, prefix: string)
    requires prefix in groups
    ensures StrictTotalOrder(PairLess)
    ensures Increasing(Sorted(groups[prefix], PairLess), PairLess)
    ensures forall c :: c in Sorted(groups[prefix], PairLess) <==> c in groups[prefix]
  {
    PairLessOrder();
    SortedProperties(groups[prefix], PairLess);
  }

  /** The text starts with the header line and ends with exactly one newline. */
  lemma TypesTextShape(indent: string -> string, groups: Groups)
    ensures var r := TypesText(indent, groups);
      && StartsWith(r, Header)
      && r[|r| - 1] == '\n' && !IsSpace(r[|r| - 2])
  {
    var c := Classes(indent, groups, Prefixes(groups));
    ClassesStart(indent, groups, Prefixes(groups));
    assert (Header + c)[..11] == Header;
    assert c != [] ==> (Header + c)[11] == c[0];
    StrippedShape(Header + c);
  }

  /** `text.rstrip() + '\n'` for a text that starts with the header line and goes on, if at
      all, with a character that is not whitespace. */
  lemma StrippedShape(s: string)
    requires StartsWith(s, Header) && (|s| == 11 || !IsSpace(s[11]))
    ensures var r := RStrip(s) + "\n";
      && StartsWith(r, Header)
      && r[|r| - 1] == '\n' && !IsSpace(r[|r| - 2])
  {
    var t := RStrip(s);
    assert s[9] == 'f';
    RStripKeeps(s, 9);
    if |s| == 11 {
      assert s == Header;
      assert t == "# fmt: off";
    } else {
      RStripKeeps(s, 11);
      assert t[..11] == Header;
      assert (t + "\n")[..11] == t[..11];
    }
  }

  /** `rstrip` keeps everything up to a character that is not whitespace. */
  lemma RStripKeeps(s: string, n: nat)
    requires n < |s| && !IsSpace(s[n])
    ensures |RStrip(s)| > n && RStrip(s)[..n] == s[..n]
  {
    var t := RStrip(s);
    assert s[..|t|] == t;
  }

  /** The classes' text is empty or starts with `class`. */
  lemma {:induction false} ClassesStart(indent: string -> string, groups: Groups, prefixes: seq<string>)
    requires forall p :: p in prefixes ==> p in groups
    ensures var c := Classes(indent, groups, prefixes); c == [] || c[0] == 'c'
    decreases |prefixes|
  {
    if prefixes != [] {
      assert forall p :: p in prefixes[..|prefixes| - 1] ==> p in prefixes;
      ClassesStart(indent, groups, prefixes[..|prefixes| - 1]);
    }
  }

  /** Without any matched type the text is the header alone. */
  lemma NoTypes(indent: string -> string)
    ensures TypesText(indent, Group([])) == Header
  {
    var s := Header + Classes(indent, map[], Prefixes(map[]));
    assert Prefixes(map[]) == [];
    assert s == "# fmt: off\n";
    assert RStrip(s) == "# fmt: off";
  }

  /** The second loop of `generateTypes`: one class per prefix, then the trailing blank
      lines cut down to one newline. */
  method RenderTypes(indent: string -> string, prefixToTypes: Groups) returns (typeText: string)
    ensures typeText == TypesText(indent, prefixToTypes)
  {
    typeText := Header;
    typeText := AppendClasses(indent, prefixToTypes, typeText);
    typeText := RStrip(typeText) + "\n";
  }

  /** The loop over the sorted prefixes, appending each class to `typeText`. */
  method AppendClasses(indent: string -> string, prefixToTypes: Groups, text: string) returns (typeText: string)
    ensures typeText == text + Classes(indent, prefixToTypes, Prefixes(prefixToTypes))
  {
    typeText := text;
    var prefixes := SortedPrefixes(prefixToTypes);
    for i := 0 to |prefixes|
      invariant typeText == text + Classes(indent, prefixToTypes, prefixes[..i])
    {
      ClassesSnoc(indent, prefixToTypes, prefixes, i);
      var classText := RenderClass(indent, prefixToTypes, prefixes[i]);
      Associative(text, Classes(indent, prefixToTypes, prefixes[..i]), classText);
      typeText := typeText + classText;
    }
    assert prefixes[..|prefixes|] == prefixes;
  }

  /** `sorted(prefixToTypes.items(), key=itemgetter(0))`, keeping the keys. */
  method SortedPrefixes(prefixToTypes: Groups) returns (prefixes: seq<string>)
    ensures prefixes == Prefixes(prefixToTypes)
  {
    StrLessOrder();
    prefixes := SortSet(prefixToTypes.Keys, StrLess);
  }

  /** The class text of one prefix: its header and its sorted constants. */
  method RenderClass(indent: string -> string, prefixToTypes: Groups, prefix: string) returns (classText: string)
    requires prefix in prefixToTypes
    ensures classText == ClassOf(indent, prefixToTypes, prefix)
  {
    PairLessOrder();
    var typeNames := SortSet(prefixToTypes[prefix], PairLess);
    var klassText := "class " + prefix + ":\n";
    var body := Join(Lines(typeNames), "\n");
    classText := klassText + indent(body) + "\n\n\n";
  }

  lemma Associative(a: string, b: string, c: string)
    ensures (a + b) + c == a + (b + c)
  {
  }

  /** One more prefix adds its class at the end. */
  lemma ClassesSnoc(indent: string -> string, groups: Groups, prefixes: seq<string>, i: nat)
    requires i < |prefixes| && forall p :: p in prefixes ==> p in groups
    ensures Classes(indent, groups, prefixes[..i + 1])
         == Classes(indent, groups, prefixes[..i]) + ClassOf(indent, groups, prefixes[i])
  {
    assert prefixes[..i + 1][..i] == prefixes[..i];
  }

  /** `generateTypes` without the file write: the text of the type-constant stub. */
  method GenerateTypes(indent: string -> string, matches: seq<string>) returns (typeText: string)
    ensures typeText == TypesText(indent, Group(matches))
  {
    var prefixToTypes := FillGroups(matches);
    typeText := RenderTypes(indent, prefixToTypes);
  }
}
