/**
  Scanners over raw, uncompiled C++ text (lib/freecad_stub_gen/generators/common/cpp_function.py):

  - a filter that hides the `#elif`/`#else` branches of preprocessor conditionals,
  - a locator for a bracket-balanced call starting at an offset,
  - a splitter into top-level comma-separated expressions,
  - the argument extractor built from the two.

  Each scanner is a method with a loop, proved equal to a recursive specification
  function; the lemmas below state what those functions mean.
*/
module CppFunction {
  import opened Wrappers
  import opened Text

  /** A character of the text with its index, as Python's `enumerate` pairs them. */
  type Item = (int, char)

  /** Errors the scanners raise. */
  datatype ScanError =
    | NegativeStart(start: int)   // `islice` refuses a negative start
    | InvalidSplitChar(c: char)   // the splitter refuses a quote, a backslash or a bracket

  /** The items `enumerate(islice(text, start, len(text)), start)` produces. */
  function Enumerate(text: string, start: nat): (r: seq<Item>)
    ensures |r| == if start <= |text| then |text| - start else 0
    ensures forall k :: 0 <= k < |r| ==> r[k] == (start + k, text[start + k])
    decreases |text| - start
  {
    if start < |text| then [(start, text[start])] + Enumerate(text, start + 1) else []
  }

  // ---------------------------------------------------------------------------
  // Preprocessor-branch filter (`_skipAdditionalDirectiveBlocks`)
  // ---------------------------------------------------------------------------

  /** The filter's state: a stack of branch markers (`true` = live) and the last characters read. */
  datatype Directives = Directives(stack: seq<bool>, buffer: seq<char>)

  /** Capacity of the rolling buffer (`deque(maxlen=8)`). */
  const BufferLength: nat := 8

  const InitialDirectives := Directives([true], [])

  /** The stack never empties and the buffer never exceeds its capacity. */
  predicate ValidDirectives(d: Directives) {
    |d.stack| >= 1 && |d.buffer| <= BufferLength
  }

  /** Whether characters are currently passed on: the innermost marker is live. */
  predicate Live(d: Directives)
    requires ValidDirectives(d)
  {
    d.stack[|d.stack| - 1]
  }

  /** Characters at which a directive just read is recognised. */
  predicate IsBlank(c: char) {
    c == ' ' || c == '\n' || c == '\t'
  }

  /** Appending to a bounded deque: the oldest character falls out when it is full. */
  function Buffered(buffer: seq<char>, c: char): (r: seq<char>)
    requires |buffer| <= BufferLength
    ensures |r| <= BufferLength
  {
    var b := buffer + [c];
    if |b| > BufferLength then b[1..] else b
  }

  /** The directives the filter recognises at the end of the buffered text. */
  datatype Directive = EndIf | ElseBranch | IfBranch | NoDirective

  /** Which directive, if any, the buffered text (without the blank just read) ends with;
      `#endif` is tested first, then `#elif`/`#else`, then `#if`/`#ifdef`/`#ifndef`. */
  function Recognise(text: string): Directive {
    if EndsWith(text, "#endif") then EndIf
    else if EndsWith(text, "#elif") || EndsWith(text, "#else") then ElseBranch
    else if EndsWith(text, "#if") || EndsWith(text, "#ifdef") || EndsWith(text, "#ifndef") then IfBranch
    else NoDirective
  }

  /** One character of the filter. */
  function DirectiveStep(d: Directives, c: char): (r: Directives)
    requires ValidDirectives(d)
    ensures ValidDirectives(r)
  {
    var buffer := Buffered(d.buffer, c);
    if IsBlank(c) && '#' in buffer then
      match Recognise(buffer[..|buffer| - 1])
      case EndIf => Directives(if |d.stack| > 1 then d.stack[..|d.stack| - 1] else d.stack, [])
      case ElseBranch => Directives(d.stack[..|d.stack| - 1] + [false], [])
      case IfBranch => Directives(d.stack + [true], [])
      case NoDirective => Directives(d.stack, buffer)
    else
      Directives(d.stack, buffer)
  }

  /** The items the filter passes on, starting from state `d`. */
  function FilterFrom(d: Directives, items: seq<Item>): (r: seq<Item>)
    requires ValidDirectives(d)
    ensures |r| <= |items|
    decreases |items|
  {
    if items == [] then []
    else
      var d' := DirectiveStep(d, items[0].1);
      (if Live(d') then [items[0]] else []) + FilterFrom(d', items[1..])
  }

  /** One character of `_skipAdditionalDirectiveBlocks`: append it to the buffer and, at a blank
      after a `#`, push, kill or pop a branch marker. */
  method ReadDirectiveChar(stack: seq<bool>, buffer: seq<char>, c: char)
    returns (stack': seq<bool>, buffer': seq<char>)
    requires ValidDirectives(Directives(stack, buffer))
    ensures Directives(stack', buffer') == DirectiveStep(Directives(stack, buffer), c)
  {
    DirectiveStepCases(Directives(stack, buffer), c);
    stack', buffer' := stack, Buffered(buffer, c);
    if IsBlank(c) && '#' in buffer' {
      match Recognise(buffer'[..|buffer'| - 1])
      case EndIf =>
        if |stack'| > 1 {
          stack' := stack'[..|stack'| - 1];
        }
        buffer' := [];
      case ElseBranch =>
        stack' := stack'[..|stack'| - 1] + [false];
        buffer' := [];
      case IfBranch =>
        stack' := stack' + [true];
        buffer' := [];
      case NoDirective =>
    }
  }

  /** `_skipAdditionalDirectiveBlocks`: keeps the first branch of each conditional. */
  method SkipAdditionalDirectiveBlocks(items: seq<Item>) returns (kept: seq<Item>)
    ensures kept == FilterFrom(InitialDirectives, items)
  {
    var directiveStack := [true];
    var buffer: seq<char> := [];
    kept := [];
    var i := 0;
    ghost var target := FilterFrom(InitialDirectives, items);
    assert items[0..] == items && [] + target == target;
    while i < |items|
      invariant FilterSoFar(kept, Directives(directiveStack, buffer), items, i, target)
    {
      FilterSoFarStep(kept, Directives(directiveStack, buffer), items, i, target);
      directiveStack, buffer := ReadDirectiveChar(directiveStack, buffer, items[i].1);
      if directiveStack[|directiveStack| - 1] {
        kept := kept + [items[i]];
      }
      i := i + 1;
    }
    assert items[|items|..] == [] && kept + [] == kept;
  }

  /** The items kept so far, followed by what the filter keeps of `items[i..]` from state `d`, are
      `target`. (The rest of the filter is named inside the quantifier so that the loop above can
      be checked without unfolding `FilterFrom`.) */
  predicate FilterSoFar(kept: seq<Item>, d: Directives, items: seq<Item>, i: nat, target: seq<Item>) {
    && ValidDirectives(d) && i <= |items|
    && forall rest: seq<Item> {:trigger kept + rest} :: rest == FilterFrom(d, items[i..]) ==> kept + rest == target
  }

  /** One item of the loop of `SkipAdditionalDirectiveBlocks`. */
  lemma FilterSoFarStep(kept: seq<Item>, d: Directives, items: seq<Item>, i: nat, target: seq<Item>)
    requires FilterSoFar(kept, d, items, i, target) && i < |items|
    ensures var d' := DirectiveStep(d, items[i].1);
            && (Live(d') ==> FilterSoFar(kept + [items[i]], d', items, i + 1, target))
            && (!Live(d') ==> FilterSoFar(kept, d', items, i + 1, target))
  {
    var d' := DirectiveStep(d, items[i].1);
    FilterAdvance(kept, d, items, i);
    var rest := FilterFrom(d', items[i + 1..]);
    assert kept + FilterFrom(d, items[i..]) == target;
    if Live(d') {
      assert kept + [items[i]] + rest == target;
    } else {
      assert kept + [] == kept;
    }
  }

  /** `DirectiveStep` case by case, as the loop of `SkipAdditionalDirectiveBlocks` takes it. */
  lemma DirectiveStepCases(d: Directives, c: char)
    requires ValidDirectives(d)
    ensures var b := Buffered(d.buffer, c);
            var top := |d.stack| - 1;
            && (!(IsBlank(c) && '#' in b) ==> DirectiveStep(d, c) == Directives(d.stack, b))
            && (IsBlank(c) && '#' in b ==>
                match Recognise(b[..|b| - 1])
                case EndIf => DirectiveStep(d, c) == Directives(if top > 0 then d.stack[..top] else d.stack, [])
                case ElseBranch => DirectiveStep(d, c) == Directives(d.stack[..top] + [false], [])
                case IfBranch => DirectiveStep(d, c) == Directives(d.stack + [true], [])
                case NoDirective => DirectiveStep(d, c) == Directives(d.stack, b))
  {
  }

  /** One step of the filter over `items[i..]`, after the items already kept. */
  lemma FilterAdvance(kept: seq<Item>, d: Directives, items: seq<Item>, i: nat)
    requires ValidDirectives(d) && i < |items|
    ensures var d' := DirectiveStep(d, items[i].1);
            (kept + FilterFrom(d, items[i..])
             == (kept + if Live(d') then [items[i]] else []) + FilterFrom(d', items[i + 1..]))
  {
    assert items[i..][1..] == items[i + 1..];
  }

  /** Without a `#` in sight the filter never changes its stack, so it passes everything on. */
  lemma {:induction false} FilterWithoutDirectives(d: Directives, items: seq<Item>)
    requires ValidDirectives(d) && Live(d) && '#' !in d.buffer
    requires forall k :: 0 <= k < |items| ==> items[k].1 != '#'
    ensures FilterFrom(d, items) == items
    decreases |items|
  {
    if items != [] {
      var d' := DirectiveStep(d, items[0].1);
      assert d'.stack == d.stack && '#' !in d'.buffer;
      FilterWithoutDirectives(d', items[1..]);
    }
  }

  /** Once a branch is dead, nothing is passed on until a directive is read. */
  lemma {:induction false} DeadBranchHidden(d: Directives, items: seq<Item>)
    requires ValidDirectives(d) && !Live(d) && '#' !in d.buffer
    requires forall k :: 0 <= k < |items| ==> items[k].1 != '#'
    ensures FilterFrom(d, items) == []
    decreases |items|
  {
    if items != [] {
      var d' := DirectiveStep(d, items[0].1);
      assert d'.stack == d.stack && '#' !in d'.buffer;
      DeadBranchHidden(d', items[1..]);
    }
  }

  /** The characters of the items the filter keeps. */
  function Chars(items: seq<Item>): (r: string)
    ensures |r| == |items|
    ensures forall k :: 0 <= k < |items| ==> r[k] == items[k].1
  {
    if items == [] then [] else [items[0].1] + Chars(items[1..])
  }

  // ---------------------------------------------------------------------------
  // Bracket-balanced call locator (`findFunctionCall`)
  // ---------------------------------------------------------------------------

  /** The change of nesting depth one character causes (`bracketL` is tested first). */
  function Delta(c: char, bracketL: char, bracketR: char): int {
    if c == bracketL then 1 else if c == bracketR then -1 else 0
  }

  /** Net nesting depth of a run of items: opening brackets minus closing brackets. */
  function Depth(items: seq<Item>, bracketL: char, bracketR: char): int {
    if items == [] then 0 else Delta(items[0].1, bracketL, bracketR) + Depth(items[1..], bracketL, bracketR)
  }

  /** Item `k` is a closing bracket that brings the depth, starting at `depth`, back to zero. */
  predicate ClosesAt(items: seq<Item>, k: nat, depth: int, bracketL: char, bracketR: char)
    requires k < |items|
  {
    items[k].1 == bracketR && items[k].1 != bracketL && depth + Depth(items[..k + 1], bracketL, bracketR) == 0
  }

  /** The index of the last item the scan reads, starting at `depth` with `bodyEnd` as the last index read. */
  function ScanEnd(items: seq<Item>, depth: int, bodyEnd: int, bracketL: char, bracketR: char): int
    decreases |items|
  {
    if items == [] then bodyEnd
    else
      var (i, c) := items[0];
      if c == bracketL then ScanEnd(items[1..], depth + 1, i, bracketL, bracketR)
      else if c == bracketR && depth - 1 == 0 then i
      else if c == bracketR then ScanEnd(items[1..], depth - 1, i, bracketL, bracketR)
      else ScanEnd(items[1..], depth, i, bracketL, bracketR)
  }

  /** Where the scan starts: the given offset, or else the first `(` (-1 when there is none). */
  function StartOf(text: string, bodyStart: Option<int>): int {
    if bodyStart.None? then Find(text, '(') else bodyStart.value
  }

  /** The items the scan reads: the whole tail, or only the live branches when the text holds `#if`. */
  function Visible(text: string, start: nat): seq<Item> {
    var items := Enumerate(text, start);
    if Contains(text, "#if") then FilterFrom(InitialDirectives, items) else items
  }

  /** The text `findFunctionCall` returns. */
  function CallSpan(text: string, bodyStart: Option<int>, bracketL: char, bracketR: char): Result<string, ScanError> {
    var start := StartOf(text, bodyStart);
    if start < 0 then Failure(NegativeStart(start))
    else Success(Slice(text, start, ScanEnd(Visible(text, start), 0, 0, bracketL, bracketR) + 1))
  }

  /** `findFunctionCall`: the text from the start up to the bracket that closes the first one opened. */
  method FindFunctionCall(text: string, bodyStart: Option<int>, bracketL: char, bracketR: char)
    returns (r: Result<string, ScanError>)
    ensures r == CallSpan(text, bodyStart, bracketL, bracketR)
  {
    var start := if bodyStart.None? then Find(text, '(') else bodyStart.value;
    if start < 0 {
      return Failure(NegativeStart(start));
    }
    var items := Enumerate(text, start);
    if Contains(text, "#if") {
      items := SkipAdditionalDirectiveBlocks(items);
    }
    var bodyEnd := ScanCall(items, bracketL, bracketR);
    r := Success(Slice(text, start, bodyEnd + 1));
  }

  /** The bracket scan of `findFunctionCall`: the index of the last item read, which is the
      closing bracket that brings the depth back to zero, or else the last item. */
  method ScanCall(items: seq<Item>, bracketL: char, bracketR: char) returns (bodyEnd: int)
    ensures bodyEnd == ScanEnd(items, 0, 0, bracketL, bracketR)
  {
    var depth := 0;
    bodyEnd := 0;
    var i := 0;
    while i < |items|
      invariant 0 <= i <= |items|
      invariant ScanEnd(items[i..], depth, bodyEnd, bracketL, bracketR) == ScanEnd(items, 0, 0, bracketL, bracketR)
    {
      assert items[i..][1..] == items[i + 1..];
      var c := items[i].1;
      bodyEnd := items[i].0;
      if c == bracketL {
        depth := depth + 1;
      } else if c == bracketR {
        depth := depth - 1;
        if depth == 0 {
          break;
        }
      }
      i := i + 1;
    }
  }

  /** The depth of `items[..k + 1]` seen from the second item on. */
  lemma DepthUnfold(items: seq<Item>, k: nat, bracketL: char, bracketR: char)
    requires 0 < k < |items|
    ensures Depth(items[..k + 1], bracketL, bracketR)
         == Delta(items[0].1, bracketL, bracketR) + Depth(items[1..][..k], bracketL, bracketR)
  {
    assert items[..k + 1][1..] == items[1..][..k];
  }

  /** The depth of a single item. */
  lemma DepthFirst(items: seq<Item>, bracketL: char, bracketR: char)
    requires |items| >= 1
    ensures Depth(items[..1], bracketL, bracketR) == Delta(items[0].1, bracketL, bracketR)
  {
    assert items[..1][1..] == [];
  }

  /** The scan stops at the first bracket that closes the depth it started with. */
  lemma {:induction false} ScanEndAtFirstClose(items: seq<Item>, depth: int, bodyEnd: int, k: nat, bracketL: char, bracketR: char)
    requires k < |items| && ClosesAt(items, k, depth, bracketL, bracketR)
    requires forall j :: 0 <= j < k ==> !ClosesAt(items, j, depth, bracketL, bracketR)
    ensures ScanEnd(items, depth, bodyEnd, bracketL, bracketR) == items[k].0
    decreases k
  {
    var (i, c) := items[0];
    var depth' := depth + Delta(c, bracketL, bracketR);
    DepthFirst(items, bracketL, bracketR);
    if k > 0 {
      assert !ClosesAt(items, 0, depth, bracketL, bracketR);
      assert !(c == bracketR && c != bracketL && depth - 1 == 0);
      DepthUnfold(items, k, bracketL, bracketR);
      forall j | 0 <= j < k - 1
        ensures !ClosesAt(items[1..], j, depth', bracketL, bracketR)
      {
        DepthUnfold(items, j + 1, bracketL, bracketR);
        assert !ClosesAt(items, j + 1, depth, bracketL, bracketR);
      }
      ScanEndAtFirstClose(items[1..], depth', i, k - 1, bracketL, bracketR);
    }
  }

  /** Without a closing bracket, the scan reads to the last item. */
  lemma {:induction false} ScanEndUnclosed(items: seq<Item>, depth: int, bodyEnd: int, bracketL: char, bracketR: char)
    requires forall j :: 0 <= j < |items| ==> !ClosesAt(items, j, depth, bracketL, bracketR)
    ensures ScanEnd(items, depth, bodyEnd, bracketL, bracketR) == if items == [] then bodyEnd else items[|items| - 1].0
    decreases |items|
  {
    if items != [] {
      var (i, c) := items[0];
      var depth' := depth + Delta(c, bracketL, bracketR);
      DepthFirst(items, bracketL, bracketR);
      assert !ClosesAt(items, 0, depth, bracketL, bracketR);
      forall j | 0 <= j < |items| - 1
        ensures !ClosesAt(items[1..], j, depth', bracketL, bracketR)
      {
        DepthUnfold(items, j + 1, bracketL, bracketR);
        assert !ClosesAt(items, j + 1, depth, bracketL, bracketR);
      }
      ScanEndUnclosed(items[1..], depth', i, bracketL, bracketR);
    }
  }

  /** Without directives, the call span runs from the start to the first closing bracket that
      balances the scan, inclusive: it ends with that bracket and its net depth is zero. */
  lemma CallSpanClosed(text: string, start: nat, k: nat, bracketL: char, bracketR: char)
    requires !Contains(text, "#if")
    requires start + k < |text|
    requires ClosesAt(Enumerate(text, start), k, 0, bracketL, bracketR)
    requires forall j :: 0 <= j < k ==> !ClosesAt(Enumerate(text, start), j, 0, bracketL, bracketR)
    ensures CallSpan(text, Some(start), bracketL, bracketR) == Success(text[start..start + k + 1])
    ensures text[start + k] == bracketR
  {
    ScanEndClosed(text, start, k, bracketL, bracketR);
    assert Slice(text, start, start + k + 1) == text[start..start + k + 1] by {
      assert Bound(start, |text|) == start && Bound(start + k + 1, |text|) == start + k + 1;
    }
    CallSpanEndsAt(text, start, start + k, text[start..start + k + 1], bracketL, bracketR);
  }

  /** Without a balancing bracket, the call span is the whole tail. */
  lemma CallSpanUnclosed(text: string, start: nat, bracketL: char, bracketR: char)
    requires !Contains(text, "#if")
    requires start < |text|
    requires forall j :: 0 <= j < |text| - start ==> !ClosesAt(Enumerate(text, start), j, 0, bracketL, bracketR)
    ensures CallSpan(text, Some(start), bracketL, bracketR) == Success(text[start..])
  {
    ScanEndUnclosedTail(text, start, bracketL, bracketR);
    SliceToEnd(text, start);
    CallSpanEndsAt(text, start, |text| - 1, text[start..], bracketL, bracketR);
  }

  /** The scan of the tail from `start` ends at its first balancing bracket, `k` items in. */
  lemma ScanEndClosed(text: string, start: nat, k: nat, bracketL: char, bracketR: char)
    requires start + k < |text|
    requires ClosesAt(Enumerate(text, start), k, 0, bracketL, bracketR)
    requires forall j :: 0 <= j < k ==> !ClosesAt(Enumerate(text, start), j, 0, bracketL, bracketR)
    ensures ScanEnd(Enumerate(text, start), 0, 0, bracketL, bracketR) == start + k
    ensures text[start + k] == bracketR
  {
    var items := Enumerate(text, start);
    ScanEndAtFirstClose(items, 0, 0, k, bracketL, bracketR);
    assert items[k] == (start + k, text[start + k]);
  }

  /** Without a balancing bracket, the scan of the tail from `start` ends at the last character. */
  lemma ScanEndUnclosedTail(text: string, start: nat, bracketL: char, bracketR: char)
    requires start < |text|
    requires forall j :: 0 <= j < |text| - start ==> !ClosesAt(Enumerate(text, start), j, 0, bracketL, bracketR)
    ensures ScanEnd(Enumerate(text, start), 0, 0, bracketL, bracketR) == |text| - 1
  {
    var items := Enumerate(text, start);
    assert |items| == |text| - start > 0;
    ScanEndUnclosed(items, 0, 0, bracketL, bracketR);
    assert items[|items| - 1] == (|text| - 1, text[|text| - 1]);
  }

  /** Without directives, a scan of the enumerated tail that ends at `e` gives the text up to `e`. */
  lemma CallSpanEndsAt(text: string, start: nat, e: int, span: string, bracketL: char, bracketR: char)
    requires !Contains(text, "#if")
    requires ScanEnd(Enumerate(text, start), 0, 0, bracketL, bracketR) == e
    requires Slice(text, start, e + 1) == span
    ensures CallSpan(text, Some(start), bracketL, bracketR) == Success(span)
  {
    assert Visible(text, start) == Enumerate(text, start);
  }

  /** `text[start:len(text)]` is the tail from `start`. */
  lemma SliceToEnd(text: string, start: nat)
    requires start < |text|
    ensures Slice(text, start, |text|) == text[start..]
  {
    assert Bound(start, |text|) == start && Bound(|text|, |text|) == |text|;
  }

  // ---------------------------------------------------------------------------
  // Top-level expression splitter (`generateExpressionUntilChar`)
  // ---------------------------------------------------------------------------

  /** Lexer state: after a backslash, inside a double-quoted span, and the bracket depth. */
  datatype Lexer = Lexer(escaped: bool, quoted: bool, depth: int)

  /** What one character does to the piece being built. */
  datatype Action = Keep | Cut | Stop

  /** The characters the splitter refuses as a separator. */
  predicate BadSplitChar(c: char, bracketL: char, bracketR: char) {
    c == '\\' || c == '"' || c == bracketL || c == bracketR
  }

  /** One character of the splitter. */
  function LexStep(st: Lexer, c: char, sep: char, bracketL: char, bracketR: char): (Lexer, Action) {
    if st.escaped then (st.(escaped := false), Keep)
    else if c == '\\' then (st.(escaped := true), Keep)
    else if c == '"' then (st.(quoted := !st.quoted), Keep)
    else if st.quoted then (st, Keep)
    else if c == bracketL then (st.(depth := st.depth + 1), Keep)
    else if c == bracketR then (st.(depth := st.depth - 1), if st.depth - 1 < 0 then Stop else Keep)
    else if c == sep && st.depth == 0 then (st, Cut)
    else (st, Keep)
  }

  /** The pieces produced, and whether an unmatched closing bracket stopped the split. */
  datatype Pieces = Pieces(pieces: seq<string>, stopped: bool)

  /** Splitting the rest `s` of the text in state `st`; the first piece continues the current one. */
  function SplitRest(s: string, st: Lexer, sep: char, bracketL: char, bracketR: char): (r: Pieces)
    ensures |r.pieces| >= 1
    decreases |s|
  {
    if s == [] then Pieces([[]], false)
    else
      var (st', act) := LexStep(st, s[0], sep, bracketL, bracketR);
      match act
      case Stop => Pieces([[]], true)
      case Cut =>
        var rest := SplitRest(s[1..], st', sep, bracketL, bracketR);
        Pieces([[]] + rest.pieces, rest.stopped)
      case Keep =>
        var rest := SplitRest(s[1..], st', sep, bracketL, bracketR);
        Pieces([[s[0]] + rest.pieces[0]] + rest.pieces[1..], rest.stopped)
  }

  const StartLexer := Lexer(false, false, 0)

  /** The pieces `generateExpressionUntilChar(text, expStart, sep, bracketL, bracketR)` yields. */
  function SplitTop(text: string, expStart: nat, sep: char, bracketL: char, bracketR: char): (r: Pieces)
    ensures |r.pieces| >= 1
  {
    if expStart <= |text| then SplitRest(text[expStart..], StartLexer, sep, bracketL, bracketR)
    else Pieces([[]], false)
  }

  /** Pieces already yielded, the current piece, and what the rest of the text will add. */
  function Resume(done: seq<string>, current: string, rest: Pieces): Pieces
    requires |rest.pieces| >= 1
  {
    Pieces(done + [current + rest.pieces[0]] + rest.pieces[1..], rest.stopped)
  }

  /** `generateExpressionUntilChar`: the top-level pieces of `text[expStart:]`. */
  method GenerateExpressionUntilChar(text: string, expStart: nat, sep: char, bracketL: char, bracketR: char)
    returns (r: Result<seq<string>, ScanError>)
    ensures r.Failure? <==> BadSplitChar(sep, bracketL, bracketR)
    ensures r.Success? ==> r.value == SplitTop(text, expStart, sep, bracketL, bracketR).pieces
  {
    if BadSplitChar(sep, bracketL, bracketR) {
      return Failure(InvalidSplitChar(sep));
    }
    if expStart > |text| {
      assert Slice(text, expStart, 1) == [];
      return Success([Slice(text, expStart, 1)]);
    }
    var lexer := StartLexer;
    var expEnd := 0;
    var pieceStart := expStart;
    var pieces: seq<string> := [];
    var i := expStart;
    ghost var target := SplitTop(text, expStart, sep, bracketL, bracketR);
    SplitSoFarStart(text, expStart, sep, bracketL, bracketR);
    while i < |text|
      invariant expStart <= pieceStart <= i <= |text|
      invariant expEnd == if i == expStart then 0 else i - 1
      invariant SplitSoFar(pieces, text, pieceStart, i, lexer, sep, bracketL, bracketR, target)
    {
      expEnd := i;
      var stop;
      pieces, pieceStart, lexer, stop := SplitChar(pieces, text, pieceStart, i, lexer, sep, bracketL, bracketR);
      if stop {
        return Success(pieces);
      }
      i := i + 1;
    }
    SplitSoFarEnd(pieces, text, pieceStart, lexer, sep, bracketL, bracketR, target);
    LastPiece(text, expStart, pieceStart, expEnd);
    r := Success(pieces + [Slice(text, pieceStart, expEnd + 1)]);
  }

  /** What the pieces yielded so far, the current piece and the rest of the text add up to. */
  predicate SplitSoFar(pieces: seq<string>, text: string, pieceStart: nat, i: nat, lexer: Lexer, sep: char, bracketL: char, bracketR: char, target: Pieces) {
    && pieceStart <= i <= |text|
    && forall rest: Pieces {:trigger Resume(pieces, text[pieceStart..i], rest)} ::
         rest == SplitRest(text[i..], lexer, sep, bracketL, bracketR) ==> Resume(pieces, text[pieceStart..i], rest) == target
  }

  /** Before the loop, nothing is yielded and the whole split is still to come. */
  lemma SplitSoFarStart(text: string, expStart: nat, sep: char, bracketL: char, bracketR: char)
    requires expStart <= |text|
    ensures SplitSoFar([], text, expStart, expStart, StartLexer, sep, bracketL, bracketR, SplitTop(text, expStart, sep, bracketL, bracketR))
  {
    ResumeStart(SplitTop(text, expStart, sep, bracketL, bracketR));
    assert text[expStart..expStart] == [];
  }

  /** After the loop, the current piece is the last one. */
  lemma SplitSoFarEnd(pieces: seq<string>, text: string, pieceStart: nat, lexer: Lexer, sep: char, bracketL: char, bracketR: char, target: Pieces)
    requires SplitSoFar(pieces, text, pieceStart, |text|, lexer, sep, bracketL, bracketR, target)
    ensures target == Pieces(pieces + [text[pieceStart..]], false)
  {
    SplitEnd(pieces, text, pieceStart, lexer, sep, bracketL, bracketR);
  }

  /** One character of the loop of `generateExpressionUntilChar`: the pieces yielded so far, where
      the current piece starts, the lexer state, and whether an unmatched bracket ended the split. */
  method SplitChar(pieces: seq<string>, text: string, pieceStart: nat, i: nat, lexer: Lexer, sep: char, bracketL: char, bracketR: char)
    returns (pieces': seq<string>, pieceStart': nat, lexer': Lexer, stop: bool)
    requires pieceStart <= i < |text|
    ensures pieceStart <= pieceStart' <= i + 1
    ensures forall target: Pieces :: SplitSoFar(pieces, text, pieceStart, i, lexer, sep, bracketL, bracketR, target) ==>
              if stop then target == Pieces(pieces', true)
              else SplitSoFar(pieces', text, pieceStart', i + 1, lexer', sep, bracketL, bracketR, target)
  {
    SplitAdvance(pieces, text, pieceStart, i, lexer, sep, bracketL, bracketR);
    var action;
    lexer', action := ReadSplitChar(lexer, text[i], sep, bracketL, bracketR);
    pieces', pieceStart', stop := pieces, pieceStart, false;
    if action == Stop {
      pieces', stop := pieces + [text[pieceStart..i]], true;
    } else if action == Cut {
      pieces', pieceStart' := pieces + [text[pieceStart..i]], i + 1;
    }
  }

  /** One character of `generateExpressionUntilChar`: update the escape, quote and depth state
      and say whether the character joins the piece, ends it at a separator, or stops the split. */
  method ReadSplitChar(st: Lexer, c: char, sep: char, bracketL: char, bracketR: char)
    returns (st': Lexer, action: Action)
    ensures (st', action) == LexStep(st, c, sep, bracketL, bracketR)
  {
    st', action := st, Keep;
    if st.escaped {
      st' := st.(escaped := false);
    } else if c == '\\' {
      st' := st.(escaped := true);
    } else if c == '"' {
      st' := st.(quoted := !st.quoted);
    } else if st.quoted {
    } else if c == bracketL {
      st' := st.(depth := st.depth + 1);
    } else if c == bracketR {
      st' := st.(depth := st.depth - 1);
      if st'.depth < 0 {
        action := Stop;
      }
    } else if c == sep && st.depth == 0 {
      action := Cut;
    }
  }


  /** Nothing yielded and nothing read: the split is all still to come. */
  lemma ResumeStart(rest: Pieces)
    requires |rest.pieces| >= 1
    ensures Resume([], [], rest) == rest
  {
    assert [] + rest.pieces[0] == rest.pieces[0];
    assert [] + [rest.pieces[0]] + rest.pieces[1..] == rest.pieces;
  }

  /** A character that joins the current piece. */
  lemma SplitKeep(done: seq<string>, text: string, pieceStart: nat, i: nat, st: Lexer, sep: char, bracketL: char, bracketR: char)
    requires pieceStart <= i < |text|
    requires LexStep(st, text[i], sep, bracketL, bracketR).1 == Keep
    ensures Resume(done, text[pieceStart..i], SplitRest(text[i..], st, sep, bracketL, bracketR))
         == Resume(done, text[pieceStart..i + 1], SplitRest(text[i + 1..], LexStep(st, text[i], sep, bracketL, bracketR).0, sep, bracketL, bracketR))
  {
    assert text[i..][1..] == text[i + 1..];
    var rest := SplitRest(text[i + 1..], LexStep(st, text[i], sep, bracketL, bracketR).0, sep, bracketL, bracketR);
    assert text[pieceStart..i + 1] == text[pieceStart..i] + [text[i]];
    assert text[pieceStart..i] + ([text[i]] + rest.pieces[0]) == text[pieceStart..i + 1] + rest.pieces[0];
  }

  /** A top-level separator: the current piece is yielded and a new one starts. */
  lemma SplitCut(done: seq<string>, text: string, pieceStart: nat, i: nat, st: Lexer, sep: char, bracketL: char, bracketR: char)
    requires pieceStart <= i < |text|
    requires LexStep(st, text[i], sep, bracketL, bracketR).1 == Cut
    ensures Resume(done, text[pieceStart..i], SplitRest(text[i..], st, sep, bracketL, bracketR))
         == Resume(done + [text[pieceStart..i]], [], SplitRest(text[i + 1..], LexStep(st, text[i], sep, bracketL, bracketR).0, sep, bracketL, bracketR))
  {
    assert text[i..][1..] == text[i + 1..];
    var rest := SplitRest(text[i + 1..], LexStep(st, text[i], sep, bracketL, bracketR).0, sep, bracketL, bracketR);
    var cur := text[pieceStart..i];
    assert cur + [] == cur;
    assert ([[]] + rest.pieces)[1..] == rest.pieces;
    assert [] + rest.pieces[0] == rest.pieces[0];
    assert rest.pieces == [rest.pieces[0]] + rest.pieces[1..];
    assert done + [cur] + rest.pieces == done + [cur] + [[] + rest.pieces[0]] + rest.pieces[1..];
  }

  /** An unmatched closing bracket: the current piece is the last one. */
  lemma SplitStop(done: seq<string>, text: string, pieceStart: nat, i: nat, st: Lexer, sep: char, bracketL: char, bracketR: char)
    requires pieceStart <= i < |text|
    requires LexStep(st, text[i], sep, bracketL, bracketR).1 == Stop
    ensures Resume(done, text[pieceStart..i], SplitRest(text[i..], st, sep, bracketL, bracketR))
         == Pieces(done + [text[pieceStart..i]], true)
  {
    var cur := text[pieceStart..i];
    assert cur + [] == cur;
    var empty: seq<string> := [[]];
    assert empty[1..] == [];
    assert done + [cur] + [] == done + [cur];
  }

  /** One character of the loop in `GenerateExpressionUntilChar`, whatever it does. */
  lemma SplitAdvance(done: seq<string>, text: string, pieceStart: nat, i: nat, st: Lexer, sep: char, bracketL: char, bracketR: char)
    requires pieceStart <= i < |text|
    ensures var (st', act) := LexStep(st, text[i], sep, bracketL, bracketR);
            var before := Resume(done, text[pieceStart..i], SplitRest(text[i..], st, sep, bracketL, bracketR));
            && (act == Stop ==> before == Pieces(done + [text[pieceStart..i]], true))
            && (act == Cut ==> before == Resume(done + [text[pieceStart..i]], text[i + 1..i + 1], SplitRest(text[i + 1..], st', sep, bracketL, bracketR)))
            && (act == Keep ==> before == Resume(done, text[pieceStart..i + 1], SplitRest(text[i + 1..], st', sep, bracketL, bracketR)))
  {
    var act := LexStep(st, text[i], sep, bracketL, bracketR).1;
    if act == Stop {
      SplitStop(done, text, pieceStart, i, st, sep, bracketL, bracketR);
    } else if act == Cut {
      SplitCut(done, text, pieceStart, i, st, sep, bracketL, bracketR);
      assert text[i + 1..i + 1] == [];
    } else {
      SplitKeep(done, text, pieceStart, i, st, sep, bracketL, bracketR);
    }
  }

  /** The slice `generateExpressionUntilChar` yields last is the rest of the text. */
  lemma LastPiece(text: string, expStart: nat, pieceStart: nat, expEnd: int)
    requires expStart <= pieceStart <= |text|
    requires expEnd == if |text| == expStart then 0 else |text| - 1
    ensures Slice(text, pieceStart, expEnd + 1) == text[pieceStart..]
  {
  }

  /** The end of the text: the current piece is the last one. */
  lemma SplitEnd(done: seq<string>, text: string, pieceStart: nat, st: Lexer, sep: char, bracketL: char, bracketR: char)
    requires pieceStart <= |text|
    ensures Resume(done, text[pieceStart..|text|], SplitRest(text[|text|..], st, sep, bracketL, bracketR))
         == Pieces(done + [text[pieceStart..]], false)
  {
    assert text[|text|..] == [];
    var empty: seq<string> := [[]];
    assert empty[1..] == [];
    assert text[pieceStart..|text|] + [] == text[pieceStart..];
  }

  /** Joining with the separator, a piece that starts with `c` is `c` followed by the rest. */
  lemma JoinHead(c: char, ps: seq<string>, sep: string)
    requires |ps| >= 1
    ensures Join([[c] + ps[0]] + ps[1..], sep) == [c] + Join(ps, sep)
  {
    if |ps| > 1 {
      assert ([[c] + ps[0]] + ps[1..])[1..] == ps[1..];
    }
  }

  /** Joining the pieces of `r` with `sep` gives `s`; or, when `r` stopped early, the part of `s`
      before a `bracketR`. */
  predicate Rebuilds(s: string, r: Pieces, sep: char, bracketR: char) {
    var joined := Join(r.pieces, [sep]);
    if r.stopped then |joined| < |s| && s[..|joined|] == joined && s[|joined|] == bracketR
    else joined == s
  }

  /** Unless stopped early, joining the pieces with the separator rebuilds the text; when stopped,
      the joined pieces are the text up to the unmatched closing bracket. */
  lemma {:induction false} SplitRestRebuilds(s: string, st: Lexer, sep: char, bracketL: char, bracketR: char)
    ensures Rebuilds(s, SplitRest(s, st, sep, bracketL, bracketR), sep, bracketR)
    decreases |s|
  {
    if s != [] {
      var (st', act) := LexStep(st, s[0], sep, bracketL, bracketR);
      var rest := SplitRest(s[1..], st', sep, bracketL, bracketR);
      SplitRestRebuilds(s[1..], st', sep, bracketL, bracketR);
      assert s == [s[0]] + s[1..];
      match act
      case Stop =>
        assert s[0] == bracketR;
      case Cut =>
        assert s[0] == sep;
        CutRebuilds(s[1..], rest, sep, bracketR);
      case Keep =>
        KeepRebuilds(s[0], s[1..], rest, sep, bracketR);
    }
  }

  /** `SplitRestRebuilds` for the split of `text[expStart:]`. */
  lemma SplitTopRebuilds(text: string, expStart: nat, sep: char, bracketL: char, bracketR: char)
    requires expStart <= |text|
    ensures !SplitTop(text, expStart, sep, bracketL, bracketR).stopped ==>
              Join(SplitTop(text, expStart, sep, bracketL, bracketR).pieces, [sep]) == text[expStart..]
  {
    SplitRestRebuilds(text[expStart..], StartLexer, sep, bracketL, bracketR);
  }

  /** A cut starts a new piece: the separator goes back in between. */
  lemma CutRebuilds(t: string, rest: Pieces, sep: char, bracketR: char)
    requires |rest.pieces| >= 1 && Rebuilds(t, rest, sep, bracketR)
    ensures Rebuilds([sep] + t, Pieces([[]] + rest.pieces, rest.stopped), sep, bracketR)
  {
    var joined := Join(rest.pieces, [sep]);
    assert ([[]] + rest.pieces)[1..] == rest.pieces;
    assert Join([[]] + rest.pieces, [sep]) == [sep] + joined;
    if rest.stopped {
      assert ([sep] + t)[..|joined| + 1] == [sep] + t[..|joined|];
    }
  }

  /** A kept character joins the front of the current piece. */
  lemma KeepRebuilds(c: char, t: string, rest: Pieces, sep: char, bracketR: char)
    requires |rest.pieces| >= 1 && Rebuilds(t, rest, sep, bracketR)
    ensures Rebuilds([c] + t, Pieces([[c] + rest.pieces[0]] + rest.pieces[1..], rest.stopped), sep, bracketR)
  {
    var joined := Join(rest.pieces, [sep]);
    JoinHead(c, rest.pieces, [sep]);
    if rest.stopped {
      assert ([c] + t)[..|joined| + 1] == [c] + t[..|joined|];
    }
  }

  /** Before the split stops, the bracket depth never drops below zero. */
  lemma {:induction false} SplitStopsOnlyBelowZero(s: string, st: Lexer, sep: char, bracketL: char, bracketR: char)
    requires st.depth >= 0
    requires SplitRest(s, st, sep, bracketL, bracketR).stopped
    ensures exists k :: 0 <= k < |s| && s[k] == bracketR
    decreases |s|
  {
    var (st', act) := LexStep(st, s[0], sep, bracketL, bracketR);
    if act != Stop {
      SplitStopsOnlyBelowZero(s[1..], st', sep, bracketL, bracketR);
      var k :| 0 <= k < |s[1..]| && s[1..][k] == bracketR;
      assert s[k + 1] == bracketR;
    }
  }

  /** One kept character: it starts the current piece, ahead of what the rest adds. */
  lemma KeepUnfold(s: string, st: Lexer, sep: char, bracketL: char, bracketR: char)
    requires s != [] && LexStep(st, s[0], sep, bracketL, bracketR).1 == Keep
    ensures SplitRest(s, st, sep, bracketL, bracketR)
         == Resume([], [s[0]], SplitRest(s[1..], LexStep(st, s[0], sep, bracketL, bracketR).0, sep, bracketL, bracketR))
  {
    var rest := SplitRest(s[1..], LexStep(st, s[0], sep, bracketL, bracketR).0, sep, bracketL, bracketR);
    assert [] + [[s[0]] + rest.pieces[0]] == [[s[0]] + rest.pieces[0]];
  }

  /** Two stretches added to the current piece one after the other add their concatenation. */
  lemma ResumeCompose(x: string, y: string, p: Pieces)
    requires |p.pieces| >= 1
    ensures Resume([], x, Resume([], y, p)) == Resume([], x + y, p)
  {
    var q := Resume([], y, p);
    assert q.pieces == [y + p.pieces[0]] + p.pieces[1..];
    assert q.pieces[0] == y + p.pieces[0] && q.pieces[1..] == p.pieces[1..];
    assert x + (y + p.pieces[0]) == (x + y) + p.pieces[0];
  }

  /** A stretch of the current piece that a separator ends is a piece of its own. */
  lemma ResumeCut(x: string, p: Pieces)
    requires |p.pieces| >= 1
    ensures Resume([], x, Pieces([[]] + p.pieces, p.stopped)) == Pieces([x] + p.pieces, p.stopped)
  {
    var q: seq<string> := [[]] + p.pieces;
    assert q[0] == [] && q[1..] == p.pieces;
    assert x + [] == x;
  }

  /** Text with no character the lexer reacts to at bracket depth `depth`. */
  predicate Plain(x: string, sep: char, bracketL: char, bracketR: char, depth: int) {
    forall k :: 0 <= k < |x| ==>
      x[k] != '\\' && x[k] != '"' && x[k] != bracketL && x[k] != bracketR && (depth == 0 ==> x[k] != sep)
  }

  /** Plain text outside quotes joins the current piece whole and leaves the state as it was. */
  lemma {:induction false} PlainRun(x: string, rest: string, depth: int, sep: char, bracketL: char, bracketR: char)
    requires Plain(x, sep, bracketL, bracketR, depth)
    ensures SplitRest(x + rest, Lexer(false, false, depth), sep, bracketL, bracketR)
         == Resume([], x, SplitRest(rest, Lexer(false, false, depth), sep, bracketL, bracketR))
    decreases |x|
  {
    var st := Lexer(false, false, depth);
    var p := SplitRest(rest, st, sep, bracketL, bracketR);
    if x == [] {
      assert x + rest == rest;
      ResumeStart(p);
    } else {
      var s := x + rest;
      assert s[0] == x[0] && s[1..] == x[1..] + rest;
      assert LexStep(st, s[0], sep, bracketL, bracketR) == (st, Keep);
      KeepUnfold(s, st, sep, bracketL, bracketR);
      assert Plain(x[1..], sep, bracketL, bracketR, depth);
      PlainRun(x[1..], rest, depth, sep, bracketL, bracketR);
      ResumeCompose([x[0]], x[1..], p);
      assert [x[0]] + x[1..] == x;
    }
  }

  /** Inside quotes every character except a backslash or a quote is kept. */
  lemma {:induction false} InsideQuotes(x: string, rest: string, depth: int, sep: char, bracketL: char, bracketR: char)
    requires forall k :: 0 <= k < |x| ==> x[k] != '\\' && x[k] != '"'
    ensures SplitRest(x + rest, Lexer(false, true, depth), sep, bracketL, bracketR)
         == Resume([], x, SplitRest(rest, Lexer(false, true, depth), sep, bracketL, bracketR))
    decreases |x|
  {
    var st := Lexer(false, true, depth);
    var p := SplitRest(rest, st, sep, bracketL, bracketR);
    if x == [] {
      assert x + rest == rest;
      ResumeStart(p);
    } else {
      var s := x + rest;
      assert s[0] == x[0] && s[1..] == x[1..] + rest;
      assert LexStep(st, s[0], sep, bracketL, bracketR) == (st, Keep);
      KeepUnfold(s, st, sep, bracketL, bracketR);
      InsideQuotes(x[1..], rest, depth, sep, bracketL, bracketR);
      ResumeCompose([x[0]], x[1..], p);
      assert [x[0]] + x[1..] == x;
    }
  }

  /** A double-quoted span without backslashes joins the current piece whole, separators and
      brackets included, and leaves the state as it was. */
  lemma QuotedRun(x: string, rest: string, depth: int, sep: char, bracketL: char, bracketR: char)
    requires forall k :: 0 <= k < |x| ==> x[k] != '\\' && x[k] != '"'
    ensures SplitRest("\"" + x + "\"" + rest, Lexer(false, false, depth), sep, bracketL, bracketR)
         == Resume([], "\"" + x + "\"", SplitRest(rest, Lexer(false, false, depth), sep, bracketL, bracketR))
  {
    var outside := Lexer(false, false, depth);
    var inside := Lexer(false, true, depth);
    var p := SplitRest(rest, outside, sep, bracketL, bracketR);
    var s := "\"" + x + "\"" + rest;
    var close := "\"" + rest;
    assert s[0] == '"' && s[1..] == x + close;
    assert LexStep(outside, '"', sep, bracketL, bracketR) == (inside, Keep);
    KeepUnfold(s, outside, sep, bracketL, bracketR);
    InsideQuotes(x, close, depth, sep, bracketL, bracketR);
    assert close[0] == '"' && close[1..] == rest;
    assert LexStep(inside, '"', sep, bracketL, bracketR) == (outside, Keep);
    KeepUnfold(close, inside, sep, bracketL, bracketR);
    ResumeCompose(x, "\"", p);
    ResumeCompose("\"", x + "\"", p);
    assert "\"" + (x + "\"") == "\"" + x + "\"";
  }

  /** A bracketed group whose inside is plain at depth 1 joins the current piece whole,
      separators inside it included. */
  lemma GroupRun(x: string, rest: string, sep: char, bracketL: char, bracketR: char)
    requires bracketL != bracketR && bracketL != '\\' && bracketL != '"' && bracketR != '\\' && bracketR != '"'
    requires Plain(x, sep, bracketL, bracketR, 1)
    ensures SplitRest([bracketL] + x + [bracketR] + rest, StartLexer, sep, bracketL, bracketR)
         == Resume([], [bracketL] + x + [bracketR], SplitRest(rest, StartLexer, sep, bracketL, bracketR))
  {
    var nested := Lexer(false, false, 1);
    var p := SplitRest(rest, StartLexer, sep, bracketL, bracketR);
    var s := [bracketL] + x + [bracketR] + rest;
    var close := [bracketR] + rest;
    assert s[0] == bracketL && s[1..] == x + close;
    assert LexStep(StartLexer, bracketL, sep, bracketL, bracketR) == (nested, Keep);
    KeepUnfold(s, StartLexer, sep, bracketL, bracketR);
    PlainRun(x, close, 1, sep, bracketL, bracketR);
    assert close[0] == bracketR && close[1..] == rest;
    assert LexStep(nested, bracketR, sep, bracketL, bracketR) == (StartLexer, Keep);
    KeepUnfold(close, nested, sep, bracketL, bracketR);
    ResumeCompose(x, [bracketR], p);
    ResumeCompose([bracketL], x + [bracketR], p);
    assert [bracketL] + (x + [bracketR]) == [bracketL] + x + [bracketR];
  }

  /** A separator at depth 0 outside quotes ends the current piece. */
  lemma CutRun(rest: string, sep: char, bracketL: char, bracketR: char)
    requires !BadSplitChar(sep, bracketL, bracketR)
    ensures SplitRest([sep] + rest, StartLexer, sep, bracketL, bracketR)
         == Pieces([[]] + SplitRest(rest, StartLexer, sep, bracketL, bracketR).pieces,
                   SplitRest(rest, StartLexer, sep, bracketL, bracketR).stopped)
  {
    assert ([sep] + rest)[1..] == rest;
  }

  /** A plain field followed by the separator is one piece of the split. */
  lemma FieldThenSep(x: string, rest: string, sep: char, bracketL: char, bracketR: char)
    requires !BadSplitChar(sep, bracketL, bracketR) && Plain(x, sep, bracketL, bracketR, 0)
    ensures SplitRest(x + [sep] + rest, StartLexer, sep, bracketL, bracketR)
         == Pieces([x] + SplitRest(rest, StartLexer, sep, bracketL, bracketR).pieces,
                   SplitRest(rest, StartLexer, sep, bracketL, bracketR).stopped)
  {
    assert x + [sep] + rest == x + ([sep] + rest);
    PlainRun(x, [sep] + rest, 0, sep, bracketL, bracketR);
    CutRun(rest, sep, bracketL, bracketR);
    ResumeCut(x, SplitRest(rest, StartLexer, sep, bracketL, bracketR));
  }

  /** A plain last field is the last piece, and the split is not stopped. */
  lemma LastField(x: string, sep: char, bracketL: char, bracketR: char)
    requires Plain(x, sep, bracketL, bracketR, 0)
    ensures SplitRest(x, StartLexer, sep, bracketL, bracketR) == Pieces([x], false)
  {
    assert x + [] == x;
    PlainRun(x, [], 0, sep, bracketL, bracketR);
    var empty: seq<string> := [[]];
    assert empty[1..] == [];
    assert [] + [x + []] + empty[1..] == [x];
  }

  /** An unmatched closing bracket after a plain field ends the split with that field as the
      last piece, whatever follows. */
  lemma StopAfterField(x: string, rest: string, sep: char, bracketL: char, bracketR: char)
    requires bracketR != '\\' && bracketR != '"' && bracketR != bracketL
    requires Plain(x, sep, bracketL, bracketR, 0)
    ensures SplitRest(x + [bracketR] + rest, StartLexer, sep, bracketL, bracketR) == Pieces([x], true)
  {
    var close := [bracketR] + rest;
    assert x + [bracketR] + rest == x + close;
    PlainRun(x, close, 0, sep, bracketL, bracketR);
    assert close[0] == bracketR;
    var p := SplitRest(close, StartLexer, sep, bracketL, bracketR);
    assert p == Pieces([[]], true);
    assert x + [] == x;
    assert p.pieces[1..] == [];
  }

  /** Plain fields around a bracketed group: the comma inside the group does not split. */
  lemma FieldsAndGroup(text: string, a: string, b: string, g: string, e: string)
    requires text == a + [','] + (b + [','] + (['('] + g + [')'] + ([','] + e)))
    requires Plain(a, ',', '(', ')', 0) && Plain(b, ',', '(', ')', 0)
    requires Plain(g, ',', '(', ')', 1) && Plain(e, ',', '(', ')', 0)
    ensures SplitTop(text, 0, ',', '(', ')') == Pieces([a, b, ['('] + g + [')'], e], false)
  {
    assert text[0..] == text;
    var r3 := [','] + e;
    var r2 := ['('] + g + [')'] + r3;
    FieldThenSep(a, b + [','] + r2, ',', '(', ')');
    FieldThenSep(b, r2, ',', '(', ')');
    GroupRun(g, r3, ',', '(', ')');
    CutRun(e, ',', '(', ')');
    LastField(e, ',', '(', ')');
    assert ['('] + g + [')'] + [] == ['('] + g + [')'];
  }

  /** `a,b,(c,d),e` splits into `a`, `b`, `(c,d)` and `e`. */
  lemma NestedGroupExample(text: string)
    requires text == "a,b,(c,d),e"
    ensures SplitTop(text, 0, ',', '(', ')') == Pieces(["a", "b", "(c,d)", "e"], false)
  {
    NestedGroupText();
    FieldsAndGroup(text, "a", "b", "c,d", "e");
    assert ['('] + "c,d" + [')'] == "(c,d)";
  }

  lemma NestedGroupText()
    ensures "a,b,(c,d),e" == "a" + [','] + ("b" + [','] + (['('] + "c,d" + [')'] + ([','] + "e")))
  {
  }

  /** Plain fields around a double-quoted one: the comma inside the quotes does not split. */
  lemma FieldsAndQuoted(text: string, a: string, q: string, d: string)
    requires text == a + [','] + ("\"" + q + "\"" + ([','] + d))
    requires Plain(a, ',', '(', ')', 0) && Plain(d, ',', '(', ')', 0)
    requires forall k :: 0 <= k < |q| ==> q[k] != '\\' && q[k] != '"'
    ensures SplitTop(text, 0, ',', '(', ')') == Pieces([a, "\"" + q + "\"", d], false)
  {
    assert text[0..] == text;
    var r2 := [','] + d;
    FieldThenSep(a, "\"" + q + "\"" + r2, ',', '(', ')');
    QuotedRun(q, r2, 0, ',', '(', ')');
    CutRun(d, ',', '(', ')');
    LastField(d, ',', '(', ')');
    assert "\"" + q + "\"" + [] == "\"" + q + "\"";
  }

  /** `a,"b,c",d` splits into `a`, `"b,c"` and `d`. */
  lemma QuotedCommaExample(text: string)
    requires text == "a,\"b,c\",d"
    ensures SplitTop(text, 0, ',', '(', ')') == Pieces(["a", "\"b,c\"", "d"], false)
  {
    QuotedCommaText();
    FieldsAndQuoted(text, "a", "b,c", "d");
    assert "\"" + "b,c" + "\"" == "\"b,c\"";
  }

  lemma QuotedCommaText()
    ensures "a,\"b,c\",d" == "a" + [','] + ("\"" + "b,c" + "\"" + ([','] + "d"))
  {
  }

  // ---------------------------------------------------------------------------
  // Call arguments (`genFuncArgs`)
  // ---------------------------------------------------------------------------

  /** The text between the first `(` and the last `)` of a located call, with Python's slice
      rules (a missing `)` gives -1, which cuts off the last character). */
  function CallContent(call: string): string {
    Slice(call, Find(call, '(') + 1, RFind(call, ')'))
  }

  /** The stripped, non-empty pieces, in order. */
  function StrippedNonEmpty(pieces: seq<string>): (r: seq<string>)
    ensures |r| <= |pieces|
  {
    if pieces == [] then []
    else
      var e := Strip(pieces[0]);
      (if e != [] then [e] else []) + StrippedNonEmpty(pieces[1..])
  }

  /** An argument as `genFuncArgs` yields it: non-empty, with no whitespace at either end. */
  predicate Trimmed(a: string) {
    a != [] && !IsSpace(a[0]) && !IsSpace(a[|a| - 1])
  }

  /** Every piece of `ps` is trimmed. */
  predicate AllTrimmed(ps: seq<string>) {
    forall k :: 0 <= k < |ps| ==> Trimmed(ps[k])
  }

  /** Two runs of trimmed pieces make one. */
  lemma AllTrimmedConcat(a: seq<string>, b: seq<string>)
    requires AllTrimmed(a) && AllTrimmed(b)
    ensures AllTrimmed(a + b)
  {
    forall k | 0 <= k < |a + b|
      ensures Trimmed((a + b)[k])
    {
      if k >= |a| {
        assert (a + b)[k] == b[k - |a|];
      }
    }
  }

  /** Every piece kept is trimmed. */
  lemma {:induction false} StrippedNonEmptyTrimmed(pieces: seq<string>)
    ensures AllTrimmed(StrippedNonEmpty(pieces))
  {
    if pieces != [] {
      StrippedNonEmptyTrimmed(pieces[1..]);
      var e := Strip(pieces[0]);
      var head: seq<string> := if e != [] then [e] else [];
      assert AllTrimmed(head);
      AllTrimmedConcat(head, StrippedNonEmpty(pieces[1..]));
    }
  }

  /** Pieces that are all trimmed already are kept unchanged. */
  lemma {:induction false} StrippedNonEmptyKeepsTrimmed(pieces: seq<string>)
    requires AllTrimmed(pieces)
    ensures StrippedNonEmpty(pieces) == pieces
  {
    if pieces != [] {
      var head, tail := pieces[0], pieces[1..];
      assert Strip(head) == head && head != [] by {
        StripTrimmed(head);
      }
      assert StrippedNonEmpty(tail) == tail by {
        AllTrimmedTail(pieces);
        StrippedNonEmptyKeepsTrimmed(tail);
      }
      assert StrippedNonEmpty(pieces) == [head] + StrippedNonEmpty(tail);
      assert [head] + tail == pieces;
    }
  }

  /** The tail of a run of trimmed pieces is one too. */
  lemma AllTrimmedTail(ps: seq<string>)
    requires ps != [] && AllTrimmed(ps)
    ensures AllTrimmed(ps[1..])
  {
    forall k | 0 <= k < |ps[1..]| ensures Trimmed(ps[1..][k]) {
      assert ps[1..][k] == ps[k + 1];
    }
  }

  /** Stripping a trimmed string changes nothing. */
  lemma StripTrimmed(a: string)
    requires Trimmed(a)
    ensures Strip(a) == a
  {
    assert RStrip(a) == a;
  }

  /** What `genFuncArgs` yields for a located call. */
  function FuncArgs(call: string): seq<string> {
    StrippedNonEmpty(SplitTop(CallContent(call), 0, ',', '(', ')').pieces)
  }

  /** `genFuncArgs`: the stripped, non-empty top-level arguments of the call at `textStart`. */
  method GenFuncArgs(text: string, textStart: Option<int>) returns (r: Result<seq<string>, ScanError>)
    ensures r.Failure? <==> CallSpan(text, textStart, '(', ')').Failure?
    ensures r.Success? ==> r.value == FuncArgs(CallSpan(text, textStart, '(', ')').value)
    ensures r.Success? ==> AllTrimmed(r.value)
  {
    var call := FindFunctionCall(text, textStart, '(', ')');
    if call.Failure? {
      return Failure(call.error);
    }
    var funcCall := call.value;
    var content := Slice(funcCall, Find(funcCall, '(') + 1, RFind(funcCall, ')'));
    var split := GenerateExpressionUntilChar(content, 0, ',', '(', ')');
    var exps := split.value;
    assert exps == SplitTop(CallContent(funcCall), 0, ',', '(', ')').pieces;
    var args := StripArguments(exps);
    StrippedNonEmptyTrimmed(exps);
    r := Success(args);
  }

  /** The loop of `genFuncArgs`: each piece stripped, the empty ones dropped, in order. */
  method StripArguments(exps: seq<string>) returns (args: seq<string>)
    ensures args == StrippedNonEmpty(exps)
  {
    args := [];
    var i := 0;
    ghost var target := StrippedNonEmpty(exps);
    assert exps[0..] == exps && [] + target == target;
    while i < |exps|
      invariant StripSoFar(args, exps, i, target)
    {
      StripSoFarStep(args, exps, i, target);
      var e := Strip(exps[i]);
      if e != [] {
        args := args + [e];
      }
      i := i + 1;
    }
    assert exps[|exps|..] == [] && args + [] == args;
  }

  /** The arguments kept so far, followed by what `StrippedNonEmpty` keeps of `exps[i..]`, are
      `target`. (The rest is named inside the quantifier so that the loop above can be checked
      without unfolding `StrippedNonEmpty`.) */
  predicate StripSoFar(args: seq<string>, exps: seq<string>, i: nat, target: seq<string>) {
    && i <= |exps|
    && forall rest: seq<string> {:trigger args + rest} :: rest == StrippedNonEmpty(exps[i..]) ==> args + rest == target
  }

  /** One piece of the loop of `StripArguments`: its stripped form, when non-empty, is kept. */
  lemma StripSoFarStep(args: seq<string>, exps: seq<string>, i: nat, target: seq<string>)
    requires StripSoFar(args, exps, i, target) && i < |exps|
    ensures var e := Strip(exps[i]);
            && (e != [] ==> StripSoFar(args + [e], exps, i + 1, target))
            && (e == [] ==> StripSoFar(args, exps, i + 1, target))
  {
    assert exps[i..][1..] == exps[i + 1..];
    var e := Strip(exps[i]);
    var rest := StrippedNonEmpty(exps[i + 1..]);
    assert args + StrippedNonEmpty(exps[i..]) == target;
    if e != [] {
      assert args + [e] + rest == target;
    } else {
      assert [] + rest == rest;
    }
  }

}
