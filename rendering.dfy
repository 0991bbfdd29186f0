/**
 * What the operator<< overloads of pretty_print.hpp write. A value is tagged with the
 * overload that prints it; the tags stand for the outcome of the classification in
 * module Classify.
 */
module Rendering {
  import opened Wrappers
  import opened Config
  import opened Joining
  import Quoting

  /** The text an optional writes when it is disengaged. */
  const Absent: string := "--"

  datatype Value =
    /** A value with a stream operator of its own (an int, a float, a user type);
        `token` is what that operator writes. */
    | Leaf(token: string)
    /** A string-like value with its own stream operator; `quotable` says whether its
        decayed type is one is_quotable lists (std::basic_string, std::basic_string_view,
        and exactly char*, char16_t*, char32_t*, wchar_t*). */
    | Text(chars: string, quotable: bool)
    /** A range-like value, in traversal order. */
    | Range(elems: seq<Value>)
    /** A map-like value: its first/second pairs in traversal order. */
    | Map(entries: seq<Entry>)
    /** A tuple-like value: get<0> .. get<N-1>. */
    | Tuple(elems: seq<Value>)
    /** An optional-like value: engaged or not. */
    | Optional(content: Option<Value>)
    /** A std::variant, by its active alternative. */
    | Variant(active: Value)

  datatype Entry = Entry(key: Value, mapped: Value)

  /**
   * A value whose printing compiles. std::variant exists only from C++17. The elements
   * of a tuple must print through their own stream operators: tuple_printer is defined
   * before the library declares its overloads, so its `os << quoted(get<I>(t))` finds
   * them neither by ordinary lookup at its definition nor by argument-dependent lookup,
   * which searches only namespace std; a tuple holding a range, map, tuple, optional or
   * variant does not compile.
   */
  predicate Printable(haveVariant: bool, v: Value)
    decreases v
  {
    match v
    case Leaf(_) => true
    case Text(_, _) => true
    case Range(es) => forall i :: 0 <= i < |es| ==> Printable(haveVariant, es[i])
    case Map(entries) =>
      forall i :: 0 <= i < |entries| ==>
        Printable(haveVariant, entries[i].key) && Printable(haveVariant, entries[i].mapped)
    case Tuple(es) => forall i :: 0 <= i < |es| ==> OwnStreamOperator(es[i])
    case Optional(content) => content.Some? ==> Printable(haveVariant, content.value)
    case Variant(active) => haveVariant && Printable(haveVariant, active)
  }

  /** A value printed by a stream operator of its own, not by one of the library's. */
  predicate OwnStreamOperator(v: Value) {
    v.Leaf? || v.Text?
  }

  /** `os << v`. */
  function Render(f: Flags, v: Value): string
    requires Printable(f.haveVariant, v)
    decreases v, 1
  {
    match v
    case Leaf(token) => token
    case Text(chars, _) => chars
    case Range(es) => "[" + Join(QuotedParts(f, es), Sep) + "]"
    case Map(entries) => "{" + Join(EntryParts(f, entries), Sep) + "}"
    case Tuple(es) => TuplePrinter(QuotedParts(f, es), 0)
    case Optional(content) => if content.Some? then Render(f, content.value) else Absent
    case Variant(active) => Quoted(f, active)
  }

  /** `os << detail::quoted(v)`: quotable text goes through std::quoted unless quoting is
      switched off; everything else is printed as it is. */
  function Quoted(f: Flags, v: Value): string
    requires Printable(f.haveVariant, v)
    decreases v, 2
  {
    if v.Text? && v.quotable && f.quoteStrings then Quoting.QuoteText(v.chars)
    else Render(f, v)
  }

  /** The quoted renderings of `es`, in order. */
  function QuotedParts(f: Flags, es: seq<Value>): (r: seq<string>)
    requires forall i :: 0 <= i < |es| ==> Printable(f.haveVariant, es[i])
    decreases es, 0
    ensures |r| == |es|
  {
    seq(|es|, i requires 0 <= i < |es| => Quoted(f, es[i]))
  }

  /** The `key: value` text of each entry, in order. */
  function EntryParts(f: Flags, entries: seq<Entry>): (r: seq<string>)
    requires forall i :: 0 <= i < |entries| ==>
      Printable(f.haveVariant, entries[i].key) && Printable(f.haveVariant, entries[i].mapped)
    decreases entries, 0
    ensures |r| == |entries|
  {
    seq(|entries|, i requires 0 <= i < |entries| => EntryText(f, entries[i]))
  }

  /** One entry as the map printer writes it: key and value each quoted. */
  function EntryText(f: Flags, e: Entry): string
    requires Printable(f.haveVariant, e.key) && Printable(f.haveVariant, e.mapped)
    decreases e, 0
  {
    Quoted(f, e.key) + ": " + Quoted(f, e.mapped)
  }

  /**
   * tuple_printer<Tuple, I, N> applied to the quoted renderings of a tuple's elements:
   * `()` when N is 0; otherwise `(` and element 0 at I = 0, `, ` and element I for
   * 0 < I < N, and `)` at I = N.
   */
  function TuplePrinter(parts: seq<string>, i: nat): string
    requires i <= |parts|
    decreases |parts| - i
  {
    if |parts| == 0 then "()"
    else if i == |parts| then ")"
    else if i == 0 then "(" + parts[0] + TuplePrinter(parts, 1)
    else Sep + parts[i] + TuplePrinter(parts, i + 1)
  }

  /** One step of the tuple printer past the first element. */
  lemma TuplePrinterStep(parts: seq<string>, i: nat)
    requires 1 <= i < |parts|
    ensures TuplePrinter(parts, i) == Sep + parts[i] + TuplePrinter(parts, i + 1)
  {
  }

  /** Joining the parts from position i on: the part at i, then the rest if any. */
  lemma JoinFrom(parts: seq<string>, i: nat)
    requires i < |parts|
    ensures Join(parts[i..], Sep) ==
      if i + 1 == |parts| then parts[i] else parts[i] + Sep + Join(parts[i + 1..], Sep)
  {
    assert parts[i..] == [parts[i]] + parts[i + 1..];
    JoinCons(parts[i], parts[i + 1..], Sep);
  }

  /** From a position i past the first element on, the tuple printer writes `, ` and
      the remaining elements joined by `, `, then closes the parenthesis. */
  lemma {:induction false} TuplePrinterSuffix(parts: seq<string>, i: nat)
    requires 1 <= i < |parts|
    ensures TuplePrinter(parts, i) == Sep + Join(parts[i..], Sep) + ")"
    decreases |parts| - i
  {
    TuplePrinterStep(parts, i);
    JoinFrom(parts, i);
    if i + 1 < |parts| {
      TuplePrinterSuffix(parts, i + 1);
      Regroup(Sep, parts[i], Sep, Join(parts[i + 1..], Sep), ")");
    }
  }

  /** The recursive tuple printer writes `()` for arity 0 and otherwise the elements
      joined by `, ` between parentheses, like a range between `[` and `]`. */
  lemma TuplePrinterJoins(parts: seq<string>)
    ensures TuplePrinter(parts, 0) == if parts == [] then "()" else "(" + Join(parts, Sep) + ")"
  {
    if parts != [] {
      var rest := parts[1..];
      assert parts == [parts[0]] + rest;
      JoinCons(parts[0], rest, Sep);
      var x := parts[0];
      if rest == [] {
        assert TuplePrinter(parts, 0) == "(" + x + ")";
      } else {
        TuplePrinterSuffix(parts, 1);
        var y := Join(rest, Sep);
        assert Join(parts, Sep) == x + Sep + y;
        assert TuplePrinter(parts, 0) == "(" + x + (Sep + y + ")");
        Regroup("(", x, Sep, y, ")");
      }
    }
  }

  /** The rendered shapes of empty containers. */
  lemma EmptyRenderings(f: Flags)
    ensures Render(f, Range([])) == "[]"
    ensures Render(f, Map([])) == "{}"
    ensures Render(f, Tuple([])) == "()"
  {
  }

  /** Quoting the elements of `[e] + es` quotes `e`, then the elements of `es`. */
  lemma QuotedPartsCons(f: Flags, e: Value, es: seq<Value>)
    requires Printable(f.haveVariant, e) && Printable(f.haveVariant, Range(es))
    ensures Printable(f.haveVariant, Range([e] + es))
    ensures QuotedParts(f, [e] + es) == [Quoted(f, e)] + QuotedParts(f, es)
  {
    var all := [e] + es;
    forall i | 0 <= i < |all| ensures Printable(f.haveVariant, all[i]) {
      if i > 0 { assert all[i] == es[i - 1]; }
    }
    forall i | 0 <= i < |all|
      ensures QuotedParts(f, all)[i] == ([Quoted(f, e)] + QuotedParts(f, es))[i]
    {
      if i > 0 { assert all[i] == es[i - 1]; }
    }
  }

  /** A range is `[`, the first element quoted, then `, ` and the rest as they would
      render on their own, without their brackets. */
  lemma RangeCons(f: Flags, e: Value, es: seq<Value>)
    requires Printable(f.haveVariant, e) && Printable(f.haveVariant, Range(es))
    ensures Printable(f.haveVariant, Range([e] + es))
    ensures Render(f, Range([e] + es)) ==
      if es == [] then "[" + Quoted(f, e) + "]"
      else "[" + Quoted(f, e) + Sep + Render(f, Range(es))[1..]
  {
    QuotedPartsCons(f, e, es);
    var head, ps := Quoted(f, e), QuotedParts(f, es);
    JoinCons(head, ps, Sep);
    if es != [] {
      var j := Join(ps, Sep);
      var r := Render(f, Range(es));
      assert r == "[" + (j + "]");
      assert r[1..] == j + "]";
      Regroup("[", head, Sep, j, "]");
    }
  }

  /** The `key: value` texts of `[e] + entries` are that of `e`, then those of
      `entries`. */
  lemma EntryPartsCons(f: Flags, e: Entry, entries: seq<Entry>)
    requires Printable(f.haveVariant, e.key) && Printable(f.haveVariant, e.mapped)
    requires Printable(f.haveVariant, Map(entries))
    ensures Printable(f.haveVariant, Map([e] + entries))
    ensures EntryParts(f, [e] + entries) == [EntryText(f, e)] + EntryParts(f, entries)
  {
    var all := [e] + entries;
    forall i | 0 <= i < |all|
      ensures Printable(f.haveVariant, all[i].key) && Printable(f.haveVariant, all[i].mapped)
    {
      if i > 0 { assert all[i] == entries[i - 1]; }
    }
    forall i | 0 <= i < |all|
      ensures EntryParts(f, all)[i] == ([EntryText(f, e)] + EntryParts(f, entries))[i]
    {
      if i > 0 { assert all[i] == entries[i - 1]; }
    }
  }

  /** A map is `{`, the first entry's key and value quoted around `: `, then `, ` and
      the other entries as they would render on their own, without their braces. */
  lemma MapCons(f: Flags, e: Entry, entries: seq<Entry>)
    requires Printable(f.haveVariant, e.key) && Printable(f.haveVariant, e.mapped)
    requires Printable(f.haveVariant, Map(entries))
    ensures Printable(f.haveVariant, Map([e] + entries))
    ensures Render(f, Map([e] + entries)) ==
      if entries == [] then "{" + Quoted(f, e.key) + ": " + Quoted(f, e.mapped) + "}"
      else "{" + EntryText(f, e) + Sep + Render(f, Map(entries))[1..]
  {
    EntryPartsCons(f, e, entries);
    var head, ps := EntryText(f, e), EntryParts(f, entries);
    JoinCons(head, ps, Sep);
    if entries != [] {
      var j := Join(ps, Sep);
      var r := Render(f, Map(entries));
      assert r == "{" + (j + "}");
      assert r[1..] == j + "}";
      Regroup("{", head, Sep, j, "}");
    }
  }

  /** A tuple renders as `()` at arity 0, and otherwise as its quoted elements joined by
      `, ` in order between `(` and `)`: what a range of the same elements renders to,
      with parentheses for brackets. */
  lemma TupleRendering(f: Flags, es: seq<Value>)
    requires Printable(f.haveVariant, Tuple(es))
    ensures Render(f, Tuple(es)) ==
      if es == [] then "()" else "(" + Join(QuotedParts(f, es), Sep) + ")"
    ensures es != [] ==>
      var r := Render(f, Range(es));
      Render(f, Tuple(es)) == "(" + r[1..|r| - 1] + ")"
  {
    TuplePrinterJoins(QuotedParts(f, es));
    var r := Render(f, Range(es));
    assert r[1..|r| - 1] == Join(QuotedParts(f, es), Sep);
  }

  /** Quoting changes nothing but quotable text, and nothing at all when it is switched
      off. */
  lemma QuotedIdentity(f: Flags, v: Value)
    requires Printable(f.haveVariant, v)
    requires !f.quoteStrings || !v.Text? || !v.quotable
    ensures Quoted(f, v) == Render(f, v)
  {
  }

  /** Quotable text prints verbatim at top level and inside an optional, and is quoted
      once when it is an element of a range or tuple, a key or value of a map, or the
      active alternative of a variant. */
  lemma TextQuotedOnlyWhenNested(f: Flags, s: string)
    requires f.quoteStrings
    ensures Render(f, Text(s, true)) == s
    ensures Render(f, Optional(Some(Text(s, true)))) == s
    ensures Render(f, Range([Text(s, true)])) == "[" + Quoting.QuoteText(s) + "]"
    ensures Render(f, Tuple([Text(s, true)])) == "(" + Quoting.QuoteText(s) + ")"
    ensures Render(f, Map([Entry(Text(s, true), Text(s, true))])) ==
      "{" + Quoting.QuoteText(s) + ": " + Quoting.QuoteText(s) + "}"
    ensures f.haveVariant ==> Render(f, Variant(Text(s, true))) == Quoting.QuoteText(s)
  {
    var q := Quoting.QuoteText(s);
    assert QuotedParts(f, [Text(s, true)]) == [q];
    assert TuplePrinter([q], 0) == "(" + q + ")";
    assert EntryParts(f, [Entry(Text(s, true), Text(s, true))]) == [q + ": " + q];
  }

  /** An engaged optional prints its content as it is, so text inside an optional
      inside a range is not quoted; a disengaged one prints `--`. */
  lemma OptionalTransparent(f: Flags, s: string, q: bool)
    ensures Render(f, Optional(None)) == Absent
    ensures Render(f, Range([Optional(Some(Text(s, q)))])) == "[" + s + "]"
  {
    var o := Optional(Some(Text(s, q)));
    assert Render(f, o) == s;
    assert Quoted(f, o) == s;
    assert QuotedParts(f, [o]) == [s];
  }

  /** No text anywhere in `v` is quotable. */
  predicate NoQuotableText(v: Value)
    decreases v
  {
    match v
    case Leaf(_) => true
    case Text(_, quotable) => !quotable
    case Range(es) => forall i :: 0 <= i < |es| ==> NoQuotableText(es[i])
    case Map(entries) =>
      forall i :: 0 <= i < |entries| ==>
        NoQuotableText(entries[i].key) && NoQuotableText(entries[i].mapped)
    case Tuple(es) => forall i :: 0 <= i < |es| ==> NoQuotableText(es[i])
    case Optional(content) => content.Some? ==> NoQuotableText(content.value)
    case Variant(active) => NoQuotableText(active)
  }

  /** Every text in `v` made non-quotable, as if no text type were in is_quotable. */
  function Unquotable(v: Value): (r: Value)
    decreases v, 1
    ensures r.Text? <==> v.Text?
    ensures r.Text? ==> r.chars == v.chars && !r.quotable
    ensures forall hv: bool :: Printable(hv, r) <==> Printable(hv, v)
    ensures NoQuotableText(r)
  {
    match v
    case Leaf(_) => v
    case Text(chars, _) => Text(chars, false)
    case Range(es) =>
      var u := seq(|es|, i requires 0 <= i < |es| => Unquotable(es[i]));
      assert forall i :: 0 <= i < |es| ==> u[i] == Unquotable(es[i]);
      Range(u)
    case Map(entries) =>
      var u := seq(|entries|, i requires 0 <= i < |entries| => UnquotableEntry(entries[i]));
      assert forall i :: 0 <= i < |entries| ==> u[i] == UnquotableEntry(entries[i]);
      Map(u)
    case Tuple(es) =>
      var u := seq(|es|, i requires 0 <= i < |es| => Unquotable(es[i]));
      assert forall i :: 0 <= i < |es| ==> u[i] == Unquotable(es[i]);
      Tuple(u)
    case Optional(content) =>
      Optional(if content.Some? then Some(Unquotable(content.value)) else None)
    case Variant(active) => Variant(Unquotable(active))
  }

  function UnquotableEntry(e: Entry): (r: Entry)
    decreases e, 0
    ensures forall hv: bool :: Printable(hv, r.key) <==> Printable(hv, e.key)
    ensures forall hv: bool :: Printable(hv, r.mapped) <==> Printable(hv, e.mapped)
    ensures NoQuotableText(r.key) && NoQuotableText(r.mapped)
  {
    Entry(Unquotable(e.key), Unquotable(e.mapped))
  }

  /** Defining TCB_PRETTY_PRINT_NO_STRING_QUOTING prints every value exactly as it would
      print with quoting on if no text in it were quotable. */
  lemma {:induction false} QuotingSwitchedOff(f: Flags, v: Value)
    requires Printable(f.haveVariant, v)
    ensures Render(f.(quoteStrings := false), v) == Render(f, Unquotable(v))
    decreases v, 1
  {
    var g := f.(quoteStrings := false);
    match v
    case Leaf(_) =>
    case Text(_, _) =>
    case Range(es) =>
      ElementsSwitchedOff(f, es);
    case Map(entries) =>
      var u := Unquotable(v).entries;
      forall i | 0 <= i < |entries|
        ensures EntryParts(g, entries)[i] == EntryParts(f, u)[i]
      {
        EntrySwitchedOff(f, entries[i]);
      }
      assert EntryParts(g, entries) == EntryParts(f, u);
    case Tuple(es) =>
      ElementsSwitchedOff(f, es);
    case Optional(content) =>
      if content.Some? {
        QuotingSwitchedOff(f, content.value);
      }
    case Variant(active) =>
      QuotedSwitchedOff(f, active);
  }

  lemma {:induction false} ElementsSwitchedOff(f: Flags, es: seq<Value>)
    requires forall i :: 0 <= i < |es| ==> Printable(f.haveVariant, es[i])
    ensures QuotedParts(f.(quoteStrings := false), es) ==
      QuotedParts(f, seq(|es|, i requires 0 <= i < |es| => Unquotable(es[i])))
    decreases es, 0
  {
    var u := seq(|es|, i requires 0 <= i < |es| => Unquotable(es[i]));
    forall i | 0 <= i < |es|
      ensures QuotedParts(f.(quoteStrings := false), es)[i] == QuotedParts(f, u)[i]
    {
      QuotedSwitchedOff(f, es[i]);
    }
  }

  lemma {:induction false} QuotedSwitchedOff(f: Flags, v: Value)
    requires Printable(f.haveVariant, v)
    ensures Quoted(f.(quoteStrings := false), v) == Quoted(f, Unquotable(v))
    decreases v, 2
  {
    if !v.Text? {
      QuotingSwitchedOff(f, v);
    }
  }

  lemma {:induction false} EntrySwitchedOff(f: Flags, e: Entry)
    requires Printable(f.haveVariant, e.key) && Printable(f.haveVariant, e.mapped)
    ensures EntryText(f.(quoteStrings := false), e) == EntryText(f, UnquotableEntry(e))
    decreases e, 0
  {
    QuotedSwitchedOff(f, e.key);
    QuotedSwitchedOff(f, e.mapped);
  }

  lemma RangeOfThreeLeaves(f: Flags, a: string, b: string, c: string)
    ensures Render(f, Range([Leaf(a), Leaf(b), Leaf(c)])) == "[" + a + ", " + b + ", " + c + "]"
  {
    assert Quoted(f, Leaf(a)) == a;
    assert Quoted(f, Leaf(b)) == b;
    assert Quoted(f, Leaf(c)) == c;
    assert QuotedParts(f, [Leaf(a), Leaf(b), Leaf(c)]) == [a, b, c];
    JoinTriple(a, b, c, Sep);
  }

  /** The build of the library's test suite: TCB_PRETTY_PRINT_POINTERS_ARE_OPTIONALS is
      defined, so its `int*` sections print as optionals; quoting is on. */
  const TestFlags: Flags := Default.(pointersAreOptionals := true)

  /** The range outputs the library's test suite expects. */
  lemma SuiteRanges()
    ensures Render(TestFlags, Range([Leaf("1"), Leaf("2"), Leaf("3")])) == "[1, 2, 3]"
    ensures Render(TestFlags, Range([])) == "[]"
  {
    RangeOfThreeLeaves(TestFlags, "1", "2", "3");
  }

  lemma RangeOfTwo(f: Flags, x: Value, y: Value)
    requires Printable(f.haveVariant, x) && Printable(f.haveVariant, y)
    ensures Render(f, Range([x, y])) == "[" + Quoted(f, x) + ", " + Quoted(f, y) + "]"
  {
    assert QuotedParts(f, [x, y]) == [Quoted(f, x), Quoted(f, y)];
    JoinPair(Quoted(f, x), Quoted(f, y), Sep);
  }

  const Row123: Value := Range([Leaf("1"), Leaf("2"), Leaf("3")])
  const Row456: Value := Range([Leaf("4"), Leaf("5"), Leaf("6")])

  /** A vector of vectors, as the library's test suite expects it. */
  lemma SuiteNestedRange()
    ensures Render(TestFlags, Range([Row123, Row456])) == "[[1, 2, 3], [4, 5, 6]]"
  {
    RangeOfThreeLeaves(TestFlags, "1", "2", "3");
    RangeOfThreeLeaves(TestFlags, "4", "5", "6");
    assert Quoted(TestFlags, Row123) == "[1, 2, 3]";
    assert Quoted(TestFlags, Row456) == "[4, 5, 6]";
    RangeOfTwo(TestFlags, Row123, Row456);
    NestedLiteral();
  }

  lemma NestedLiteral()
    ensures "[" + "[1, 2, 3]" + ", " + "[4, 5, 6]" + "]" == "[[1, 2, 3], [4, 5, 6]]"
  {
  }

  lemma QuoteOneTwo()
    ensures Quoting.QuoteText("one") == "\"one\""
    ensures Quoting.QuoteText("two") == "\"two\""
  {
    assert Quoting.Escape("one") == "one";
    assert Quoting.Escape("two") == "two";
  }

  const OneTwoTexts: seq<Value> := [Text("one", true), Text("two", true)]

  /** A string prints as it is at top level, as the library's test suite expects. */
  lemma SuiteStrings()
    ensures Render(TestFlags, Text("test", true)) == "test"
  {
  }

  /** The same strings as range elements are quoted. */
  lemma RangeOfStrings()
    ensures Render(TestFlags, Range(OneTwoTexts)) == "[\"one\", \"two\"]"
  {
    QuoteOneTwo();
    var one, two := OneTwoTexts[0], OneTwoTexts[1];
    assert Quoted(TestFlags, one) == "\"one\"";
    assert Quoted(TestFlags, two) == "\"two\"";
    RangeOfTwo(TestFlags, one, two);
    assert [one, two] == OneTwoTexts;
    StringsLiteral();
  }

  lemma StringsLiteral()
    ensures "[" + "\"one\"" + ", " + "\"two\"" + "]" == "[\"one\", \"two\"]"
  {
  }

  lemma MapOfTwo(f: Flags, e: Entry, d: Entry)
    requires Printable(f.haveVariant, e.key) && Printable(f.haveVariant, e.mapped)
    requires Printable(f.haveVariant, d.key) && Printable(f.haveVariant, d.mapped)
    ensures Render(f, Map([e, d])) == "{" + EntryText(f, e) + ", " + EntryText(f, d) + "}"
  {
    assert EntryParts(f, [e, d]) == [EntryText(f, e), EntryText(f, d)];
    JoinPair(EntryText(f, e), EntryText(f, d), Sep);
  }

  const OneTwo: seq<Entry> := [Entry(Leaf("1"), Text("one", true)), Entry(Leaf("2"), Text("two", true))]

  /** A map of ints to strings, as the library's test suite expects it. */
  lemma SuiteMap()
    ensures Render(TestFlags, Map(OneTwo)) == "{1: \"one\", 2: \"two\"}"
  {
    QuoteOneTwo();
    var e, d := OneTwo[0], OneTwo[1];
    assert Quoted(TestFlags, e.key) == "1";
    assert Quoted(TestFlags, d.key) == "2";
    assert Quoted(TestFlags, e.mapped) == "\"one\"";
    assert Quoted(TestFlags, d.mapped) == "\"two\"";
    MapOfTwo(TestFlags, e, d);
    MapLiteral();
  }

  lemma MapLiteral()
    ensures "{" + ("1" + ": " + "\"one\"") + ", " + ("2" + ": " + "\"two\"") + "}" ==
      "{1: \"one\", 2: \"two\"}"
  {
  }

  /** The tuple, optional and variant outputs the library's test suite expects (a float
      is a leaf that prints 3.14). */
  lemma SuiteOthers()
    ensures Render(TestFlags, Tuple([Leaf("1"), Leaf("3.14")])) == "(1, 3.14)"
    ensures Render(TestFlags, Tuple([])) == "()"
    ensures Render(TestFlags, Optional(None)) == "--"
    ensures Render(TestFlags, Optional(Some(Leaf("3")))) == "3"
    ensures Render(TestFlags, Variant(Leaf("3.14"))) == "3.14"
  {
    assert Quoted(TestFlags, Leaf("1")) == "1" && Quoted(TestFlags, Leaf("3.14")) == "3.14";
    assert QuotedParts(TestFlags, [Leaf("1"), Leaf("3.14")]) == ["1", "3.14"];
    assert TuplePrinter(["1", "3.14"], 0) == "(1, 3.14)";
  }
}
