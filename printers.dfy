/**
 * The operator<< overloads of pretty_print.hpp as they run: each appends to an output
 * stream step by step, and each is proved to append exactly what Render says.
 */
module Printers {
  import opened Wrappers
  import opened Config
  import opened Joining
  import opened Rendering
  import Quoting

  /** The range printer: `[`, each element quoted and fed to an ostream_joiner with
      delimiter `, `, then `]`. */
  method PrintRange(os: OStream, f: Flags, es: seq<Value>)
    requires Printable(f.haveVariant, Range(es))
    modifies os
    ensures os.text == old(os.text) + Render(f, Range(es))
  {
    ghost var parts := QuotedParts(f, es);
    os.Write("[");
    var joiner := new OstreamJoiner(os, Sep);
    for i := 0 to |es|
      invariant joiner.Valid() && joiner.os == os && joiner.delim == Sep
      invariant joiner.start == old(os.text) + "[" && joiner.values == parts[..i]
    {
      joiner.Assign(Quoted(f, es[i]));
      assert parts[..i + 1] == parts[..i] + [Quoted(f, es[i])];
    }
    assert parts[..|es|] == parts;
    assert Render(f, Range(es)) == "[" + Join(parts, Sep) + "]";
    os.Write("]");
    Reassociate(old(os.text), "[", Join(parts, Sep), "]");
  }

  /** `os << quoted(e.first) << ": " << quoted(e.second)`. */
  method PrintEntry(os: OStream, f: Flags, e: Entry)
    requires Printable(f.haveVariant, e.key) && Printable(f.haveVariant, e.mapped)
    modifies os
    ensures os.text == old(os.text) + EntryText(f, e)
  {
    os.Write(Quoted(f, e.key));
    os.Write(": ");
    os.Write(Quoted(f, e.mapped));
  }

  /** The map printer: `{`, the first entry, then `, ` before each further entry, then
      `}`; an entry is its key quoted, `: `, and its value quoted. */
  method PrintMap(os: OStream, f: Flags, entries: seq<Entry>)
    requires Printable(f.haveVariant, Map(entries))
    modifies os
    ensures os.text == old(os.text) + Render(f, Map(entries))
  {
    ghost var parts := EntryParts(f, entries);
    ghost var prefix := old(os.text) + "{";
    os.Write("{");
    var next := 0;
    if next != |entries| {
      assert parts[next] == EntryText(f, entries[next]);
      PrintEntry(os, f, entries[next]);
      JoinPrefixStep(parts, next, Sep);
      next := next + 1;
    }
    while next != |entries|
      invariant 0 <= next <= |entries|
      invariant entries != [] ==> next >= 1
      invariant os.text == prefix + Join(parts[..next], Sep)
      decreases |entries| - next
    {
      ghost var joined := Join(parts[..next], Sep);
      assert parts[next] == EntryText(f, entries[next]);
      os.Write(Sep);
      PrintEntry(os, f, entries[next]);
      JoinPrefixStep(parts, next, Sep);
      Reassociate(prefix, joined, Sep, parts[next]);
      next := next + 1;
    }
    assert parts[..next] == parts;
    assert Render(f, Map(entries)) == "{" + Join(parts, Sep) + "}";
    os.Write("}");
    Reassociate(old(os.text), "{", Join(parts, Sep), "}");
  }

  /** The tuple printer: tuple_printer<Tuple, 0, N> on the tuple. */
  method PrintTuple(os: OStream, f: Flags, es: seq<Value>)
    requires Printable(f.haveVariant, Tuple(es))
    modifies os
    ensures os.text == old(os.text) + Render(f, Tuple(es))
  {
    os.Write(TuplePrinter(QuotedParts(f, es), 0));
  }

  /** The optional printer: the content, unquoted, when engaged; `--` otherwise. */
  method PrintOptional(os: OStream, f: Flags, content: Option<Value>)
    requires Printable(f.haveVariant, Optional(content))
    modifies os
    ensures os.text == old(os.text) + Render(f, Optional(content))
    decreases Optional(content), 0
  {
    if content.Some? {
      Print(os, f, content.value);
    } else {
      os.Write(Absent);
    }
  }

  /** The variant printer: the active alternative, quoted. */
  method PrintVariant(os: OStream, f: Flags, active: Value)
    requires Printable(f.haveVariant, Variant(active))
    modifies os
    ensures os.text == old(os.text) + Render(f, Variant(active))
    decreases Variant(active), 0
  {
    if active.Text? && active.quotable && f.quoteStrings {
      os.Write(Quoting.QuoteText(active.chars));
    } else {
      Print(os, f, active);
    }
  }

  /** `os << v`: the overload the value's shape selects, or the value's own stream
      operator for a leaf or a text. */
  method Print(os: OStream, f: Flags, v: Value)
    requires Printable(f.haveVariant, v)
    modifies os
    ensures os.text == old(os.text) + Render(f, v)
    decreases v, 1
  {
    match v
    case Leaf(token) => os.Write(token);
    case Text(chars, _) => os.Write(chars);
    case Range(es) => PrintRange(os, f, es);
    case Map(entries) => PrintMap(os, f, entries);
    case Tuple(es) => PrintTuple(os, f, es);
    case Optional(content) => PrintOptional(os, f, content);
    case Variant(active) => PrintVariant(os, f, active);
  }

  /** to_string: print into a fresh string stream and return what it holds. */
  method ToString(f: Flags, v: Value) returns (s: string)
    requires Printable(f.haveVariant, v)
    ensures s == Render(f, v)
  {
    var ss := new OStream();
    Print(ss, f, v);
    s := ss.text;
  }
}
