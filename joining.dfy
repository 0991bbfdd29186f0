/**
 * The output sink and the ostream_joiner of pretty_print.hpp. The sink is the text an
 * output stream has received so far; writing appends to it.
 */
module Joining {

  /** The separator the range and map printers put between elements. */
  const Sep: string := ", "

  /** `parts` with `sep` between consecutive parts, in order. */
  function Join(parts: seq<string>, sep: string): string
    decreases |parts|
  {
    if |parts| == 0 then ""
    else if |parts| == 1 then parts[0]
    else Join(parts[..|parts| - 1], sep) + sep + parts[|parts| - 1]
  }

  /** Regroupings of a concatenation, proved once on their own so that callers need
      not. */
  lemma Reassociate(a: string, b: string, c: string, d: string)
    ensures a + b + c + d == a + (b + c + d)
  {
  }

  lemma Regroup(a: string, b: string, c: string, d: string, e: string)
    ensures a + b + (c + d + e) == a + (b + c + d) + e
    ensures a + b + c + (d + e) == a + (b + c + d) + e
  {
  }

  /** Joining one more part adds the separator only when something came before it. */
  lemma JoinAppend(parts: seq<string>, x: string, sep: string)
    ensures Join(parts + [x], sep) == if parts == [] then x else Join(parts, sep) + sep + x
  {
    assert (parts + [x])[..|parts|] == parts;
  }

  /** The step a loop over a prefix of `parts` takes. */
  lemma JoinPrefixStep(parts: seq<string>, k: nat, sep: string)
    requires k < |parts|
    ensures Join(parts[..k + 1], sep) == if k == 0 then parts[0] else Join(parts[..k], sep) + sep + parts[k]
  {
    JoinAppend(parts[..k], parts[k], sep);
    assert parts[..k] + [parts[k]] == parts[..k + 1];
  }

  /** Joining from the front: the first part, then the separator and the rest. */
  lemma {:induction false} JoinCons(x: string, parts: seq<string>, sep: string)
    ensures Join([x] + parts, sep) == if parts == [] then x else x + sep + Join(parts, sep)
  {
    if |parts| > 1 {
      var init := parts[..|parts| - 1];
      var last := parts[|parts| - 1];
      JoinCons(x, init, sep);
      assert ([x] + parts)[..|parts|] == [x] + init;
      assert init != [];
    } else if |parts| == 1 {
      assert ([x] + parts)[..1] == [x];
    }
  }

  lemma JoinPair(a: string, b: string, sep: string)
    ensures Join([a, b], sep) == a + sep + b
  {
    assert [a, b][..1] == [a];
  }

  lemma JoinTriple(a: string, b: string, c: string, sep: string)
    ensures Join([a, b, c], sep) == a + sep + b + sep + c
  {
    assert [a, b, c][..2] == [a, b];
    JoinPair(a, b, sep);
  }

  /** An output stream, seen as the text written to it so far. */
  class OStream {
    var text: string

    /** A fresh std::ostringstream. */
    constructor ()
      ensures text == []
    {
      text := [];
    }

    /** `os << s` for text that is already rendered. */
    method Write(s: string)
      modifies this
      ensures text == old(text) + s
    {
      text := text + s;
    }
  }

  /**
   * ostream_joiner: an output iterator that writes each assigned value to its stream,
   * preceded by the delimiter for every value but the first. `first` is the source's
   * `first_` flag; `start` and `values` are the stream's text when the joiner was made
   * and the values assigned since, which give the joiner's meaning.
   */
  class OstreamJoiner {
    const os: OStream
    const delim: string
    var first: bool
    ghost var start: string
    ghost var values: seq<string>

    /** Nothing but this joiner wrote to the stream since it was made. */
    ghost predicate Valid()
      reads this, os
    {
      os.text == start + Join(values, delim) &&
      first == (values == [])
    }

    /** make_ostream_joiner(stream, delim). */
    constructor (stream: OStream, delim: string)
      ensures this.os == stream && this.delim == delim
      ensures Valid() && first && values == [] && start == stream.text
    {
      os := stream;
      this.delim := delim;
      first := true;
      start := stream.text;
      values := [];
    }

    /** `joiner = value`, where `value` is the text that `*os_ << value` writes. */
    method Assign(value: string)
      requires Valid()
      modifies this, os
      ensures Valid() && !first
      ensures start == old(start) && values == old(values) + [value]
      ensures os.text == old(os.text) + (if old(first) then "" else delim) + value
    {
      if !first {
        os.Write(delim);
      }
      first := false;
      os.Write(value);
      JoinAppend(values, value, delim);
      values := values + [value];
    }

    /** operator*: the joiner itself, unchanged. */
    method Deref() returns (j: OstreamJoiner)
      ensures j == this
    {
      j := this;
    }

    /** Prefix operator++: the joiner itself, unchanged. */
    method PreIncrement() returns (j: OstreamJoiner)
      ensures j == this
    {
      j := this;
    }

    /** Postfix operator++: the joiner itself, unchanged. */
    method PostIncrement() returns (j: OstreamJoiner)
      ensures j == this
    {
      j := this;
    }
  }
}
