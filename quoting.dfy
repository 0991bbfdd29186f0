/**
 * The std::quoted manipulator of section 27.7.6 [quoted.manip] of ISO/IEC 14882:2014,
 * with its default delimiter '"' and escape character '\', as pretty_print.hpp uses it
 * for quotable text nested inside a range, map, tuple or variant.
 *
 * Insertion writes the delimiter, then every character of the text with the escape
 * character inserted before each delimiter or escape character, then the delimiter.
 * Extraction reads such text back; it is the inverse the round-trip lemmas are about.
 */
module Quoting {
  import opened Wrappers

  const Delim: char := '"'
  const EscapeChar: char := '\\'

  predicate NeedsEscape(c: char) {
    c == Delim || c == EscapeChar
  }

  /** The characters between the two delimiters that insertion writes for `s`. */
  function Escape(s: string): (r: string)
    ensures |r| >= |s|
    ensures (forall i :: 0 <= i < |s| ==> !NeedsEscape(s[i])) ==> r == s
    ensures forall i :: 0 <= i < |s| && NeedsEscape(s[i]) ==> |r| > |s|
  {
    if s == [] then []
    else (if NeedsEscape(s[0]) then [EscapeChar, s[0]] else [s[0]]) + Escape(s[1..])
  }

  /** What `os << std::quoted(s)` writes. */
  function QuoteText(s: string): (r: string)
    ensures |r| >= |s| + 2
    ensures r[0] == Delim && r[|r| - 1] == Delim
  {
    [Delim] + Escape(s) + [Delim]
  }

  /**
   * Extraction of the body of a quoted string, after its opening delimiter: an escape
   * character takes the next character literally, an unescaped delimiter ends the
   * text. Gives the text read and the input that follows the closing delimiter, or
   * None when the input ends first.
   */
  function ReadQuotedBody(t: string): (r: Option<(string, string)>)
    ensures r.Some? ==> |r.value.1| < |t|
  {
    if t == [] then None
    else if t[0] == Delim then Some(([], t[1..]))
    else if t[0] == EscapeChar then
      if |t| == 1 then None
      else match ReadQuotedBody(t[2..])
        case None => None
        case Some((body, rest)) => Some(([t[1]] + body, rest))
    else match ReadQuotedBody(t[1..])
      case None => None
      case Some((body, rest)) => Some(([t[0]] + body, rest))
  }

  /** `is >> std::quoted(s)` on input that starts with the delimiter; None otherwise. */
  function Unquote(t: string): Option<(string, string)> {
    if t != [] && t[0] == Delim then ReadQuotedBody(t[1..]) else None
  }

  /** Extraction stops exactly at the delimiter that closes an escaped text. */
  lemma {:induction false} ReadEscaped(s: string, rest: string)
    ensures ReadQuotedBody(Escape(s) + [Delim] + rest) == Some((s, rest))
  {
    var t := Escape(s) + [Delim] + rest;
    if s == [] {
      assert t == [Delim] + rest;
      assert t[1..] == rest;
    } else {
      var c := s[0];
      var tail := Escape(s[1..]) + [Delim] + rest;
      ReadEscaped(s[1..], rest);
      if NeedsEscape(c) {
        assert t == [EscapeChar, c] + tail;
        assert t[0] == EscapeChar && t[1] == c && t[2..] == tail;
      } else {
        assert t == [c] + tail;
        assert t[0] == c && t[1..] == tail;
      }
      assert [c] + s[1..] == s;
    }
  }

  /**
   * Quoted text is self-delimiting: reading it back from the front of any input gives
   * the original text and leaves what follows untouched.
   */
  lemma QuoteRoundTrip(s: string, rest: string)
    ensures Unquote(QuoteText(s) + rest) == Some((s, rest))
  {
    ReadEscaped(s, rest);
    assert (QuoteText(s) + rest)[1..] == Escape(s) + [Delim] + rest;
  }

  /** Different texts are quoted differently. */
  lemma QuoteInjective(s: string, t: string)
    requires QuoteText(s) == QuoteText(t)
    ensures s == t
  {
    QuoteRoundTrip(s, []);
    QuoteRoundTrip(t, []);
    assert QuoteText(s) + [] == QuoteText(s);
    assert QuoteText(t) + [] == QuoteText(t);
  }
}
