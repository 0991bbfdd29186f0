/**
 * The compile-time shape classification of pretty_print.hpp. The C++ detects each
 * capability of a type by substitution failure; here the detected capabilities are an
 * explicit record, and the four `should_print_*_v` predicates that enable the range,
 * map, tuple and optional printers are boolean functions over it.
 */
module Classify {
  import opened Config

  /** What the detection traits report for one type T, printed on a stream whose
      character type is the stream's char_type. */
  datatype Capabilities = Capabilities(
    rangeLike: bool,        // is_range_like: std::begin gives an input iterator
    hasFirstSecond: bool,   // the iterator's pointee has `first` and `second` members
    tupleLike: bool,        // is_tuple_like: std::tuple_size<T>::value is a std::size_t
    optionalLike: bool,     // is_optional_like: `*t` and `static_cast<bool>(t)` are valid
    streamable: bool,       // is_streamable: `os << t` already resolves
    isArray: bool,          // std::is_array<T>
    isPointer: bool,        // std::is_pointer<T>
    elemIsStreamChar: bool, // array_element_t<T> is exactly the stream's char_type
    elemIsConstStreamChar: bool // array_element_t<T> is the stream's char_type, const
  )

  /** is_map_like: a range whose elements expose `first` and `second`; this admits a
      vector of pairs as well as std::map. */
  predicate IsMapLike(c: Capabilities) {
    c.rangeLike && c.hasFirstSecond
  }

  /** should_print_range_v: a range that is not a map and has no stream operator of its
      own, except that a raw array prints as a range unless its elements are the
      stream's characters. */
  predicate ShouldPrintRange(c: Capabilities) {
    c.rangeLike && !IsMapLike(c) &&
    (!c.streamable || (c.isArray && !c.elemIsStreamChar))
  }

  /** should_print_map_v. */
  predicate ShouldPrintMap(c: Capabilities) {
    IsMapLike(c)
  }

  /** should_print_tuple_v: std::array is tuple-like and range-like; it is a range. */
  predicate ShouldPrintTuple(c: Capabilities) {
    c.tupleLike && !c.rangeLike
  }

  /** should_print_optional_v: raw arrays are ranges, pointers are optionals only under
      the pointer policy, and a `char*` (element exactly the stream's char_type) never
      is one. A `const char*` has element `const char`, which the test does not match. */
  predicate ShouldPrintOptional(f: Flags, c: Capabilities) {
    c.optionalLike && !c.rangeLike &&
    (f.pointersAreOptionals || !c.isPointer) &&
    !c.elemIsStreamChar
  }

  /** The operator<< overloads of pretty_print.hpp, each enabled by one predicate. */
  datatype Overload = RangeOverload | MapOverload | TupleOverload | OptionalOverload

  function EnabledOverloads(f: Flags, c: Capabilities): (r: set<Overload>)
    ensures RangeOverload in r <==> ShouldPrintRange(c)
    ensures MapOverload in r <==> ShouldPrintMap(c)
    ensures TupleOverload in r <==> ShouldPrintTuple(c)
    ensures OptionalOverload in r <==> ShouldPrintOptional(f, c)
  {
    (if ShouldPrintRange(c) then {RangeOverload} else {}) +
    (if ShouldPrintMap(c) then {MapOverload} else {}) +
    (if ShouldPrintTuple(c) then {TupleOverload} else {}) +
    (if ShouldPrintOptional(f, c) then {OptionalOverload} else {})
  }

  /** The range and map printers exclude each other. */
  lemma RangeExcludesMap(c: Capabilities)
    ensures ShouldPrintRange(c) ==> !ShouldPrintMap(c)
    ensures ShouldPrintMap(c) ==> !ShouldPrintRange(c)
  {
  }

  /** The tuple and optional printers both require a type that is not range-like, so
      neither competes with the range or the map printer. */
  lemma TupleAndOptionalNeedNonRange(f: Flags, c: Capabilities)
    ensures ShouldPrintTuple(c) ==> !c.rangeLike && !ShouldPrintRange(c) && !ShouldPrintMap(c)
    ensures ShouldPrintOptional(f, c) ==> !c.rangeLike && !ShouldPrintRange(c) && !ShouldPrintMap(c)
  {
  }

  /** At most one printer is enabled for a type, except that a type may be both
      tuple-like and optional-like. */
  lemma {:induction false} OverloadsExclusive(f: Flags, c: Capabilities)
    ensures |EnabledOverloads(f, c)| <= 1 || EnabledOverloads(f, c) == {TupleOverload, OptionalOverload}
  {
    var r := EnabledOverloads(f, c);
    if c.rangeLike {
      assert r <= {RangeOverload} || r <= {MapOverload};
      if r <= {RangeOverload} {
        assert r == {} || r == {RangeOverload};
      } else {
        assert r == {} || r == {MapOverload};
      }
    } else {
      assert r <= {TupleOverload, OptionalOverload};
      if TupleOverload in r && OptionalOverload in r {
        assert r == {TupleOverload, OptionalOverload};
      } else if TupleOverload in r {
        assert r == {TupleOverload};
      } else if OptionalOverload in r {
        assert r == {OptionalOverload};
      } else {
        assert r == {};
      }
    }
  }

  /** The one overlap is real: some type enables both the tuple and the optional
      printer, whatever the flags. */
  lemma TupleOptionalOverlap(f: Flags)
    ensures exists c :: ShouldPrintTuple(c) && ShouldPrintOptional(f, c)
  {
    var c := Capabilities(rangeLike := false, hasFirstSecond := false, tupleLike := true,
      optionalLike := true, streamable := false, isArray := false, isPointer := false,
      elemIsStreamChar := false, elemIsConstStreamChar := false);
    assert ShouldPrintTuple(c) && ShouldPrintOptional(f, c);
  }

  /** std::array (tuple-like, range-like, no stream operator) prints as a range only. */
  lemma StdArrayIsRange(f: Flags, c: Capabilities)
    requires c.tupleLike && c.rangeLike && !c.hasFirstSecond && !c.streamable
    ensures EnabledOverloads(f, c) == {RangeOverload}
  {
  }

  /** A raw array that is not of the stream's characters prints as a range only, even
      though it is streamable (by decay to a pointer) and optional-like. */
  lemma RawArrayIsRange(f: Flags, c: Capabilities)
    requires c.isArray && c.rangeLike && !c.hasFirstSecond && !c.elemIsStreamChar
    ensures EnabledOverloads(f, c) == {RangeOverload}
  {
  }

  /** A streamable array of the stream's characters (a string literal) enables none of
      the printers: it keeps its own stream operator. */
  lemma CharArrayIsText(f: Flags, c: Capabilities)
    requires c.isArray && c.rangeLike && !c.hasFirstSecond && c.streamable && c.elemIsStreamChar
    ensures EnabledOverloads(f, c) == {}
  {
  }

  /** A streamable type that is not a raw array (std::string, a container with its
      own operator<<) is never printed as a range. */
  lemma StreamableNotRange(c: Capabilities)
    requires c.streamable && !c.isArray
    ensures !ShouldPrintRange(c)
  {
  }

  /** A pointer that is not to the stream's characters prints as an optional exactly
      when the pointer policy is on. */
  lemma PointerOptionalIff(f: Flags, c: Capabilities)
    requires c.isPointer && c.optionalLike && !c.rangeLike && !c.elemIsStreamChar
    ensures ShouldPrintOptional(f, c) <==> f.pointersAreOptionals
  {
  }

  /** A `char*`, whose element is exactly the stream's char_type, is never an optional,
      under either policy. */
  lemma CharPointerNeverOptional(f: Flags, c: Capabilities)
    requires c.elemIsStreamChar
    ensures !ShouldPrintOptional(f, c)
  {
  }

  /** As written, a `const char*` under the pointer policy is an optional: its element
      type `const char` is not the stream's char_type, so the character-pointer exclusion
      does not apply and the optional overload prints only the first character. */
  lemma ConstCharPointerIsOptional(f: Flags, c: Capabilities)
    requires f.pointersAreOptionals
    requires c.isPointer && c.optionalLike && !c.rangeLike && !c.tupleLike
    requires c.elemIsConstStreamChar && !c.elemIsStreamChar
    ensures ShouldPrintOptional(f, c)
    ensures EnabledOverloads(f, c) == {OptionalOverload}
  {
  }

  /** The `const char*` of the test build (pointer policy on), concretely. */
  lemma ConstCharPointerCounterexample()
    ensures exists c: Capabilities ::
      c.elemIsConstStreamChar && c.streamable &&
      ShouldPrintOptional(Default.(pointersAreOptionals := true), c)
  {
    var c := Capabilities(rangeLike := false, hasFirstSecond := false, tupleLike := false,
      optionalLike := true, streamable := true, isArray := false, isPointer := true,
      elemIsStreamChar := false, elemIsConstStreamChar := true);
    assert ShouldPrintOptional(Default.(pointersAreOptionals := true), c);
  }

  /** should_print_optional_v as evidently intended: a pointer to the stream's
      characters, const or not, is text and never an optional. */
  predicate ShouldPrintOptionalIntended(f: Flags, c: Capabilities) {
    ShouldPrintOptional(f, c) && !c.elemIsConstStreamChar
  }

  /** Under the intended test no character pointer is an optional, under either policy,
      and every other type is classified as the code classifies it. */
  lemma IntendedCharPointersNeverOptional(f: Flags, c: Capabilities)
    ensures c.elemIsStreamChar || c.elemIsConstStreamChar ==> !ShouldPrintOptionalIntended(f, c)
    ensures !c.elemIsConstStreamChar ==> (ShouldPrintOptionalIntended(f, c) <==> ShouldPrintOptional(f, c))
  {
  }
}
