# pretty_print.hpp, modelled in Dafny

`tcb/pretty_print.hpp` is a header-only C++ library. It gives standard containers,
tuples, optionals and variants an `operator<<`:

- a range prints as `[a, b, c]`;
- a map-like range prints as `{k: v, ...}`;
- a tuple prints as `(a, b)` or `()`;
- an optional prints as its content or `--`;
- a variant prints as its active alternative.

Strings nested inside a range, map, tuple or variant go through `std::quoted`. Top-level
strings and the content of an optional are printed as they are.

This project models that rendering and proves what it writes. It has these modules:

- **Quoting** (`quoting.dfy`): the `std::quoted` inserter with delimiter `"` and escape
  character `\`, as section 27.7.6 [quoted.manip] of ISO/IEC 14882:2014 describes it.
  It also models the matching extractor, which serves as the inverse in the round-trip
  lemmas.
- **Classify** (`classify.dfy`): the four `should_print_*_v` predicates that enable the
  range, map, tuple and optional overloads. Each is a boolean function over an explicit
  record of the capabilities the C++ detection traits report. Lemmas cover exclusivity,
  precedence, and the array and pointer rules.
- **Joining** (`joining.dfy`):
  - `Join`, parts with a separator between them;
  - an output stream, whose state is the text written to it;
  - the `ostream_joiner` class, whose `first` flag is updated in place. Its invariant
    says the stream holds the start text followed by the assigned values joined by the
    delimiter.
- **Rendering** (`rendering.dfy`):
  - a `Value` datatype, tagged with the overload that prints it;
  - `Render` (what `os << v` writes) and `Quoted` (what `os << detail::quoted(v)` writes);
  - the recursive `tuple_printer`;
  - lemmas on the grammar, on quoting, on the `TCB_PRETTY_PRINT_NO_STRING_QUOTING` switch,
    and on the outputs the library's test suite expects.
- **Printers** (`printers.dfy`): the overloads as they run. Each appends to a stream: the
  range printer through an `ostream_joiner` in a loop, the map printer with a `while` loop
  over its entries. Each is proved to append exactly `Render` of its argument. `to_string`
  prints into a fresh stream.
- **Config** and **Wrappers**: the build switches, and `Option`.

The build switches are the fields of `Config.Flags`:

- `quoteStrings` is off under `TCB_PRETTY_PRINT_NO_STRING_QUOTING`;
- `pointersAreOptionals` is `TCB_PRETTY_PRINT_POINTERS_ARE_OPTIONALS`;
- `haveVariant` is `TCB_PRETTY_PRINT_HAVE_CPP17`.

Printing a variant without C++17 does not compile. The model reflects this by requiring
`Printable(haveVariant, v)`. The same predicate limits a tuple's elements to values with
a stream operator of their own. `tuple_printer` is defined before the library declares its
overloads, so its `os << quoted(get<I>(t))` cannot find them. Ordinary lookup at the
definition sees none of them, and argument-dependent lookup searches only namespace `std`.
A tuple holding a range, map, tuple, optional or variant therefore does not compile.

`std::quoted` with its default arguments escapes only the delimiter `"` and the escape
character `\`. Every other character is written as it is, newlines included.

## Model

| member | source | states |
|---|---|---|
| Quoting.Escape | include/tcb/pretty_print.hpp:75-80 | the escaped body is never shorter than the text; it equals the text when no `"` or `\` occurs, and is strictly longer when one does |
| Quoting.QuoteText | include/tcb/pretty_print.hpp:75-80 | quoted text begins and ends with the delimiter and is at least two characters longer than the text |
| Quoting.ReadEscaped | include/tcb/pretty_print.hpp:75-80 | reading the escaped body back stops exactly at the closing delimiter, yielding the original text and leaving the following input untouched |
| Quoting.QuoteRoundTrip | include/tcb/pretty_print.hpp:75-80 | extraction after insertion gives back the text and the rest of the input: quoted output is self-delimiting |
| Quoting.QuoteInjective | include/tcb/pretty_print.hpp:75-80 | different texts are quoted differently |
| Classify.EnabledOverloads | include/tcb/pretty_print.hpp:250-277 | each overload is enabled exactly when its should_print predicate holds (both directions) |
| Classify.RangeExcludesMap | include/tcb/pretty_print.hpp:250-260 | the range and map overloads are never both enabled |
| Classify.TupleAndOptionalNeedNonRange | include/tcb/pretty_print.hpp:262-277 | the tuple and optional overloads need a type that is not range-like, so they never compete with the range or map overload |
| Classify.OverloadsExclusive | include/tcb/pretty_print.hpp:250-277 | at most one overload is enabled, except that tuple and optional may be enabled together |
| Classify.TupleOptionalOverlap | include/tcb/pretty_print.hpp:262-277 | that exception is real: under every flag setting some type enables both tuple and optional |
| Classify.StdArrayIsRange | include/tcb/pretty_print.hpp:250-266 | std::array, which is tuple-like and range-like, enables the range overload and nothing else |
| Classify.RawArrayIsRange | include/tcb/pretty_print.hpp:250-277 | a raw array whose elements are not the stream's characters enables only the range overload, although it is streamable and optional-like |
| Classify.CharArrayIsText | include/tcb/pretty_print.hpp:250-277 | a streamable array of the stream's characters enables no overload and keeps its own stream operator |
| Classify.StreamableNotRange | include/tcb/pretty_print.hpp:250-256 | a streamable type that is not a raw array is never printed as a range |
| Classify.PointerOptionalIff | include/tcb/pretty_print.hpp:270-277 | a pointer not to the stream's characters prints as an optional exactly when the pointer policy is on |
| Classify.CharPointerNeverOptional | include/tcb/pretty_print.hpp:270-277 | a `char*`, whose element is exactly the stream's char_type, is never an optional, under either policy |
| Classify.ConstCharPointerIsOptional | include/tcb/pretty_print.hpp:270-277 | as written, a `const char*` under the pointer policy enables the optional overload and nothing else, because its element type `const char` is not the stream's char_type |
| Classify.ConstCharPointerCounterexample | include/tcb/pretty_print.hpp:270-277 | a concrete streamable `const char*` under the test build's pointer policy is classified as an optional |
| Classify.IntendedCharPointersNeverOptional | include/tcb/pretty_print.hpp:270-277 | under the corrected test no character pointer, const or not, is an optional; every other type is classified exactly as the code classifies it |
| Joining.JoinAppend | include/tcb/pretty_print.hpp:329-338 | joining one more value adds the delimiter before it exactly when some value came before |
| Joining.OstreamJoiner.constructor | include/tcb/pretty_print.hpp:319-327 | a new joiner is on its stream with its delimiter, `first` is set, and it has written nothing |
| Joining.OstreamJoiner.Assign | include/tcb/pretty_print.hpp:329-338 | assignment writes the delimiter unless it is the first, then the value, and clears `first`; the stream keeps holding the start text followed by all assigned values joined by the delimiter |
| Joining.OstreamJoiner.Deref | include/tcb/pretty_print.hpp:340 | `operator*` returns the joiner itself and changes nothing |
| Joining.OstreamJoiner.PreIncrement | include/tcb/pretty_print.hpp:342 | prefix `operator++` returns the joiner itself and changes nothing |
| Joining.OstreamJoiner.PostIncrement | include/tcb/pretty_print.hpp:344 | postfix `operator++` returns the joiner itself and changes nothing |
| Rendering.TuplePrinterStep | include/tcb/pretty_print.hpp:180-189 | at an index past the first, the tuple printer writes `, `, that element and then the rest |
| Rendering.TuplePrinterSuffix | include/tcb/pretty_print.hpp:180-210 | from an index i past the first, the tuple printer writes `, `, then elements i..N-1 joined by `, `, then `)` |
| Rendering.TuplePrinterJoins | include/tcb/pretty_print.hpp:180-228 | the tuple printer writes `()` at arity 0, and otherwise `(`, all elements joined by `, ` in index order, and `)` |
| Rendering.TupleRendering | include/tcb/pretty_print.hpp:398-404 | a tuple renders as `()` or as its quoted elements joined by `, ` between parentheses, which is what a range of the same elements renders to with parentheses for brackets |
| Rendering.EmptyRenderings | include/tcb/pretty_print.hpp:360-404 | an empty range, map and tuple render as `[]`, `{}` and `()` |
| Rendering.QuotedPartsCons | include/tcb/pretty_print.hpp:366-368 | the quoted elements of a range with one more element in front are that element quoted, followed by the others, in order |
| Rendering.RangeCons | include/tcb/pretty_print.hpp:360-371 | a range renders as `[`, its first element quoted, then `, ` and the remaining elements as they render on their own, without their `[` |
| Rendering.EntryPartsCons | include/tcb/pretty_print.hpp:379-392 | the `key: value` texts of a map with one more entry in front are that entry's text, followed by the others, in order |
| Rendering.MapCons | include/tcb/pretty_print.hpp:373-396 | a map renders as `{`, its first key and value quoted around `: `, then `, ` and the remaining entries as they render on their own, without their `{` |
| Rendering.QuotedIdentity | include/tcb/pretty_print.hpp:70-86 | `quoted` is the identity on anything but quotable text, and on everything when quoting is switched off |
| Rendering.TextQuotedOnlyWhenNested | include/tcb/pretty_print.hpp:360-427 | quotable text prints verbatim at top level and inside an optional, and is quoted once as a range or tuple element, a map key or value, or a variant's active alternative |
| Rendering.OptionalTransparent | include/tcb/pretty_print.hpp:406-416 | a disengaged optional prints `--`; an engaged one prints its content unquoted, even as a range element |
| Rendering.Unquotable | include/tcb/pretty_print.hpp:40-68 | the result has no quotable text at any depth; it keeps the value's printability under either variant setting; a top-level text keeps its characters and loses its quotable flag |
| Rendering.QuotingSwitchedOff | include/tcb/pretty_print.hpp:75-80 | with TCB_PRETTY_PRINT_NO_STRING_QUOTING every value prints as it would with quoting on if none of its texts were quotable |
| Rendering.ElementsSwitchedOff | include/tcb/pretty_print.hpp:75-86 | the same for the quoted elements of a range or tuple |
| Rendering.QuotedSwitchedOff | include/tcb/pretty_print.hpp:75-86 | the same for one quoted value |
| Rendering.EntrySwitchedOff | include/tcb/pretty_print.hpp:75-86 | the same for one map entry |
| Rendering.RangeOfThreeLeaves | test/test_pretty_print_stl.cpp:26-78 | a range of three leaves renders as `[a, b, c]` |
| Rendering.SuiteRanges | test/test_pretty_print_stl.cpp:26-95 | `{1, 2, 3}` renders as `[1, 2, 3]` and an empty range as `[]` |
| Rendering.SuiteNestedRange | test/test_pretty_print_stl.cpp:240-257 | a vector of vectors renders as `[[1, 2, 3], [4, 5, 6]]` |
| Rendering.SuiteStrings | test/test_pretty_print_stl.cpp:115-132 | a string prints verbatim at top level, as `test` |
| Rendering.RangeOfStrings | include/tcb/pretty_print.hpp:360-371 | the strings `one` and `two` as range elements are quoted: `["one", "two"]` |
| Rendering.SuiteMap | test/test_pretty_print_stl.cpp:134-154 | the map {1: one, 2: two} renders as `{1: "one", 2: "two"}` |
| Rendering.SuiteOthers | test/test_pretty_print_stl.cpp:212-306 | the tuple renders as `(1, 3.14)`, the empty tuple as `()`, optionals as `--` and `3`, and the variant as `3.14` |
| Printers.PrintRange | include/tcb/pretty_print.hpp:360-371 | the loop feeding each quoted element to an ostream_joiner appends exactly the range's rendering |
| Printers.PrintEntry | include/tcb/pretty_print.hpp:383-384 | writing a key, `: ` and a value appends the entry's text |
| Printers.PrintMap | include/tcb/pretty_print.hpp:373-396 | the first-entry step and the `while` loop over the remaining entries append exactly the map's rendering |
| Printers.PrintTuple | include/tcb/pretty_print.hpp:398-404 | the tuple printer appends exactly the tuple's rendering |
| Printers.PrintOptional | include/tcb/pretty_print.hpp:406-416 | the optional printer appends the content's rendering or `--` |
| Printers.PrintVariant | include/tcb/pretty_print.hpp:418-427 | the variant printer appends the active alternative, quoted |
| Printers.Print | include/tcb/pretty_print.hpp:284-305 | `os << v` through the selected overload appends exactly `Render` of `v` |
| Printers.ToString | include/tcb/pretty_print.hpp:431-437 | to_string returns exactly the value's rendering |

## Left out

- Overload resolution by SFINAE (`enable_if`, `void_t`, the detection traits) is not modelled. Dafny cannot inspect C++ types. The detected capabilities are an input record (`Classify.Capabilities`), and each value carries the overload that prints it (`Rendering.Value`).
- `Classify` and `Rendering` are not tied together: nothing proves that a value's tag agrees with the overload its C++ type would select. The two lemma families stand side by side.
- Which type has which capabilities is an input. For a `const char*` the record sets `elemIsConstStreamChar` and not `elemIsStreamChar`, since `array_element_t<const char*>` is `const char`. `EnabledOverloads` follows the code as written; see Findings.
- A tuple whose elements need the library's own overloads does not compile, and the model does not render it. `Printable` excludes it, and no intended output is modelled.
- Streams are the text written to them, with no formatting state, locale, error state or wide characters. `std::ostringstream::str()` is that text.
- A value with its own stream operator (an int, a float, a user type) is a `Leaf` holding the text that operator writes. In particular, floating-point formatting (`3.14`) is not modelled.
- Quotability is a flag on each `Text`, not derived from the type. The wide character types appear only through that flag.
- `std::visit` is not modelled: a variant is represented by its active alternative.
- The structured-binding `tuple_like` helper type of the tests is not modelled. Its expected output is the same as `std::tuple`'s, and `SuiteOthers` covers it.
- The iteration order of unordered containers is not fixed. A range or map is its elements in whatever traversal order the container yields.
- The pre-/post-C++17 conditional compilation appears only as the `haveVariant` flag. `basic_string_view` being quotable only from C++17 is likewise part of the quotable flag.
- `Quoting.Unquote` models only input that starts with the delimiter. The extractor's fallback for unquoted input (plain `>>`) is not needed for the round trip and returns `None`.

## Findings

| source | as written | input that shows it | evidently intended | confidence | as-written member | corrected member |
|---|---|---|---|---|---|---|
| include/tcb/pretty_print.hpp:270-277 | the character-pointer exclusion compares `array_element_t<Opt>` with the stream's char_type, and for `const char*` that element is `const char`, so the test fails | `const char* p = "abc"; ss << p;` on a `std::ostringstream`, with TCB_PRETTY_PRINT_POINTERS_ARE_OPTIONALS defined: the optional overload is enabled, and it binds the stream type exactly, so it plausibly wins over the standard inserter and writes `a` | no pointer to the stream's characters, const or not, prints as an optional | plausible, from the text alone; not executed | Classify.ConstCharPointerCounterexample | Classify.IntendedCharPointersNeverOptional |
