/**
 * The build-time switches of pretty_print.hpp, fixed for a whole build.
 */
module Config {
  /**
   * quoteStrings:        TCB_PRETTY_PRINT_NO_STRING_QUOTING is NOT defined
   * pointersAreOptionals: TCB_PRETTY_PRINT_POINTERS_ARE_OPTIONALS is defined
   * haveVariant:         the build is C++17 or later, so the std::variant printer exists
   */
  datatype Flags = Flags(quoteStrings: bool, pointersAreOptionals: bool, haveVariant: bool)

  /** The header included with no macro defined, in a C++17 build. */
  const Default := Flags(quoteStrings := true, pointersAreOptionals := false, haveVariant := true)
}
