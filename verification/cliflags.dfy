/** Flag checks shared by the command-line entry points: the port bound and
    the character classes of the name patterns. */
module CliFlags {
  import opened Wrappers
  import opened Strconv

  predicate IsLetter(c: char) { 'a' <= c <= 'z' || 'A' <= c <= 'Z' }

  predicate IsAlnum(c: char) { IsLetter(c) || '0' <= c <= '9' }

  /** A character of `[a-zA-Z0-9_.-]`. */
  predicate IsNameChar(c: char) { IsAlnum(c) || c == '_' || c == '.' || c == '-' }

  /** The check every port flag makes: only an upper bound, so a negative
      port passes. */
  function PortFlagError(v: int): (err: Option<string>)
    ensures err.None? <==> v < 65536
  {
    if v >= 65536 then Some("flag port value " + Decimal(v) + " out of range [0-65535]") else None
  }

  /** The value of a flag: what was given, or its default. */
  function ValueOr<T>(given: Option<T>, default: T): T
  {
    if given.Some? then given.value else default
  }

  /** What a command's `String(name)` reads, given the values of the string
      flags it declares: a name the command does not declare reads as "". */
  function FlagString(values: map<string, string>, name: string): string
  {
    if name in values then values[name] else ""
  }
}
