/**
  Small value helpers shared by the server (C#) and client (TypeScript) halves
  of the model: an optional value, the "non-empty string" test both languages
  use for configuration and header values, the two different fallback
  operators (`??` keeps an empty string, `||` does not), and string suffixes.
 */
module Common {

  /** A value that may be absent: `null`/`undefined` in the source. */
  datatype Option<+T> = None | Some(value: T)

  /** `!string.IsNullOrEmpty(v)` in C#, and the truthiness of a
      `string | undefined` in JavaScript: present and not "". */
  predicate Present(v: Option<string>)
  {
    v.Some? && v.value != ""
  }

  /** The null-coalescing operator `v ?? d` (C# and JavaScript alike):
      only an absent value is replaced; an empty string is kept. */
  function Coalesce<T>(v: Option<T>, d: T): T
  {
    match v
    case Some(x) => x
    case None => d
  }

  /** JavaScript `v || d` on a `string | undefined`: both an absent value
      and the empty string fall through to `d`. */
  function OrElse(v: Option<string>, d: string): string
  {
    if Present(v) then v.value else d
  }

  /** `s.endsWith(suffix)`. */
  predicate EndsWith(s: string, suffix: string)
  {
    |suffix| <= |s| && s[|s| - |suffix|..] == suffix
  }
}
