/** NUL-terminated C strings: a character sequence that contains a NUL, read up to the first one. */
module CStrings {
  const Nul: char := '\0'

  /** `strlen`: the index of the first NUL. */
  function CLength(s: seq<char>): (n: nat)
    requires Nul in s
    ensures n < |s| && s[n] == Nul
    ensures forall j | 0 <= j < n :: s[j] != Nul
  {
    if s[0] == Nul then 0 else 1 + CLength(s[1..])
  }

  /** The string proper: everything before the first NUL. */
  function Contents(s: seq<char>): (t: seq<char>)
    requires Nul in s
    ensures |t| == CLength(s) && Nul !in t
    ensures t + [Nul] == s[..CLength(s) + 1]
  {
    s[..CLength(s)]
  }
}
