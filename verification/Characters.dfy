// Bytes and decimal digits, read alike by every component.
module Characters {
  type Byte = x: nat | x < 256

  // What separates the texts a digest or a key is made of.
  const NUL: char := '\0'

  predicate Plain(s: string) { NUL !in s }

  predicate IsDigit(c: char) { '0' <= c <= '9' }

  // The value of a run of digits, most significant first.
  function NumberOf(s: string): nat {
    if s == [] then 0
    else 10 * NumberOf(s[..|s| - 1]) + (if IsDigit(s[|s| - 1]) then (s[|s| - 1] - '0') as nat else 0)
  }
}
