// apps/updater/src/versions.ts, the intrinsic version order: tags are compared
// by their own numbers, never by their place in the list the booth sends.
module Semvers {
  import opened Options
  import opened Characters

  // `final` is the source's prereleaseRank: every pre-release ranks just below its final release.
  datatype Semver = Semver(major: nat, minor: nat, patch: nat, final: bool)

  predicate IsTagChar(c: char) {
    IsDigit(c) || 'a' <= c <= 'z' || 'A' <= c <= 'Z' || c == '.' || c == '-'
  }

  function DigitRun(s: string): (n: nat)
    ensures n <= |s|
  {
    if s == [] || !IsDigit(s[0]) then 0 else 1 + DigitRun(s[1..])
  }

  // One `(\d+)` group at the head of s: its value and the rest.
  function Number(s: string): Option<(nat, string)> {
    var n := DigitRun(s);
    if n == 0 then None else Some((NumberOf(s[..n]), s[n..]))
  }

  // One `\.(\d+)` group.
  function DotNumber(s: string): Option<(nat, string)> {
    if s == [] || s[0] != '.' then None else Number(s[1..])
  }

  function Parse(version: string): Option<Semver> {
    var body := if version != [] && version[0] == 'v' then version[1..] else version;
    match Number(body)
    case None => None
    case Some((major, r0)) =>
      match DotNumber(r0)
      case None => None
      case Some((minor, r1)) =>
        match DotNumber(r1)
        case None => None
        case Some((patch, r2)) =>
          if r2 == [] then Some(Semver(major, minor, patch, true))
          else if r2[0] == '-' && |r2| > 1 && forall i | 1 <= i < |r2| :: IsTagChar(r2[i])
          then Some(Semver(major, minor, patch, false))
          else None
  }

  // The sign is what callers use, as with the source's chain of `||` over differences.
  function Compare(a: Semver, b: Semver): int {
    if a.major != b.major then a.major - b.major
    else if a.minor != b.minor then a.minor - b.minor
    else if a.patch != b.patch then a.patch - b.patch
    else (if a.final then 1 else 0) - (if b.final then 1 else 0)
  }

  // False when either tag does not parse, as in the source.
  predicate IsBelow(a: string, b: string) {
    Parse(a).Some? && Parse(b).Some? && Compare(Parse(a).value, Parse(b).value) < 0
  }

  lemma CompareTransitive(a: Semver, b: Semver, c: Semver)
    requires Compare(a, b) <= 0 && Compare(b, c) <= 0
    ensures Compare(a, c) <= 0
    ensures Compare(a, b) < 0 || Compare(b, c) < 0 ==> Compare(a, c) < 0
  {
  }
}
