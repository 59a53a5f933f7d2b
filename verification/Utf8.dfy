// packages/mcp-tools/src/fs-vc-commands.ts: which bytes diff may treat as text. The encoding is
// the one of RFC 3629, section 3; the accepted byte sequences are those of its section 4, less NUL.
module Utf8 {
  import opened Options
  import opened Characters

  predicate IsSurrogate(cp: nat) { 0xd800 <= cp <= 0xdfff }
  predicate IsScalar(cp: nat) { cp <= 0x10ffff && !IsSurrogate(cp) }
  predicate IsText(cps: seq<nat>) { forall i :: 0 <= i < |cps| ==> cps[i] != 0 && IsScalar(cps[i]) }

  // ---- the encoding -------------------------------------------------------------------------

  function Encode(cp: nat): seq<Byte>
    requires cp <= 0x10ffff
  {
    if cp < 0x80 then [cp]
    else if cp < 0x800 then [0xc0 + cp / 64, 0x80 + cp % 64]
    else if cp < 0x10000 then [0xe0 + cp / 4096, 0x80 + cp / 64 % 64, 0x80 + cp % 64]
    else [0xf0 + cp / 262144, 0x80 + cp / 4096 % 64, 0x80 + cp / 64 % 64, 0x80 + cp % 64]
  }

  function EncodeAll(cps: seq<nat>): seq<Byte>
    requires IsText(cps)
  {
    if cps == [] then [] else Encode(cps[0]) + EncodeAll(cps[1..])
  }

  // ---- the scan -----------------------------------------------------------------------------

  // A lead byte: how many continuation bytes follow, the least scalar that needs them, its own bits.
  datatype Lead = Lead(need: nat, min: nat, bits: nat)

  function LeadOf(c: Byte): Option<Lead> {
    if 0xc2 <= c <= 0xdf then Some(Lead(1, 0x80, c - 0xc0))
    else if 0xe0 <= c <= 0xef then Some(Lead(2, 0x800, c - 0xe0))
    else if 0xf0 <= c <= 0xf4 then Some(Lead(3, 0x10000, c - 0xf0))
    else None
  }

  predicate IsContinuation(c: Byte) { 0x80 <= c <= 0xbf }

  // Shift in need continuation bytes from b[at] on.
  function Continue(b: seq<Byte>, at: nat, need: nat, cp: nat): Option<nat>
    requires at + need <= |b|
    decreases need
  {
    if need == 0 then Some(cp)
    else if !IsContinuation(b[at]) then None
    else Continue(b, at + 1, need - 1, cp * 64 + (b[at] - 0x80))
  }

  predicate InRange(cp: nat, min: nat) { min <= cp <= 0x10ffff && !IsSurrogate(cp) }

  // The scalar at the front of b and the bytes it takes.
  function DecodeOne(b: seq<Byte>): (r: Option<(nat, nat)>)
    requires b != []
    ensures r.Some? ==> 0 < r.value.1 <= |b|
  {
    var c := b[0];
    if c == 0 then None
    else if c < 0x80 then Some((c, 1))
    else
      match LeadOf(c)
      case None => None
      case Some(lead) =>
        if lead.need >= |b| then None
        else
          match Continue(b, 1, lead.need, lead.bits)
          case None => None
          case Some(cp) => if InRange(cp, lead.min) then Some((cp, lead.need + 1)) else None
  }

  function Decode(b: seq<Byte>): Option<seq<nat>>
    decreases |b|
  {
    if b == [] then Some([])
    else
      match DecodeOne(b)
      case None => None
      case Some((cp, n)) =>
        match Decode(b[n..])
        case None => None
        case Some(rest) => Some([cp] + rest)
  }

  // ---- one scalar, both ways --------------------------------------------------------------------

  lemma ContinueOne(b: seq<Byte>, at: nat, cp: nat)
    requires at + 1 <= |b|
    ensures Continue(b, at, 1, cp) == if IsContinuation(b[at]) then Some(cp * 64 + (b[at] - 0x80)) else None
  {
  }

  lemma ContinueTwo(b: seq<Byte>, at: nat, cp: nat)
    requires at + 2 <= |b|
    ensures Continue(b, at, 2, cp)
         == if IsContinuation(b[at]) && IsContinuation(b[at + 1])
            then Some((cp * 64 + (b[at] - 0x80)) * 64 + (b[at + 1] - 0x80)) else None
  {
    if IsContinuation(b[at]) { ContinueOne(b, at + 1, cp * 64 + (b[at] - 0x80)); }
  }

  lemma ContinueThree(b: seq<Byte>, at: nat, cp: nat)
    requires at + 3 <= |b|
    ensures Continue(b, at, 3, cp)
         == if IsContinuation(b[at]) && IsContinuation(b[at + 1]) && IsContinuation(b[at + 2])
            then Some(((cp * 64 + (b[at] - 0x80)) * 64 + (b[at + 1] - 0x80)) * 64 + (b[at + 2] - 0x80)) else None
  {
    if IsContinuation(b[at]) { ContinueTwo(b, at + 1, cp * 64 + (b[at] - 0x80)); }
  }

  // What is encoded is decoded, whatever follows.
  lemma DecodeOfEncode(cp: nat, rest: seq<Byte>)
    requires cp != 0 && IsScalar(cp)
    ensures Encode(cp) != [] && DecodeOne(Encode(cp) + rest) == Some((cp, |Encode(cp)|))
  {
    hide Continue;
    var b := Encode(cp) + rest;
    if cp < 0x80 {
    } else if cp < 0x800 {
      ContinueOne(b, 1, b[0] - 0xc0);
    } else if cp < 0x10000 {
      ContinueTwo(b, 1, b[0] - 0xe0);
      assert cp / 4096 * 64 + cp / 64 % 64 == cp / 64;
    } else {
      ContinueThree(b, 1, b[0] - 0xf0);
      assert cp / 262144 * 64 + cp / 4096 % 64 == cp / 4096;
      assert cp / 4096 * 64 + cp / 64 % 64 == cp / 64;
    }
  }

  lemma TwoBytes(a: nat, b: nat)
    requires a < 32 && b < 64
    ensures (a * 64 + b) / 64 == a && (a * 64 + b) % 64 == b
  {
  }

  lemma ThreeBytes(a: nat, b: nat, c: nat)
    requires a < 16 && b < 64 && c < 64
    ensures var cp := (a * 64 + b) * 64 + c; cp / 4096 == a && cp / 64 % 64 == b && cp % 64 == c
  {
    var cp := (a * 64 + b) * 64 + c;
    assert cp / 64 == a * 64 + b;
  }

  lemma FourBytes(a: nat, b: nat, c: nat, d: nat)
    requires a < 8 && b < 64 && c < 64 && d < 64
    ensures var cp := ((a * 64 + b) * 64 + c) * 64 + d;
            cp / 262144 == a && cp / 4096 % 64 == b && cp / 64 % 64 == c && cp % 64 == d
  {
    var cp := ((a * 64 + b) * 64 + c) * 64 + d;
    assert cp / 64 == (a * 64 + b) * 64 + c;
    assert cp / 4096 == a * 64 + b;
  }

  // What is decoded is the encoding of a non-zero scalar: overlong forms, surrogates and numbers
  // past U+10FFFF never get through.
  lemma EncodeOfDecode(b: seq<Byte>)
    requires b != [] && DecodeOne(b).Some?
    ensures var (cp, n) := DecodeOne(b).value;
            cp != 0 && IsScalar(cp) && b[..n] == Encode(cp)
  {
    hide Continue;
    var n := DecodeOne(b).value.1;
    if n == 2 {
      ContinueOne(b, 1, b[0] - 0xc0);
      TwoBytes(b[0] - 0xc0, b[1] - 0x80);
    } else if n == 3 {
      ContinueTwo(b, 1, b[0] - 0xe0);
      ThreeBytes(b[0] - 0xe0, b[1] - 0x80, b[2] - 0x80);
    } else if n == 4 {
      ContinueThree(b, 1, b[0] - 0xf0);
      FourBytes(b[0] - 0xf0, b[1] - 0x80, b[2] - 0x80, b[3] - 0x80);
    }
  }

  // ---- whole strings ---------------------------------------------------------------------------------

  lemma {:induction false} DecodeUndoesEncode(cps: seq<nat>)
    requires IsText(cps)
    ensures Decode(EncodeAll(cps)) == Some(cps)
  {
    hide DecodeOne, Encode;
    if cps != [] {
      var rest := EncodeAll(cps[1..]);
      DecodeOfEncode(cps[0], rest);
      DecodeUndoesEncode(cps[1..]);
      assert EncodeAll(cps) == Encode(cps[0]) + rest && [cps[0]] + cps[1..] == cps;
      assert (Encode(cps[0]) + rest)[|Encode(cps[0])|..] == rest;
    }
  }

  lemma {:induction false} EncodeUndoesDecode(b: seq<Byte>)
    requires Decode(b).Some?
    ensures IsText(Decode(b).value) && EncodeAll(Decode(b).value) == b
    decreases |b|
  {
    hide DecodeOne, Encode, IsScalar;
    if b != [] {
      var (cp, n) := DecodeOne(b).value;
      EncodeOfDecode(b);
      EncodeUndoesDecode(b[n..]);
      assert Decode(b).value[1..] == Decode(b[n..]).value;
      assert b == b[..n] + b[n..];
    }
  }

  // These bytes are the encoding of some non-zero scalars.
  ghost predicate IsEncoding(b: seq<Byte>) {
    exists cps: seq<nat> :: IsText(cps) && EncodeAll(cps) == b
  }

  lemma DecodesIffEncoding(b: seq<Byte>)
    ensures Decode(b).Some? <==> IsEncoding(b)
  {
    hide Decode, EncodeAll, IsText;
    if Decode(b).Some? { EncodeUndoesDecode(b); }
    if IsEncoding(b) {
      var cps: seq<nat> :| IsText(cps) && EncodeAll(cps) == b;
      DecodeUndoesEncode(cps);
    }
  }

  lemma DecodeStep(b: seq<Byte>, i: nat)
    requires i < |b|
    ensures Decode(b[i..]).Some? <==>
              DecodeOne(b[i..]).Some? && i + DecodeOne(b[i..]).value.1 <= |b|
                  && Decode(b[i + DecodeOne(b[i..]).value.1..]).Some?
  {
    hide DecodeOne;
    if DecodeOne(b[i..]).Some? { assert b[i..][DecodeOne(b[i..]).value.1..] == b[i + DecodeOne(b[i..]).value.1..]; }
  }

  lemma ContinueShifted(b: seq<Byte>, i: nat, at: nat, need: nat, cp: nat)
    requires i + at + need <= |b|
    ensures Continue(b[i..], at, need, cp) == Continue(b, i + at, need, cp)
    decreases need
  {
    if need > 0 && IsContinuation(b[i + at]) { ContinueShifted(b, i, at + 1, need - 1, cp * 64 + (b[i + at] - 0x80)); }
  }

  // The byte-index loop with its accumulated code point.
  method IsDiffableText(b: seq<Byte>) returns (r: bool)
    ensures r <==> IsEncoding(b)
  {
    hide Decode, Continue, IsEncoding;
    DecodesIffEncoding(b);
    DecodesNothing();
    assert b[0..] == b && b[|b|..] == [];
    var i := 0;
    while i < |b|
      invariant 0 <= i <= |b| && (Decode(b[i..]).Some? <==> Decode(b).Some?)
    {
      DecodeStep(b, i);
      var c := b[i];
      if c == 0 { return false; }
      if c < 0x80 {
        i := i + 1;
        continue;
      }
      var need, min, cp: nat;
      if 0xc2 <= c <= 0xdf { need, min, cp := 1, 0x80, c - 0xc0; }
      else if 0xe0 <= c <= 0xef { need, min, cp := 2, 0x800, c - 0xe0; }
      else if 0xf0 <= c <= 0xf4 { need, min, cp := 3, 0x10000, c - 0xf0; }
      else { return false; }
      if i + need >= |b| { return false; }
      ContinueShifted(b, i, 1, need, cp);
      ghost var bits := cp;
      var k := 1;
      while k <= need
        invariant 1 <= k <= need + 1 && i + need < |b|
        invariant Continue(b, i + k, need + 1 - k, cp) == Continue(b, i + 1, need, bits)
      {
        ContinueMoves(b, i + k, need + 1 - k, cp);
        var cc := b[i + k];
        if !(0x80 <= cc <= 0xbf) { return false; }
        cp := cp * 64 + (cc - 0x80);
        k := k + 1;
      }
      ContinueStops(b, i + k, cp);
      if cp < min || cp > 0x10ffff || 0xd800 <= cp <= 0xdfff { return false; }
      i := i + need + 1;
    }
    r := true;
  }

  lemma DecodesNothing()
    ensures Decode([]) == Some([])
  {
  }

  lemma ContinueMoves(b: seq<Byte>, at: nat, need: nat, cp: nat)
    requires at + need <= |b| && need > 0
    ensures Continue(b, at, need, cp)
         == if IsContinuation(b[at]) then Continue(b, at + 1, need - 1, cp * 64 + (b[at] - 0x80)) else None
  {
  }

  lemma ContinueStops(b: seq<Byte>, at: nat, cp: nat)
    requires at <= |b|
    ensures Continue(b, at, 0, cp) == Some(cp)
  {
  }
}
