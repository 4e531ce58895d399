/**
 * The password digest `simpleHash` (shared.js and 0.1/script.js): a rolling
 * hash over the UTF-16 code units of a string, kept in the signed 32-bit
 * range by `| 0` after every step.  The base-36 rendering `toString(36)` is
 * left out: it is injective, so the digest is modelled as the int32 value.
 */
module Digest {

  const Two32: int := 0x1_0000_0000
  const Two31: int := 0x8000_0000

  /** The values a JavaScript `| 0` can produce. */
  type int32 = x: int | -0x8000_0000 <= x < 0x8000_0000

  /** JavaScript's ToInt32: reduce modulo 2^32 into the signed range. */
  function ToInt32(x: int): (r: int32)
    ensures (x - r) % Two32 == 0
    ensures -Two31 <= x < Two31 ==> r == x
  {
    var m := x % Two32;
    if m < Two31 then m else m - Two32
  }

  /** Two integers congruent modulo 2^32 have the same ToInt32. */
  lemma ToInt32Congruent(x: int, y: int)
    requires (x - y) % Two32 == 0
    ensures ToInt32(x) == ToInt32(y)
  {
    var k := (x - y) / Two32;
    assert x == y + k * Two32;
    assert x % Two32 == y % Two32;
  }

  /** The UTF-16 code units of one character (a surrogate pair above U+FFFF). */
  function CodeUnits(c: char): (u: seq<int>)
    ensures 1 <= |u| <= 2
    ensures forall k :: 0 <= k < |u| ==> 0 <= u[k] < 0x1_0000
  {
    var v := c as int;
    if v < 0x1_0000 then [v]
    else [0xD800 + (v - 0x1_0000) / 0x400, 0xDC00 + (v - 0x1_0000) % 0x400]
  }

  /** The code units a JavaScript string holds: what `.length` counts and `charCodeAt` returns. */
  function Utf16(s: string): (u: seq<int>)
    ensures |s| <= |u| <= 2 * |s|
    ensures s != [] ==> u[0] == CodeUnits(s[0])[0]
    ensures forall k :: 0 <= k < |u| ==> 0 <= u[k] < 0x1_0000
  {
    if s == [] then [] else CodeUnits(s[0]) + Utf16(s[1..])
  }

  /** One step of the loop: `h = ((h << 5) - h + code) | 0`. */
  function Step(h: int32, code: int): int32
  {
    ToInt32(ToInt32(h * 32) - h + code)
  }

  /** The accumulator after the loop has consumed the code units `u`, starting from 0. */
  function HashUnits(u: seq<int>): int32
    decreases |u|
  {
    if u == [] then 0 else Step(HashUnits(u[..|u| - 1]), u[|u| - 1])
  }

  /** The digest `simpleHash(s)`, as the int32 that `toString(36)` renders. */
  function Hash(s: string): int32
  {
    HashUnits(Utf16(s))
  }

  /** The digest without wrap-around: the base-31 polynomial of the code units. */
  function Polynomial(u: seq<int>): int
    decreases |u|
  {
    if u == [] then 0 else 31 * Polynomial(u[..|u| - 1]) + u[|u| - 1]
  }

  /** A loop step multiplies by 31 and adds the code, modulo 2^32. */
  lemma StepIsMultiplyAdd(h: int32, code: int)
    ensures Step(h, code) == ToInt32(31 * h + code)
  {
    var s := ToInt32(h * 32);
    assert (h * 32 - s) % Two32 == 0;
    ToInt32Congruent(s - h + code, 31 * h + code);
  }

  /** Multiplying by 31 and adding a code preserves congruence modulo 2^32. */
  lemma MultiplyAddCongruent(a: int, b: int, c: int)
    requires (a - b) % Two32 == 0
    ensures ToInt32(31 * a + c) == ToInt32(31 * b + c)
  {
    var k := (a - b) / Two32;
    assert a == b + k * Two32;
    assert 31 * a + c == 31 * b + c + (31 * k) * Two32;
    ToInt32Congruent(31 * a + c, 31 * b + c);
  }

  /** The wrapping hash is the polynomial hash reduced to int32: wrapping at every step or only at the end agree. */
  lemma {:induction false} HashIsPolynomial(u: seq<int>)
    ensures HashUnits(u) == ToInt32(Polynomial(u))
    decreases |u|
  {
    if u != [] {
      var p, c := u[..|u| - 1], u[|u| - 1];
      HashIsPolynomial(p);
      StepIsMultiplyAdd(HashUnits(p), c);
      MultiplyAddCongruent(Polynomial(p), HashUnits(p), c);
    }
  }

  /** `simpleHash`: the loop over the code units, each step kept in the int32 range. */
  method SimpleHash(s: string) returns (h: int32)
    ensures h == Hash(s)
    ensures h == ToInt32(Polynomial(Utf16(s)))
  {
    var units := Utf16(s);
    h := 0;
    for i := 0 to |units|
      invariant h == HashUnits(units[..i])
    {
      assert units[..i + 1][..i] == units[..i];
      h := ToInt32(ToInt32(h * 32) - h + units[i]);
    }
    assert units[..|units|] == units;
    HashIsPolynomial(units);
  }

  /** Two code pairs with the same base-31 value extend equal polynomials to equal polynomials. */
  lemma AppendPair(x: seq<int>, y: seq<int>, a1: int, a2: int, b1: int, b2: int)
    requires Polynomial(x) == Polynomial(y) && 31 * a1 + a2 == 31 * b1 + b2
    ensures Polynomial(x + [a1, a2]) == Polynomial(y + [b1, b2])
  {
    PushPair(x, a1, a2);
    PushPair(y, b1, b2);
  }

  /** Appending two codes multiplies the polynomial by 31 twice. */
  lemma PushPair(x: seq<int>, a1: int, a2: int)
    ensures Polynomial(x + [a1, a2]) == 961 * Polynomial(x) + (31 * a1 + a2)
  {
    var x1, x2 := x + [a1], x + [a1, a2];
    assert x2[..|x2| - 1] == x1 && x2[|x2| - 1] == a2;
    assert x1[..|x1| - 1] == x && x1[|x1| - 1] == a1;
    assert Polynomial(x1) == 31 * Polynomial(x) + a1;
    assert Polynomial(x2) == 31 * Polynomial(x1) + a2;
  }

  /** A string without astral characters holds one code unit per character. */
  lemma {:induction false} Utf16OfBasic(s: string)
    requires forall k :: 0 <= k < |s| ==> (s[k] as int) < 0x1_0000
    ensures |Utf16(s)| == |s|
    ensures forall k :: 0 <= k < |s| ==> Utf16(s)[k] == s[k] as int
  {
    if s != [] {
      Utf16OfBasic(s[1..]);
    }
  }

  lemma CollisionUnits()
    ensures Utf16("AaAaAa") == [65, 97, 65, 97, 65, 97]
    ensures Utf16("BBBBBB") == [66, 66, 66, 66, 66, 66]
  {
    Utf16OfBasic("AaAaAa");
    Utf16OfBasic("BBBBBB");
  }

  lemma PolynomialCollision()
    ensures Polynomial([65, 97, 65, 97, 65, 97]) == Polynomial([66, 66, 66, 66, 66, 66])
  {
    var a2, b2 := [] + [65, 97], [] + [66, 66];
    AppendPair([], [], 65, 97, 66, 66);
    AppendPair(a2, b2, 65, 97, 66, 66);
    AppendPair(a2 + [65, 97], b2 + [66, 66], 65, 97, 66, 66);
    assert a2 + [65, 97] + [65, 97] == [65, 97, 65, 97, 65, 97];
    assert b2 + [66, 66] + [66, 66] == [66, 66, 66, 66, 66, 66];
  }

  /**
   * The digest is not injective: the passwords "AaAaAa" and "BBBBBB" share one,
   * since "Aa" and "BB" have the same base-31 value.
   */
  lemma DigestCollision()
    ensures "AaAaAa" != "BBBBBB" && Hash("AaAaAa") == Hash("BBBBBB")
  {
    CollisionUnits();
    PolynomialCollision();
    HashIsPolynomial([65, 97, 65, 97, 65, 97]);
    HashIsPolynomial([66, 66, 66, 66, 66, 66]);
  }
}
