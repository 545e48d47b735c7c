/** The byte strings that decode("utf-8") accepts: section 4 of RFC 3629, with the ranges of its
    syntax for two, three and four bytes, so without overlong forms, surrogates and code points
    beyond U+10FFFF. */
module Utf8 {
  import opened ByteStrings

  predicate Tail(b: Bytes, i: nat) { i < |b| && 0x80 <= b[i] <= 0xbf }

  /** The length of the first character, or 0 when no character begins b. */
  function FirstLength(b: Bytes): (n: nat)
    requires b != []
    ensures n <= |b| && n <= 4
  {
    var c := b[0];
    if c <= 0x7f then 1
    else if 0xc2 <= c <= 0xdf && Tail(b, 1) then 2
    else if 0xe0 <= c <= 0xef && Tail(b, 1) && Tail(b, 2)
            && (c == 0xe0 ==> 0xa0 <= b[1]) && (c == 0xed ==> b[1] <= 0x9f) then 3
    else if 0xf0 <= c <= 0xf4 && Tail(b, 1) && Tail(b, 2) && Tail(b, 3)
            && (c == 0xf0 ==> 0x90 <= b[1]) && (c == 0xf4 ==> b[1] <= 0x8f) then 4
    else 0
  }

  predicate Decodes(b: Bytes)
    decreases |b|
  {
    b == [] || (FirstLength(b) > 0 && Decodes(b[FirstLength(b)..]))
  }

  /** Text in ASCII decodes. */
  lemma {:induction false} AsciiDecodes(b: Bytes)
    requires forall i :: 0 <= i < |b| ==> b[i] <= 0x7f
    ensures Decodes(b)
    decreases |b|
  {
    if b != [] {
      AsciiDecodes(b[1..]);
    }
  }

  /** Texts that decode may be joined. */
  lemma {:induction false} JoinDecodes(a: Bytes, b: Bytes)
    requires Decodes(a) && Decodes(b)
    ensures Decodes(a + b)
    decreases |a|
  {
    if a == [] {
      assert a + b == b;
    } else {
      var n := FirstLength(a);
      assert FirstLength(a + b) == n && (a + b)[n..] == a[n..] + b;
      JoinDecodes(a[n..], b);
    }
  }

  // ---------------------------------------------------------------- against the definition of the encoding

  /** A Unicode scalar value: any code point but a surrogate. */
  type Scalar = c: int | 0 <= c < 0xd800 || 0xe000 <= c < 0x11_0000

  /** The UTF-8 form of a character, section 3 of RFC 3629. */
  function Encoded(c: Scalar): (b: Bytes)
    ensures 1 <= |b| <= 4
  {
    if c < 0x80 then [c]
    else if c < 0x800 then [0xc0 + c / 0x40, 0x80 + c % 0x40]
    else if c < 0x1_0000 then [0xe0 + c / 0x1000, 0x80 + c / 0x40 % 0x40, 0x80 + c % 0x40]
    else [0xf0 + c / 0x4_0000, 0x80 + c / 0x1000 % 0x40, 0x80 + c / 0x40 % 0x40, 0x80 + c % 0x40]
  }

  function EncodedText(cs: seq<Scalar>): Bytes {
    if cs == [] then [] else Encoded(cs[0]) + EncodedText(cs[1..])
  }

  /** The form of a character is the first character of whatever it begins. */
  lemma EncodedBegins(c: Scalar, rest: Bytes)
    ensures FirstLength(Encoded(c) + rest) == |Encoded(c)|
  {
  }

  lemma TwoBytes(x: nat, y: nat)
    requires 2 <= x < 0x20 && y < 0x40
    ensures Encoded(x * 0x40 + y) == [0xc0 + x, 0x80 + y]
  {
  }

  lemma ThreeBytes(x: nat, y: nat, z: nat)
    requires x < 0x10 && y < 0x40 && z < 0x40 && (x == 0 ==> y >= 0x20) && (x == 0x0d ==> y < 0x20)
    ensures Encoded(x * 0x1000 + y * 0x40 + z) == [0xe0 + x, 0x80 + y, 0x80 + z]
  {
    var c := x * 0x1000 + y * 0x40 + z;
    assert c / 0x40 == x * 0x40 + y;
  }

  lemma FourBytes(x: nat, y: nat, z: nat, u: nat)
    requires x < 5 && y < 0x40 && z < 0x40 && u < 0x40 && (x == 0 ==> y >= 0x10) && (x == 4 ==> y < 0x10)
    ensures Encoded(x * 0x4_0000 + y * 0x1000 + z * 0x40 + u) == [0xf0 + x, 0x80 + y, 0x80 + z, 0x80 + u]
  {
    var c := x * 0x4_0000 + y * 0x1000 + z * 0x40 + u;
    assert c / 0x40 == x * 0x1000 + y * 0x40 + z;
    assert c / 0x1000 == x * 0x40 + y;
  }

  /** A first character is the form of some scalar value. */
  lemma FirstIsEncoded(b: Bytes) returns (c: Scalar)
    requires b != [] && FirstLength(b) > 0
    ensures b[..FirstLength(b)] == Encoded(c)
  {
    var n := FirstLength(b);
    var first: int := b[0];
    if n == 1 {
      c := first;
      return;
    }
    hide Encoded;
    var second: int := b[1] as int - 0x80;
    if n == 2 {
      TwoBytes(first - 0xc0, second);
      c := (first - 0xc0) * 0x40 + second;
    } else {
      var third: int := b[2] as int - 0x80;
      if n == 3 {
        ThreeBytes(first - 0xe0, second, third);
        c := (first - 0xe0) * 0x1000 + second * 0x40 + third;
      } else {
        var fourth: int := b[3] as int - 0x80;
        FourBytes(first - 0xf0, second, third, fourth);
        c := (first - 0xf0) * 0x4_0000 + second * 0x1000 + third * 0x40 + fourth;
      }
    }
  }

  lemma {:induction false} TextDecodes(cs: seq<Scalar>)
    ensures Decodes(EncodedText(cs))
  {
    if cs != [] {
      EncodedBegins(cs[0], EncodedText(cs[1..]));
      TextDecodes(cs[1..]);
      assert EncodedText(cs)[|Encoded(cs[0])|..] == EncodedText(cs[1..]);
    }
  }

  lemma {:induction false} DecodedText(b: Bytes) returns (cs: seq<Scalar>)
    requires Decodes(b)
    ensures EncodedText(cs) == b
    decreases |b|
  {
    cs := [];
    if b != [] {
      var c := FirstIsEncoded(b);
      var n := FirstLength(b);
      var rest := DecodedText(b[n..]);
      cs := [c] + rest;
      assert cs[1..] == rest && b == b[..n] + b[n..];
    }
  }

  /** A byte string decodes if and only if it is the UTF-8 form of some text. */
  lemma DecodesExactly(b: Bytes)
    ensures Decodes(b) <==> exists cs :: EncodedText(cs) == b
  {
    if Decodes(b) {
      var cs := DecodedText(b);
    }
    if cs :| EncodedText(cs) == b {
      TextDecodes(cs);
    }
  }
}
