/** UTF-8: which bytes are text, and what text a string is. */
module Utf8 {
  import opened Text

  newtype byte = b: int | 0 <= b < 256

  /** Well-formed UTF-8, Table 3-7 of The Unicode Standard. */
  predicate ValidUtf8(s: seq<byte>)
    decreases |s|
  {
    if s == [] then true
    else if s[0] < 0x80 then ValidUtf8(s[1..])
    else if 0xc2 <= s[0] <= 0xdf then |s| >= 2 && IsTail(s[1]) && ValidUtf8(s[2..])
    else if 0xe0 <= s[0] <= 0xef then
      && |s| >= 3 && IsTail(s[1]) && IsTail(s[2])
      && (s[0] == 0xe0 ==> s[1] >= 0xa0) && (s[0] == 0xed ==> s[1] <= 0x9f)
      && ValidUtf8(s[3..])
    else if 0xf0 <= s[0] <= 0xf4 then
      && |s| >= 4 && IsTail(s[1]) && IsTail(s[2]) && IsTail(s[3])
      && (s[0] == 0xf0 ==> s[1] >= 0x90) && (s[0] == 0xf4 ==> s[1] <= 0x8f)
      && ValidUtf8(s[4..])
    else false
  }

  predicate IsTail(b: byte) {
    0x80 <= b <= 0xbf
  }

  predicate IsAscii(s: seq<byte>) {
    forall b :: b in s ==> b < 0x80
  }

  lemma {:induction false} AsciiIsValid(s: seq<byte>)
    requires IsAscii(s)
    ensures ValidUtf8(s)
    decreases |s|
  {
    if s != [] {
      assert s[0] in s;
      assert forall b :: b in s[1..] ==> b in s;
      AsciiIsValid(s[1..]);
    }
  }

  /** How many bytes the character that starts with `b` has. */
  function Width(b: byte): (n: nat)
    ensures 1 <= n <= 4
  {
    if b < 0x80 then 1 else if b <= 0xdf then 2 else if b <= 0xef then 3 else 4
  }

  lemma FirstCharacter(s: seq<byte>)
    requires ValidUtf8(s) && s != []
    ensures !IsTail(s[0]) && Width(s[0]) <= |s| && ValidUtf8(s[Width(s[0])..])
    ensures forall j :: 1 <= j < Width(s[0]) ==> IsTail(s[j])
  {
  }

  /** Whether `s` starts with a character is decided by that character's bytes. */
  lemma SameFirstCharacter(s: seq<byte>, t: seq<byte>)
    requires ValidUtf8(s) && s != []
    requires |t| >= Width(s[0]) && t[..Width(s[0])] == s[..Width(s[0])]
    ensures ValidUtf8(t) <==> ValidUtf8(t[Width(s[0])..])
  {
    var n := Width(s[0]);
    FirstCharacter(s);
    assert forall j :: 0 <= j < n ==> t[j] == t[..n][j] == s[..n][j] == s[j];
  }

  lemma ShortIsInvalid(t: seq<byte>)
    requires t != [] && |t| < Width(t[0])
    ensures !ValidUtf8(t)
  {
  }

  /** A prefix of well-formed text is well-formed exactly if it does not end inside a character. */
  lemma {:induction false} PrefixIsValid(s: seq<byte>, k: nat)
    requires ValidUtf8(s) && k <= |s|
    ensures ValidUtf8(s[..k]) <==> k == |s| || !IsTail(s[k])
    decreases |s|
  {
    if s != [] {
      var n := Width(s[0]);
      FirstCharacter(s);
      if k >= n {
        PrefixIsValid(s[n..], k - n);
        assert s[..k][..n] == s[..n] && s[..k][n..] == s[n..][..k - n];
        SameFirstCharacter(s, s[..k]);
      } else if k > 0 {
        ShortIsInvalid(s[..k]);
      }
    }
  }

  /** What follows such a prefix is well-formed as well. */
  lemma {:induction false} SuffixIsValid(s: seq<byte>, k: nat)
    requires ValidUtf8(s) && k <= |s| && (k == |s| || !IsTail(s[k]))
    ensures ValidUtf8(s[k..])
    decreases |s|
  {
    if 0 < k < |s| {
      var n := Width(s[0]);
      FirstCharacter(s);
      SuffixIsValid(s[n..], k - n);
      assert s[n..][k - n..] == s[k..];
    }
  }

  /** What follows a one-byte character starts a character. */
  lemma {:induction false} AsciiEndsCharacter(s: seq<byte>, i: nat)
    requires ValidUtf8(s) && i + 1 < |s| && s[i] < 0x80
    ensures !IsTail(s[i + 1])
    decreases |s|
  {
    var n := Width(s[0]);
    FirstCharacter(s);
    if i >= n {
      AsciiEndsCharacter(s[n..], i - n);
    } else {
      FirstCharacter(s[1..]);
    }
  }

  lemma {:induction false} ValidAppends(s: seq<byte>, rest: seq<byte>)
    requires ValidUtf8(s) && ValidUtf8(rest)
    ensures ValidUtf8(s + rest)
    decreases |s|
  {
    if s == [] {
      assert s + rest == rest;
    } else {
      var n := Width(s[0]);
      FirstCharacter(s);
      ValidAppends(s[n..], rest);
      DropInside(s, rest, n);
      assert (s + rest)[..n] == s[..n];
      SameFirstCharacter(s, s + rest);
    }
  }

  // ---------------------------------------------------------------------------
  // Strings and their bytes
  // ---------------------------------------------------------------------------

  /** The bytes of one Unicode scalar value. */
  function EncodeChar(c: char): (bytes: seq<byte>)
    ensures bytes != []
  {
    var u := c as int;
    if u < 0x80 then [u as byte]
    else if u < 0x800 then [(0xc0 + u / 64) as byte, (0x80 + u % 64) as byte]
    else if u < 0x1_0000 then
      [(0xe0 + u / 4096) as byte, (0x80 + u / 64 % 64) as byte, (0x80 + u % 64) as byte]
    else
      [(0xf0 + u / 262144) as byte, (0x80 + u / 4096 % 64) as byte, (0x80 + u / 64 % 64) as byte,
       (0x80 + u % 64) as byte]
  }

  /** The bytes of a string. */
  function Encode(t: string): seq<byte> {
    if t == [] then [] else EncodeChar(t[0]) + Encode(t[1..])
  }

  lemma EncodedCharIsValid(c: char)
    ensures ValidUtf8(EncodeChar(c)) && |EncodeChar(c)| == Width(EncodeChar(c)[0])
  {
    var bytes := EncodeChar(c);
    assert bytes[|bytes|..] == [];
  }

  lemma {:induction false} EncodedIsValid(t: string)
    ensures ValidUtf8(Encode(t))
    decreases |t|
  {
    if t != [] {
      EncodedCharIsValid(t[0]);
      EncodedIsValid(t[1..]);
      ValidAppends(EncodeChar(t[0]), Encode(t[1..]));
    }
  }

  lemma TwoBytes(a: int, b: int) returns (u: int)
    requires 0xc2 <= a <= 0xdf && 0x80 <= b <= 0xbf
    ensures 0x80 <= u < 0x800 && 0xc0 + u / 64 == a && 0x80 + u % 64 == b
  {
    u := (a - 0xc0) * 64 + (b - 0x80);
  }

  lemma ThreeBytes(a: int, b: int, c: int) returns (u: int)
    requires 0xe0 <= a <= 0xef && 0x80 <= b <= 0xbf && 0x80 <= c <= 0xbf
    requires (a == 0xe0 ==> b >= 0xa0) && (a == 0xed ==> b <= 0x9f)
    ensures 0x800 <= u < 0xd800 || 0xe000 <= u < 0x1_0000
    ensures 0xe0 + u / 4096 == a && 0x80 + u / 64 % 64 == b && 0x80 + u % 64 == c
  {
    u := (a - 0xe0) * 4096 + (b - 0x80) * 64 + (c - 0x80);
  }

  /** The digits of a number of four digits to the base 64. */
  lemma Digits(a: nat, b: nat, c: nat, d: nat)
    requires b < 64 && c < 64 && d < 64
    ensures var u := a * 262144 + b * 4096 + c * 64 + d;
            && u / 262144 == a && u / 4096 == a * 64 + b && u / 64 == a * 4096 + b * 64 + c && u % 64 == d
  {
  }

  lemma LastDigit(a: nat, b: nat)
    requires b < 64
    ensures (a * 64 + b) % 64 == b
  {
  }

  lemma FourBytes(a: int, b: int, c: int, d: int) returns (u: int)
    requires 0xf0 <= a <= 0xf4 && 0x80 <= b <= 0xbf && 0x80 <= c <= 0xbf && 0x80 <= d <= 0xbf
    requires (a == 0xf0 ==> b >= 0x90) && (a == 0xf4 ==> b <= 0x8f)
    ensures 0x1_0000 <= u < 0x11_0000
    ensures 0xf0 + u / 262144 == a && 0x80 + u / 4096 % 64 == b && 0x80 + u / 64 % 64 == c && 0x80 + u % 64 == d
  {
    var a', b', c', d' := a - 0xf0, b - 0x80, c - 0x80, d - 0x80;
    u := a' * 262144 + b' * 4096 + c' * 64 + d';
    Digits(a', b', c', d');
    LastDigit(a', b');
    LastDigit(a' * 64 + b', c');
  }

  /** The scalar value that starts well-formed text. */
  lemma FirstCharOf(s: seq<byte>) returns (c: char)
    requires ValidUtf8(s) && s != []
    ensures Width(s[0]) <= |s| && EncodeChar(c) == s[..Width(s[0])]
  {
    FirstCharacter(s);
    var n := Width(s[0]);
    var u: int;
    if n == 1 {
      u := s[0] as int;
    } else if n == 2 {
      u := TwoBytes(s[0] as int, s[1] as int);
    } else if n == 3 {
      u := ThreeBytes(s[0] as int, s[1] as int, s[2] as int);
    } else {
      u := FourBytes(s[0] as int, s[1] as int, s[2] as int, s[3] as int);
    }
    c := u as char;
  }

  lemma {:induction false} ValidIsEncoded(s: seq<byte>) returns (t: string)
    requires ValidUtf8(s)
    ensures Encode(t) == s
    decreases |s|
  {
    if s == [] {
      t := [];
    } else {
      var n := Width(s[0]);
      var c := FirstCharOf(s);
      FirstCharacter(s);
      var rest := ValidIsEncoded(s[n..]);
      t := [c] + rest;
      assert t[1..] == rest && s == s[..n] + s[n..];
    }
  }

  /** Bytes are text exactly if they are the encoding of some string of Unicode scalar values. */
  lemma ValidExactly(s: seq<byte>)
    ensures ValidUtf8(s) <==> exists t: string :: Encode(t) == s
  {
    if ValidUtf8(s) {
      var t := ValidIsEncoded(s);
    }
    if t: string :| Encode(t) == s {
      EncodedIsValid(t);
    }
  }
}
