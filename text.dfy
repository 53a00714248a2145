/** String helpers used by validation and by client-side search:
    `toLowerCase`, `includes`, and the shape tests behind the schema
    library's `uuid()` and `email()`. */
module Text {

  /** ASCII lowercasing of one character (Unicode case mapping is not modelled). */
  function LowerChar(c: char): char {
    if 'A' <= c <= 'Z' then (c as int + 32) as char else c
  }

  /** `s.toLowerCase()`, character by character. */
  function Lower(s: string): (r: string)
    ensures |r| == |s|
    ensures forall i :: 0 <= i < |s| ==> r[i] == LowerChar(s[i])
  {
    seq(|s|, i requires 0 <= i < |s| => LowerChar(s[i]))
  }

  /** `s.startsWith(prefix)`. */
  predicate IsPrefix(prefix: string, s: string) {
    |prefix| <= |s| && s[..|prefix|] == prefix
  }

  /** `s.includes(sub)`: some suffix of `s` starts with `sub`. */
  predicate Contains(s: string, sub: string)
    decreases |s|
  {
    IsPrefix(sub, s) || (|s| > 0 && Contains(s[1..], sub))
  }

  /** `sub` occurs in `s` starting at offset `i`. */
  predicate OccursAt(s: string, sub: string, i: int) {
    0 <= i <= |s| - |sub| && s[i..i + |sub|] == sub
  }

  /** `includes` agrees with the textbook definition: `sub` occurs at some offset. */
  lemma {:induction false} ContainsIffOccurs(s: string, sub: string)
    ensures Contains(s, sub) <==> exists i :: OccursAt(s, sub, i)
    decreases |s|
  {
    if IsPrefix(sub, s) {
      assert OccursAt(s, sub, 0);
    } else if |s| > 0 {
      ContainsIffOccurs(s[1..], sub);
      if Contains(s[1..], sub) {
        var i :| OccursAt(s[1..], sub, i);
        assert s[1..][i..i + |sub|] == s[i + 1..i + 1 + |sub|];
        assert OccursAt(s, sub, i + 1);
      }
      if exists i :: OccursAt(s, sub, i) {
        var i :| OccursAt(s, sub, i) && i != 0;
        assert s[1..][i - 1..i - 1 + |sub|] == s[i..i + |sub|];
        assert OccursAt(s[1..], sub, i - 1);
      }
    }
  }

  /** The empty query is contained in every string, which is why an empty
      search box filters nothing out. */
  lemma ContainsEmpty(s: string)
    ensures Contains(s, "")
  {
    assert IsPrefix("", s);
  }

  /** A contained string is never longer than its container. */
  lemma {:induction false} ContainsShorter(s: string, sub: string)
    requires Contains(s, sub)
    ensures |sub| <= |s|
    decreases |s|
  {
    if !IsPrefix(sub, s) {
      ContainsShorter(s[1..], sub);
    }
  }

  predicate IsHexDigit(c: char) {
    '0' <= c <= '9' || 'a' <= c <= 'f' || 'A' <= c <= 'F'
  }

  /** Positions of the four dashes of the 8-4-4-4-12 layout. */
  predicate IsDashPosition(i: int) {
    i == 8 || i == 13 || i == 18 || i == 23
  }

  /** The schema library's `uuid()` test, modelled as the 8-4-4-4-12
      hexadecimal layout with dashes between the groups. */
  predicate IsUuid(s: string) {
    |s| == 36 &&
    forall i :: 0 <= i < |s| ==> if IsDashPosition(i) then s[i] == '-' else IsHexDigit(s[i])
  }

  /** The schema library's `email()` test, modelled as: exactly one `@`,
      a non-empty local part, and a domain holding an inner `.`. */
  predicate IsEmail(s: string) {
    exists at :: 0 < at < |s| - 1 && s[at] == '@' && IsEmailAt(s, at)
  }

  /** Shape of `s` around an `@` found at `at`. */
  predicate IsEmailAt(s: string, at: int)
    requires 0 < at < |s| - 1
  {
    && (forall i :: 0 <= i < |s| && i != at ==> s[i] != '@')
    && (exists d :: at + 1 < d < |s| - 1 && s[d] == '.')
  }

  lemma EmailHasOneAt(s: string)
    requires IsEmail(s)
    ensures exists at :: 0 <= at < |s| && s[at] == '@'
    ensures forall i, j :: 0 <= i < j < |s| && s[i] == '@' ==> s[j] != '@'
  {
  }

  /** JavaScript's `s.length`: the number of UTF-16 code units, which is
      two for a character above U+FFFF (a surrogate pair) and one otherwise.
      This is the length the schema library's `min(n)` compares. */
  function Utf16Length(s: string): (n: nat)
    ensures |s| <= n <= 2 * |s|
  {
    if s == [] then 0 else (if s[0] as int >= 0x1_0000 then 2 else 1) + Utf16Length(s[1..])
  }

  /** The UTF-16 length is the character count exactly when every character
      lies in the Basic Multilingual Plane. */
  lemma {:induction false} Utf16LengthBmp(s: string)
    ensures Utf16Length(s) == |s| <==> forall i :: 0 <= i < |s| ==> s[i] as int < 0x1_0000
  {
    if s != [] {
      Utf16LengthBmp(s[1..]);
      assert forall i :: 1 <= i < |s| ==> s[i] == s[1..][i - 1];
    }
  }

  /** A single character above U+FFFF, such as an emoji, already has length 2. */
  lemma Utf16LengthEmoji()
    ensures |"\U{1F600}"| == 1 && Utf16Length("\U{1F600}") == 2
  {
  }

  /** An octet. */
  newtype Byte = b: int | 0 <= b < 256

  /** The UTF-8 encoding of one Unicode scalar value. */
  function Utf8Char(c: char): (b: seq<Byte>)
    ensures 1 <= |b| <= 4
  {
    var n := c as int;
    if n < 0x80 then [n as Byte]
    else if n < 0x800 then [(0xC0 + n / 64) as Byte, (0x80 + n % 64) as Byte]
    else if n < 0x1_0000 then [(0xE0 + n / 4096) as Byte, (0x80 + n / 64 % 64) as Byte, (0x80 + n % 64) as Byte]
    else [(0xF0 + n / 0x4_0000) as Byte, (0x80 + n / 4096 % 64) as Byte, (0x80 + n / 64 % 64) as Byte, (0x80 + n % 64) as Byte]
  }

  /** The UTF-8 encoding of a string, character by character. */
  function Utf8(s: string): (b: seq<Byte>)
    ensures |s| <= |b| <= 4 * |s|
  {
    if s == [] then [] else Utf8Char(s[0]) + Utf8(s[1..])
  }

  /** The length of an encoded character, read from its first byte. */
  function LeadLength(lead: Byte): nat {
    if lead < 0x80 then 1 else if lead < 0xE0 then 2 else if lead < 0xF0 then 3 else 4
  }

  /** The scalar value an encoded character of one to four bytes stands for. */
  function DecodeChar(b: seq<Byte>): int
    requires 1 <= |b| <= 4
  {
    if |b| == 1 then b[0] as int
    else if |b| == 2 then (b[0] as int - 0xC0) * 64 + (b[1] as int - 0x80)
    else if |b| == 3 then (b[0] as int - 0xE0) * 4096 + (b[1] as int - 0x80) * 64 + (b[2] as int - 0x80)
    else (b[0] as int - 0xF0) * 0x4_0000 + (b[1] as int - 0x80) * 4096 + (b[2] as int - 0x80) * 64 + (b[3] as int - 0x80)
  }

  /** Every character's encoding announces its own length in its first byte
      and decodes back to the character. */
  lemma Utf8CharDecodes(c: char)
    ensures |Utf8Char(c)| == LeadLength(Utf8Char(c)[0])
    ensures DecodeChar(Utf8Char(c)) == c as int
  {
    var n := c as int;
    if n >= 0x1_0000 {
      assert n == n / 0x4_0000 * 0x4_0000 + n / 4096 % 64 * 4096 + n / 64 % 64 * 64 + n % 64;
    } else if n >= 0x800 {
      assert n == n / 4096 * 4096 + n / 64 % 64 * 64 + n % 64;
    }
  }

  /** The encoding of a concatenation is the concatenation of the encodings. */
  lemma {:induction false} Utf8Append(s: string, t: string)
    ensures Utf8(s + t) == Utf8(s) + Utf8(t)
  {
    if s == [] {
      assert s + t == t;
    } else {
      assert (s + t)[0] == s[0] && (s + t)[1..] == s[1..] + t;
      Utf8Append(s[1..], t);
    }
  }

  /** Distinct strings have distinct UTF-8 encodings. */
  lemma {:induction false} Utf8Injective(s: string, t: string)
    requires Utf8(s) == Utf8(t)
    ensures s == t
  {
    if s != [] {
      var a, b := Utf8Char(s[0]), Utf8Char(t[0]);
      Utf8CharDecodes(s[0]);
      Utf8CharDecodes(t[0]);
      assert a[0] == Utf8(s)[0] == b[0];
      assert a == Utf8(s)[..|a|] == b;
      assert Utf8(s[1..]) == Utf8(s)[|a|..] == Utf8(t[1..]);
      Utf8Injective(s[1..], t[1..]);
    }
  }

  /** A string without the NUL character encodes without a zero byte: every
      byte of a multi-byte character is at least 0x80. */
  lemma {:induction false} Utf8NoZero(s: string)
    requires '\0' !in s
    ensures 0 !in Utf8(s)
  {
    if s != [] {
      assert s[0] in s;
      assert '\0' !in s[1..] by {
        forall i | 0 <= i < |s[1..]| ensures s[1..][i] != '\0' {
          assert s[1..][i] == s[i + 1];
        }
      }
      Utf8NoZero(s[1..]);
    }
  }
}
