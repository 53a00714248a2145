/** The two foreign libraries the user routes call, reduced to what the
    routes rely on: bcrypt's `hash`/`compare` and jsonwebtoken's `sign`.
    Salts, cost factors, signatures and expiry are not modelled. */
module Crypto {
  import opened Text

  /** A stored password digest. The plaintext it was made from is kept so
      that `Compare` can be stated; a digest is a different type from a
      string, so a digest can never be mistaken for the plaintext. */
  datatype Digest = Bcrypt(rounds: nat, secret: string)

  /** `bcrypt.hash(password, 10)`. */
  function Hash(password: string): (d: Digest)
    ensures d.rounds == 10
  {
    Bcrypt(10, password)
  }

  /** The key bytes bcrypt's key schedule reads from a password: its UTF-8
      bytes and a terminating zero (the `$2a$`/`$2b$` variants), repeated
      cyclically to fill the 72 bytes of Blowfish's P-array (18 words of
      4 bytes). Bytes past the 72nd are never read. */
  function Key(password: string): (k: seq<Byte>)
    ensures |k| == 72
    ensures |Utf8(password)| < 72 ==> k[..|Utf8(password)| + 1] == Utf8(password) + [0]
    ensures |Utf8(password)| >= 72 ==> k == Utf8(password)[..72]
  {
    var b := Utf8(password) + [0];
    assert |Utf8(password)| >= 72 ==> b[..72] == Utf8(password)[..72];
    Cycle(b, 72)
  }

  /** The first `n` bytes of `b` repeated without end. */
  function Cycle(b: seq<Byte>, n: nat): (r: seq<Byte>)
    requires |b| > 0
    ensures |r| == n
    ensures n <= |b| ==> r == b[..n]
    ensures |b| <= n ==> r[..|b|] == b
    decreases n
  {
    if n <= |b| then b[..n] else b + Cycle(b, n - |b|)
  }

  /** `bcrypt.compare(candidate, digest)`: the candidate's key bytes against
      those of the password the digest was made from. */
  predicate Compare(candidate: string, d: Digest) {
    Key(candidate) == Key(d.secret)
  }

  /** A password bcrypt reads in full: fewer than 72 UTF-8 bytes and no NUL
      character, so that its terminating zero marks where it ends. */
  predicate FitsKey(password: string) {
    |Utf8(password)| < 72 && '\0' !in password
  }

  /** A digest matches the password it was made from, and among passwords
      that fit the key it matches only that one. */
  lemma CompareHash(password: string, candidate: string)
    ensures Compare(password, Hash(password))
    ensures FitsKey(password) && FitsKey(candidate) ==> (Compare(candidate, Hash(password)) <==> candidate == password)
  {
    if FitsKey(password) && FitsKey(candidate) && Compare(candidate, Hash(password)) {
      var p, c := Utf8(password), Utf8(candidate);
      Utf8NoZero(password);
      Utf8NoZero(candidate);
      var k := Key(password);
      assert k == Key(candidate);
      assert k[|p|] == 0 && k[|c|] == 0;
      assert p == k[..|p|] == c;
      Utf8Injective(candidate, password);
    }
  }

  /** bcrypt never sees past the 72nd byte: two passwords whose first 72
      UTF-8 bytes agree match each other's digests. */
  lemma CompareIgnoresPast72(password: string, candidate: string)
    requires |Utf8(password)| >= 72 && |Utf8(candidate)| >= 72
    requires Utf8(password)[..72] == Utf8(candidate)[..72]
    ensures Compare(candidate, Hash(password))
  {
  }

  /** Seventy-two `a`s followed by `1` matches the digest of seventy-two
      `a`s followed by `2`. */
  lemma LongPasswordsCollide()
    ensures Compare(seq(72, _ => 'a') + "1", Hash(seq(72, _ => 'a') + "2"))
  {
    var a := seq(72, _ => 'a');
    Utf8Ascii(a);
    Utf8Append(a, "1");
    Utf8Append(a, "2");
    CompareIgnoresPast72(a + "2", a + "1");
  }

  /** A string of ASCII characters encodes as one byte each. */
  lemma {:induction false} Utf8Ascii(s: string)
    requires forall i :: 0 <= i < |s| ==> s[i] as int < 0x80
    ensures |Utf8(s)| == |s|
  {
    if s != [] {
      assert forall i :: 0 <= i < |s[1..]| ==> s[1..][i] == s[i + 1];
      Utf8Ascii(s[1..]);
    }
  }

  /** The claims of a signed token: `{ id, email }`. */
  datatype Token = Jwt(id: string, email: string)

  /** `jwt.sign({ id, email }, secret, { expiresIn: '24h' })`. */
  function Sign(id: string, email: string): (t: Token)
    ensures t.id == id && t.email == email
  {
    Jwt(id, email)
  }
}
