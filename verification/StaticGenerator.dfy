/**
 The random password generator: URL-safe base64 (section 5 of RFC 4648) of a
 buffer of random bytes, cut to the wanted length.
 */
module StaticGenerator {
  import opened Prelude
  import opened Decimal
  import opened Provider
  import Clock

  const DEFAULT_LENGTH := 32

  type Byte = b: int | 0 <= b < 256
  type Sextet = v: int | 0 <= v < 64

  // ---------- the alphabet ----------

  function Letter(v: Sextet): char {
    if v < 26 then ('A' as int + v) as char
    else if v < 52 then ('a' as int + v - 26) as char
    else if v < 62 then ('0' as int + v - 52) as char
    else if v == 62 then '-' else '_'
  }

  predicate UrlSafe(c: char) {
    'A' <= c <= 'Z' || 'a' <= c <= 'z' || '0' <= c <= '9' || c == '-' || c == '_'
  }

  predicate UrlSafeText(s: string) {
    forall i :: 0 <= i < |s| ==> UrlSafe(s[i])
  }

  function Unletter(c: char): (v: Sextet)
    requires UrlSafe(c)
    ensures Letter(v) == c
  {
    if 'A' <= c <= 'Z' then c as int - 'A' as int
    else if 'a' <= c <= 'z' then c as int - 'a' as int + 26
    else if '0' <= c <= '9' then c as int - '0' as int + 52
    else if c == '-' then 62 else 63
  }

  lemma LetterIsUrlSafe(v: Sextet)
    ensures UrlSafe(Letter(v)) && Unletter(Letter(v)) == v && Letter(v) != '='
  {
  }

  const ALPHABET := "ABCDEFGHIJKLMNOPQRSTUVWXYZ" + "abcdefghijklmnopqrstuvwxyz" + "0123456789" + "-_"

  /** The letters are those of section 5 of RFC 4648, in its order. */
  lemma LettersAreInOrder(v: Sextet)
    ensures |ALPHABET| == 64 && Letter(v) == ALPHABET[v]
  {
    if v < 26 {
      assert ALPHABET[v] == "ABCDEFGHIJKLMNOPQRSTUVWXYZ"[v];
      UpperCase(v);
    } else if v < 52 {
      assert ALPHABET[v] == "abcdefghijklmnopqrstuvwxyz"[v - 26];
      LowerCase(v - 26);
    } else if v < 62 {
      assert ALPHABET[v] == "0123456789"[v - 52];
    } else {
      assert ALPHABET[v] == "-_"[v - 62];
    }
  }

  lemma UpperCase(v: int)
    requires 0 <= v < 26
    ensures "ABCDEFGHIJKLMNOPQRSTUVWXYZ"[v] as int == 'A' as int + v
  {
  }

  lemma LowerCase(v: int)
    requires 0 <= v < 26
    ensures "abcdefghijklmnopqrstuvwxyz"[v] as int == 'a' as int + v
  {
  }

  // ---------- the encoding ----------

  /** The four six-bit values of three bytes, and back. */
  function Sextets(b0: Byte, b1: Byte, b2: Byte): (v: (Sextet, Sextet, Sextet, Sextet)) {
    (b0 / 4, b0 % 4 * 16 + b1 / 16, b1 % 16 * 4 + b2 / 64, b2 % 64)
  }

  function Octets(v0: Sextet, v1: Sextet, v2: Sextet, v3: Sextet): (b: (Byte, Byte, Byte)) {
    (v0 * 4 + v1 / 16, v1 % 16 * 16 + v2 / 4, v2 % 4 * 64 + v3)
  }

  /** Packing a high and a low part and taking them apart again. */
  lemma Parts(hi: nat, lo: nat)
    ensures lo < 4 ==> (hi * 4 + lo) / 4 == hi && (hi * 4 + lo) % 4 == lo
    ensures lo < 16 ==> (hi * 16 + lo) / 16 == hi && (hi * 16 + lo) % 16 == lo
    ensures lo < 64 ==> (hi * 64 + lo) / 64 == hi && (hi * 64 + lo) % 64 == lo
  {
  }

  lemma GroupRoundTrip(b0: Byte, b1: Byte, b2: Byte)
    ensures var v := Sextets(b0, b1, b2); Octets(v.0, v.1, v.2, v.3) == (b0, b1, b2)
  {
    var v := Sextets(b0, b1, b2);
    var v1: int, v2: int := v.1, v.2;
    Parts(b0 % 4, b1 / 16);
    Parts(b1 % 16, b2 / 64);
    assert v1 / 16 == b0 % 4 && v1 % 16 == b1 / 16;
    assert v2 / 4 == b1 % 16 && v2 % 4 == b2 / 64;
  }

  lemma GroupRoundTripBack(v0: Sextet, v1: Sextet, v2: Sextet, v3: Sextet)
    ensures var b := Octets(v0, v1, v2, v3); Sextets(b.0, b.1, b.2) == (v0, v1, v2, v3)
  {
    var b := Octets(v0, v1, v2, v3);
    Parts(v0, v1 / 16);
    Parts(v1 % 16, v2 / 4);
    Parts(v2 % 4, v3);
    assert b.0 / 4 == v0 && b.0 % 4 == v1 / 16;
    assert b.1 / 16 == v1 % 16 && b.1 % 16 == v2 / 4;
    assert b.2 / 64 == v2 % 4 && b.2 % 64 == v3;
  }

  function Letters(v: (Sextet, Sextet, Sextet, Sextet)): (s: string)
    ensures |s| == 4 && UrlSafeText(s)
    ensures s[0] == Letter(v.0) && s[1] == Letter(v.1) && s[2] == Letter(v.2) && s[3] == Letter(v.3)
  {
    [Letter(v.0), Letter(v.1), Letter(v.2), Letter(v.3)]
  }

  /** Three bytes become four letters; a shorter last group is filled with zero bits and padded with `=`. */
  function Encode(b: seq<Byte>): string {
    if b == [] then ""
    else if |b| == 1 then Letters(Sextets(b[0], 0, 0))[..2] + "=="
    else if |b| == 2 then Letters(Sextets(b[0], b[1], 0))[..3] + "="
    else Letters(Sextets(b[0], b[1], b[2])) + Encode(b[3..])
  }

  /** The examples of section 10 of RFC 4648: "f", "fo", "foo" and, behind a group, "b", "ba" and "bar". */
  lemma EncodesTheExamples(rest: seq<Byte>)
    ensures Encode([102]) == "Zg==" && Encode([102, 111]) == "Zm8="
    ensures Encode([98]) == "Yg==" && Encode([98, 97]) == "YmE="
    ensures Encode([102, 111, 111] + rest) == "Zm9v" + Encode(rest)
    ensures Encode([98, 97, 114] + rest) == "YmFy" + Encode(rest)
  {
    ExampleGroups();
    PaddingAfter(102, 111);
    PaddingAfter(98, 97);
    GroupThen(102, 111, 111, rest);
    GroupThen(98, 97, 114, rest);
  }

  lemma PaddingAfter(b0: Byte, b1: Byte)
    ensures Encode([b0]) == Letters(Sextets(b0, 0, 0))[..2] + "=="
    ensures Encode([b0, b1]) == Letters(Sextets(b0, b1, 0))[..3] + "="
  {
  }

  lemma ExampleGroups()
    ensures Letters(Sextets(102, 111, 111)) == "Zm9v" && Letters(Sextets(98, 97, 114)) == "YmFy"
    ensures Letters(Sextets(102, 0, 0))[..2] == "Zg" && Letters(Sextets(102, 111, 0))[..3] == "Zm8"
    ensures Letters(Sextets(98, 0, 0))[..2] == "Yg" && Letters(Sextets(98, 97, 0))[..3] == "YmE"
  {
  }

  lemma GroupThen(b0: Byte, b1: Byte, b2: Byte, rest: seq<Byte>)
    ensures Encode([b0, b1, b2] + rest) == Letters(Sextets(b0, b1, b2)) + Encode(rest)
  {
    assert ([b0, b1, b2] + rest)[3..] == rest;
  }

  /** The bytes behind `n` letters: three for every four letters, and one for each letter left over. */
  function Bytes(n: nat): nat {
    if n < 4 then n else 3 + Bytes(n - 4)
  }

  /** The number of buffers behind a text: the bits of the last byte that the text does not show. */
  function Sources(n: nat): nat {
    if n >= 4 then Sources(n - 4)
    else if n == 0 then 1 else if n == 1 then 4 else if n == 2 then 16 else 64
  }

  function Pow2(k: nat): nat {
    if k == 0 then 1 else 2 * Pow2(k - 1)
  }

  /** The generator asks for just enough bytes, and its buffer holds the text and the hidden bits. */
  lemma {:induction false} BufferSize(n: nat)
    ensures Bytes(n) == (n * 6 + 7) / 8
    ensures 8 * Bytes(n) >= 6 * n && Sources(n) == Pow2(8 * Bytes(n) - 6 * n)
  {
    if n >= 4 {
      BufferSize(n - 4);
    } else {
      assert Pow2(4) == 4 * Pow2(2);
      assert Pow2(6) == 4 * Pow2(4);
    }
  }

  /** The encoding is long enough to be cut, and the cut text has no padding. */
  lemma {:induction false} CutIsExact(n: nat, b: seq<Byte>)
    requires |b| == Bytes(n)
    ensures n <= |Encode(b)|
    ensures forall i :: 0 <= i < n ==> UrlSafe(Encode(b)[i]) && Encode(b)[i] != '='
  {
    if n >= 4 {
      CutIsExact(n - 4, b[3..]);
    }
  }

  function Cut(n: nat, b: seq<Byte>): (s: string)
    requires |b| == Bytes(n)
    ensures |s| == n
  {
    CutIsExact(n, b);
    Encode(b)[..n]
  }

  // ---------- every text is equally likely ----------

  /** The buffer that shows the text `s` and hides the bits `r`. */
  function Buffer(s: string, r: nat): (b: seq<Byte>)
    requires UrlSafeText(s) && r < Sources(|s|)
    ensures |b| == Bytes(|s|)
  {
    if s == "" then []
    else if |s| == 1 then
      [Octets(Unletter(s[0]), r * 16, 0, 0).0]
    else if |s| == 2 then
      var b := Octets(Unletter(s[0]), Unletter(s[1]), r * 4, 0);
      [b.0, b.1]
    else if |s| == 3 then
      var b := Octets(Unletter(s[0]), Unletter(s[1]), Unletter(s[2]), r);
      [b.0, b.1, b.2]
    else
      var b := Octets(Unletter(s[0]), Unletter(s[1]), Unletter(s[2]), Unletter(s[3]));
      [b.0, b.1, b.2] + Buffer(s[4..], r)
  }

  lemma ShortBufferShows(s: string, r: nat)
    requires |s| < 4 && UrlSafeText(s) && r < Sources(|s|)
    ensures Cut(|s|, Buffer(s, r)) == s
  {
    if |s| == 1 {
      GroupRoundTripBack(Unletter(s[0]), r * 16, 0, 0);
    } else if |s| == 2 {
      GroupRoundTripBack(Unletter(s[0]), Unletter(s[1]), r * 4, 0);
    } else if |s| == 3 {
      GroupRoundTripBack(Unletter(s[0]), Unletter(s[1]), Unletter(s[2]), r);
    }
  }

  lemma {:induction false} BufferShows(s: string, r: nat)
    requires UrlSafeText(s) && r < Sources(|s|)
    ensures Cut(|s|, Buffer(s, r)) == s
  {
    if |s| < 4 {
      ShortBufferShows(s, r);
    } else {
      BufferShows(s[4..], r);
      GroupRoundTripBack(Unletter(s[0]), Unletter(s[1]), Unletter(s[2]), Unletter(s[3]));
      var b := Buffer(s, r);
      assert b[3..] == Buffer(s[4..], r);
      var group := Letters(Sextets(b[0], b[1], b[2]));
      assert group == s[..4];
      CutJoins(|s|, b);
    }
  }

  /** Cutting a long text is encoding its first group and cutting the rest. */
  lemma CutJoins(n: nat, b: seq<Byte>)
    requires n >= 4 && |b| == Bytes(n)
    ensures |b[3..]| == Bytes(n - 4)
    ensures Cut(n, b) == Letters(Sextets(b[0], b[1], b[2])) + Cut(n - 4, b[3..])
  {
    CutIsExact(n, b);
    CutIsExact(n - 4, b[3..]);
  }

  /** The letters of a group give its sextets back. */
  lemma LettersRoundTrip(v: (Sextet, Sextet, Sextet, Sextet))
    ensures var s := Letters(v);
            Unletter(s[0]) == v.0 && Unletter(s[1]) == v.1 && Unletter(s[2]) == v.2 && Unletter(s[3]) == v.3
  {
    LetterIsUrlSafe(v.0);
    LetterIsUrlSafe(v.1);
    LetterIsUrlSafe(v.2);
    LetterIsUrlSafe(v.3);
  }

  lemma ShortBufferIsOneOfThem(n: nat, b: seq<Byte>) returns (r: nat)
    requires 1 <= n < 4 && |b| == Bytes(n)
    ensures UrlSafeText(Cut(n, b)) && r < Sources(n) && Buffer(Cut(n, b), r) == b
  {
    var b1, b2 := if n >= 2 then b[1] else 0, if n == 3 then b[2] else 0;
    r := if n == 1 then b[0] % 4 else if n == 2 then b1 % 16 else b2 % 64;
    var v := Sextets(b[0], b1, b2);
    LettersRoundTrip(v);
    GroupRoundTrip(b[0], b1, b2);
    assert Cut(n, b) == Letters(v)[..n];
    assert n < 3 ==> v.3 == 0 && v.2 == (if n == 1 then 0 else r * 4);
    assert n == 1 ==> v.1 == r * 16;
  }

  /** The buffer of a text that starts with a group of three bytes starts with those bytes. */
  lemma BufferJoins(b0: Byte, b1: Byte, b2: Byte, rest: string, r: nat)
    requires UrlSafeText(rest) && r < Sources(|rest|)
    ensures var s := Letters(Sextets(b0, b1, b2)) + rest;
            UrlSafeText(s) && r < Sources(|s|) && Buffer(s, r) == [b0, b1, b2] + Buffer(rest, r)
  {
    var v := Sextets(b0, b1, b2);
    var s := Letters(v) + rest;
    LettersRoundTrip(v);
    GroupRoundTrip(b0, b1, b2);
    assert s[4..] == rest;
    assert s[0] == Letters(v)[0] && s[1] == Letters(v)[1] && s[2] == Letters(v)[2] && s[3] == Letters(v)[3];
  }

  lemma {:induction false} BufferIsOneOfThem(n: nat, b: seq<Byte>) returns (r: nat)
    requires |b| == Bytes(n)
    ensures UrlSafeText(Cut(n, b)) && r < Sources(n) && Buffer(Cut(n, b), r) == b
  {
    if n == 0 {
      r := 0;
    } else if n < 4 {
      r := ShortBufferIsOneOfThem(n, b);
    } else {
      r := BufferIsOneOfThem(n - 4, b[3..]);
      LongBufferIsOneOfThem(n, b, r);
    }
  }

  lemma LongBufferIsOneOfThem(n: nat, b: seq<Byte>, r: nat)
    requires n >= 4 && |b| == Bytes(n) && |b| >= 3 && |b[3..]| == Bytes(n - 4)
    requires UrlSafeText(Cut(n - 4, b[3..])) && r < Sources(n - 4)
    requires Buffer(Cut(n - 4, b[3..]), r) == b[3..]
    ensures UrlSafeText(Cut(n, b)) && r < Sources(n) && Buffer(Cut(n, b), r) == b
  {
    CutJoins(n, b);
    BufferJoins(b[0], b[1], b[2], Cut(n - 4, b[3..]), r);
  }

  lemma {:induction false} HiddenBitsDiffer(s: string, r: nat, q: nat)
    requires UrlSafeText(s) && r < Sources(|s|) && q < Sources(|s|)
    requires Buffer(s, r) == Buffer(s, q)
    ensures r == q
  {
    if |s| >= 4 {
      assert Buffer(s, r)[3..] == Buffer(s[4..], r);
      assert Buffer(s, q)[3..] == Buffer(s[4..], q);
      HiddenBitsDiffer(s[4..], r, q);
    } else if s != "" {
      assert Last(Buffer(s, r)) == Last(Buffer(s, q));
    }
  }

  ghost function Buffers(s: string, count: nat): (p: set<seq<Byte>>)
    requires UrlSafeText(s) && count <= Sources(|s|)
  {
    set r: nat | r < count :: Buffer(s, r)
  }

  lemma {:induction false} BuffersCardinality(s: string, count: nat)
    requires UrlSafeText(s) && count <= Sources(|s|)
    ensures |Buffers(s, count)| == count
  {
    if count == 0 {
      assert Buffers(s, 0) == {};
    } else {
      BuffersCardinality(s, count - 1);
      if Buffer(s, count - 1) in Buffers(s, count - 1) {
        var r: nat :| r < count - 1 && Buffer(s, count - 1) == Buffer(s, r);
        HiddenBitsDiffer(s, count - 1, r);
      }
      assert Buffers(s, count) == Buffers(s, count - 1) + {Buffer(s, count - 1)};
    }
  }

  lemma BuffersAreTheSources(s: string, b: seq<Byte>)
    requires UrlSafeText(s)
    ensures b in Buffers(s, Sources(|s|)) <==> |b| == Bytes(|s|) && Cut(|s|, b) == s
  {
    var count := Sources(|s|);
    if b in Buffers(s, count) {
      var r: nat :| r < count && b == Buffer(s, r);
      BufferShows(s, r);
    } else if |b| == Bytes(|s|) && Cut(|s|, b) == s {
      var r := BufferIsOneOfThem(|s|, b);
    }
  }

  /** The buffers of the size the generator asks for that it turns into `s`. */
  ghost predicate Yields(p: set<seq<Byte>>, s: string) {
    forall b: seq<Byte> :: b in p <==> |b| == Bytes(|s|) && Cut(|s|, b) == s
  }

  lemma BuffersYield(s: string)
    requires UrlSafeText(s)
    ensures Yields(Buffers(s, Sources(|s|)), s)
  {
    var p := Buffers(s, Sources(|s|));
    forall b: seq<Byte> ensures b in p <==> |b| == Bytes(|s|) && Cut(|s|, b) == s {
      BuffersAreTheSources(s, b);
    }
  }

  /** Every text over the alphabet comes from exactly 2^(8 * byteLen - 6 * n) of the random buffers. */
  lemma EveryTextIsEquallyLikely(s: string, byteLen: nat)
    requires UrlSafeText(s) && byteLen == (|s| * 6 + 7) / 8
    ensures byteLen == Bytes(|s|) && 8 * byteLen >= 6 * |s|
    ensures exists p: set<seq<Byte>> :: Yields(p, s) && |p| == Pow2(8 * byteLen - 6 * |s|)
  {
    BufferSize(|s|);
    BuffersYield(s);
    var p := SourcesCount(s);
    assert Yields(p, s);
  }

  lemma SourcesCount(s: string) returns (p: set<seq<Byte>>)
    requires UrlSafeText(s)
    ensures p == Buffers(s, Sources(|s|)) && |p| == Sources(|s|)
  {
    p := Buffers(s, Sources(|s|));
    BuffersCardinality(s, Sources(|s|));
  }

  // ---------- the provider ----------

  predicate ValidLength(n: int) {
    8 <= n <= 256
  }

  /** The first `k` bytes an entropy source yields. */
  function Drawn(source: nat -> Byte, k: nat): (b: seq<Byte>)
    ensures |b| == k && forall i :: 0 <= i < k ==> b[i] == source(i)
  {
    if k == 0 then [] else Drawn(source, k - 1) + [source(k - 1)]
  }

  /** The entropy source fills the whole buffer or fails. */
  method RandomString(n: nat, entropy: Option<nat -> Byte>) returns (r: Option<string>)
    ensures r.Some? <==> entropy.Some?
    ensures r.Some? ==> r.value == Cut(n, Drawn(entropy.value, Bytes(n)))
    ensures r.Some? ==> |r.value| == n && UrlSafeText(r.value)
  {
    BufferSize(n);
    var byteLen := (n * 6 + 7) / 8;
    var b := new Byte[byteLen];
    if entropy.None? {
      return None;
    }
    for i := 0 to byteLen
      invariant b[..i] == Drawn(entropy.value, i)
    {
      b[i] := entropy.value(i);
    }
    assert b[..] == b[..byteLen];
    CutIsExact(n, b[..]);
    var encoded := Encode(b[..]);
    return Some(encoded[..n]);
  }

  /** The length the parameters ask for; a text that is not a number means the default. */
  function Length(params: map<string, string>): int {
    if "length" in params && Atoi(params["length"]).Some? then Atoi(params["length"]).value else DEFAULT_LENGTH
  }

  /** Accepted parameters ask for a length of 8 to 256, so never for one that the generator cannot serve. */
  predicate Validate(params: map<string, string>): (ok: bool)
    ensures ok ==> 8 <= Length(params) <= 256
  {
    "length" in params ==> Atoi(params["length"]).Some? && ValidLength(Atoi(params["length"]).value)
  }

  /**
   Of the lengths that print as a 64-bit integer, exactly 8 to 256 pass, and each is the one
   used; what is not a number does not pass, and no length at all passes and means 32.
   */
  lemma ExactlyValidLengthsPass(params: map<string, string>)
    ensures forall n: int :: 8 <= n <= 256 ==>
      Validate(params["length" := Itoa(n)]) && Length(params["length" := Itoa(n)]) == n
    ensures forall n: int :: Clock.MIN_DURATION <= n <= Clock.MAX_DURATION && !(8 <= n <= 256) ==>
      !Validate(params["length" := Itoa(n)])
    ensures forall text: string :: Atoi(text).None? ==>
      !Validate(params["length" := text]) && Length(params["length" := text]) == 32
    ensures "length" !in params ==> Validate(params) && Length(params) == 32
  {
    forall n: int | Clock.MIN_DURATION <= n <= Clock.MAX_DURATION ensures Atoi(Itoa(n)) == Some(n) {
      AtoiOfItoa(n);
    }
  }

  /** A negative length would ask for a buffer of negative size; parameters that pass `Validate` never do. */
  method Generate(params: map<string, string>, entropy: Option<nat -> Byte>) returns (r: Result<Secret, ProviderError>)
    requires Length(params) >= 0
    ensures r.Ok? <==> entropy.Some?
    ensures r.Ok? ==> r.value.Keys == {"password"}
    ensures r.Ok? ==> |r.value["password"]| == Length(params) && UrlSafeText(r.value["password"])
    ensures r.Ok? && ("length" !in params || Atoi(params["length"]).None?) ==> |r.value["password"]| == 32
    ensures r.Ok? && "length" in params && Atoi(params["length"]).Some? ==>
      |r.value["password"]| == Atoi(params["length"]).value
    ensures r.Ok? ==> r.value["password"] == Cut(Length(params), Drawn(entropy.value, Bytes(Length(params))))
  {
    var length := DEFAULT_LENGTH;
    if "length" in params {
      var n := Atoi(params["length"]);
      if n.Some? {
        length := n.value;
      }
    }
    var pass := RandomString(length, entropy);
    if pass.None? {
      return Err(CallFailed);
    }
    return Ok(map["password" := pass.value]);
  }
}
