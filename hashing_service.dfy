/**
 * The hashing service: a password is stored as a "hash bundle", the string
 * Algorithm.Iterations.Salt.Hash, where Salt and Hash are Base64 and Hash is the PBKDF2
 * (section 5.2 of RFC 8018, HMAC-SHA512) key derived from the password's UTF-8 bytes.
 * The key derivation is a parameter: any deterministic function of (password, salt, iterations, length).
 */
module HashingService {
  import opened Wrappers
  import opened Numeric
  import opened Text
  import opened Int32Text
  import opened Base64

  const HashingDelimiter: char := '.'
  const HashingIterations: int32 := 10000
  /** The name Rfc2898DeriveBytes reports for HashAlgorithmName.SHA512. */
  const AlgorithmName: string := "SHA512"
  const SaltLength: nat := 24
  const KeyLength: nat := 32
  /** Rfc2898DeriveBytes refuses a salt shorter than this. */
  const MinimumSaltSize: nat := 8

  /** A key derivation function: (password bytes, salt, iterations, requested length) to key bytes. */
  type Kdf = (seq<byte>, seq<byte>, int, nat) -> seq<byte>

  /** A derivation that returns as many bytes as requested, as PBKDF2 does. */
  ghost predicate ValidKdf(kdf: Kdf)
  {
    forall p, s, it, n :: |kdf(p, s, it, n)| == n
  }

  /** The exceptions IsValueInHashBundle can raise instead of answering. */
  datatype HashBundleError =
    | FieldMissing(index: nat)     // IndexOutOfRangeException on the field array
    | BadIterations                // FormatException or OverflowException from Int32.Parse
    | BadBase64(index: nat)        // FormatException from Convert.FromBase64String
    | SaltTooShort                 // ArgumentException from Rfc2898DeriveBytes
    | NonPositiveIterations        // ArgumentOutOfRangeException from Rfc2898DeriveBytes

  /** The bundle layout Algorithm.Iterations.Salt.Hash. */
  function FormatHashBundle(algorithm: string, iterations: int, salt: seq<byte>, hash: seq<byte>): string
  {
    Join([HashingDelimiter], [algorithm, FormatInt(iterations), Base64.Encode(salt), Base64.Encode(hash)])
  }

  /** The derivation step: Rfc2898DeriveBytes checks its arguments, then GetBytes(32) is compared with the stored hash. */
  function DeriveAndCompare(kdf: Kdf, value: string, salt: seq<byte>, iterations: int32, hash: seq<byte>): Result<bool, HashBundleError>
  {
    if |salt| < MinimumSaltSize then Failure(SaltTooShort)
    else if iterations <= 0 then Failure(NonPositiveIterations)
    else Success(kdf(Utf8Encode(value), salt, iterations as int, KeyLength) == hash)
  }

  /**
   * What IsValueInHashBundle computes, in the order it fails: the bundle is split on '.', the
   * iteration field is parsed before the salt field is read, the salt decoded before the
   * hash field is read, and only then does the derivation check its arguments. Field 0 is never read,
   * fields past index 3 are ignored.
   */
  function VerifyHashBundle(kdf: Kdf, value: string, hashBundle: string): Result<bool, HashBundleError>
  {
    VerifyFields(kdf, value, Split(hashBundle, HashingDelimiter))
  }

  function VerifyFields(kdf: Kdf, value: string, parts: seq<string>): Result<bool, HashBundleError>
  {
    if |parts| < 2 then Failure(FieldMissing(1))
    else WithIterations(kdf, value, parts, ParseInt32(Trim(parts[1])))
  }

  function WithIterations(kdf: Kdf, value: string, parts: seq<string>, iterations: Option<int32>): Result<bool, HashBundleError>
    requires |parts| >= 2
  {
    if iterations.None? then Failure(BadIterations)
    else if |parts| < 3 then Failure(FieldMissing(2))
    else WithSalt(kdf, value, parts, iterations.value, Base64.Decode(Trim(parts[2])))
  }

  function WithSalt(kdf: Kdf, value: string, parts: seq<string>, iterations: int32, salt: Option<seq<byte>>): Result<bool, HashBundleError>
    requires |parts| >= 3
  {
    if salt.None? then Failure(BadBase64(2))
    else if |parts| < 4 then Failure(FieldMissing(3))
    else WithHash(kdf, value, iterations, salt.value, Base64.Decode(Trim(parts[3])))
  }

  function WithHash(kdf: Kdf, value: string, iterations: int32, salt: seq<byte>, hash: Option<seq<byte>>): Result<bool, HashBundleError>
  {
    if hash.None? then Failure(BadBase64(3))
    else DeriveAndCompare(kdf, value, salt, iterations, hash.value)
  }

  /**
   * Compares two byte arrays, always visiting every index when the lengths agree. Both null
   * counts as equal; one null, or different lengths, as unequal. `comparisons` counts the
   * byte comparisons made.
   */
  method UnoptimisedEqual(a: array?<byte>, b: array?<byte>) returns (r: bool, ghost comparisons: nat)
    ensures a == null && b == null ==> r && comparisons == 0
    ensures (a == null) != (b == null) ==> !r && comparisons == 0
    ensures a != null && b != null ==> (r <==> a[..] == b[..])
    ensures a != null && b != null ==> comparisons == (if a.Length == b.Length then a.Length else 0)
  {
    if a == null && b == null {
      return true, 0;
    }
    if a == null || b == null || a.Length != b.Length {
      return false, 0;
    }
    var areEqual := true;
    comparisons := 0;
    for i := 0 to a.Length
      invariant comparisons == i
      invariant areEqual == (forall j :: 0 <= j < i ==> a[j] == b[j])
    {
      areEqual := areEqual && (a[i] == b[i]);
      comparisons := comparisons + 1;
    }
    r := areEqual;
    assert r ==> a[..] == b[..];
  }

  /** An array holding the bytes of s. */
  method ToArray(s: seq<byte>) returns (a: array<byte>)
    ensures a[..] == s && fresh(a)
  {
    a := new byte[|s|](i requires 0 <= i < |s| => s[i]);
  }

  /** IsValueInHashBundle: parse, derive with the bundle's own salt and iteration count, compare. */
  method IsValueInHashBundle(kdf: Kdf, value: string, hashBundle: string) returns (r: Result<bool, HashBundleError>)
    ensures r == VerifyHashBundle(kdf, value, hashBundle)
  {
    var components := Split(hashBundle, HashingDelimiter);
    if |components| < 2 {
      return Failure(FieldMissing(1));
    }
    var iterations := ParseInt32(Trim(components[1]));
    if iterations.None? {
      return Failure(BadIterations);
    }
    if |components| < 3 {
      return Failure(FieldMissing(2));
    }
    var salt := Base64.Decode(Trim(components[2]));
    if salt.None? {
      return Failure(BadBase64(2));
    }
    if |components| < 4 {
      return Failure(FieldMissing(3));
    }
    var hash := Base64.Decode(Trim(components[3]));
    if hash.None? {
      return Failure(BadBase64(3));
    }
    if |salt.value| < MinimumSaltSize {
      return Failure(SaltTooShort);
    }
    if iterations.value <= 0 {
      return Failure(NonPositiveIterations);
    }
    var testHash := ToArray(kdf(Utf8Encode(value), salt.value, iterations.value as int, KeyLength));
    var stored := ToArray(hash.value);
    var equal, _ := UnoptimisedEqual(testHash, stored);
    return Success(equal);
  }

  /** The salt drawn from the random source: its first SaltLength bytes. */
  function RandomSalt(rng: nat -> byte): (salt: seq<byte>)
    ensures |salt| == SaltLength
    ensures forall i :: 0 <= i < SaltLength ==> salt[i] == rng(i)
  {
    seq(SaltLength, (i: int) requires 0 <= i => rng(i))
  }

  /** The fields of the bundle generated for a value from a random source. */
  function GeneratedFields(kdf: Kdf, value: string, rng: nat -> byte): seq<string>
  {
    var hash := kdf(Utf8Encode(value), RandomSalt(rng), HashingIterations as int, KeyLength);
    [AlgorithmName, FormatInt(HashingIterations as int), Base64.Encode(RandomSalt(rng)), Base64.Encode(hash)]
  }

  /**
   * GenerateHashBundleFromValue: fills a 24-byte salt from the random source, derives a 32-byte
   * key with 10000 iterations, and writes SHA512.10000.Salt.Hash. The bundle splits back into
   * exactly those four fields and verifies against the value it was made from.
   */
  method GenerateHashBundleFromValue(kdf: Kdf, value: string, rng: nat -> byte) returns (bundle: string)
    ensures bundle == Join([HashingDelimiter], GeneratedFields(kdf, value, rng))
    ensures Split(bundle, HashingDelimiter) == GeneratedFields(kdf, value, rng)
    ensures VerifyHashBundle(kdf, value, bundle) == Success(true)
  {
    var salt := new byte[SaltLength];
    forall i | 0 <= i < salt.Length {
      salt[i] := rng(i);
    }
    assert salt[..] == RandomSalt(rng);
    var hash := kdf(Utf8Encode(value), salt[..], HashingIterations as int, KeyLength);
    bundle := FormatHashBundle(AlgorithmName, HashingIterations as int, salt[..], hash);
    GeneratedBundleVerifies(kdf, value, rng);
  }

  lemma GeneratedBundleVerifies(kdf: Kdf, value: string, rng: nat -> byte)
    ensures var fields := GeneratedFields(kdf, value, rng);
            Split(Join([HashingDelimiter], fields), HashingDelimiter) == fields
            && VerifyHashBundle(kdf, value, Join([HashingDelimiter], fields)) == Success(true)
  {
    var salt := RandomSalt(rng);
    var hash := kdf(Utf8Encode(value), salt, HashingIterations as int, KeyLength);
    var fields := GeneratedFields(kdf, value, rng);
    assert Base64.Encode(hash) + [] == Base64.Encode(hash);
    assert fields == [AlgorithmName, FormatInt(HashingIterations as int), Base64.Encode(salt), Base64.Encode(hash)];
    assert fields == [AlgorithmName, FormatInt(HashingIterations), Base64.Encode(salt), Base64.Encode(hash) + []] + [];
    BundleVerifies(kdf, value, fields, AlgorithmName, HashingIterations, salt, hash, [], []);
  }

  /** A generated bundle still verifies against its value once padded with trailing white
      space, as it comes back from a fixed-width CHAR column. */
  lemma PaddedBundleVerifies(kdf: Kdf, value: string, rng: nat -> byte, pad: string)
    requires forall i :: 0 <= i < |pad| ==> IsWhiteSpace(pad[i])
    ensures VerifyHashBundle(kdf, value, Join([HashingDelimiter], GeneratedFields(kdf, value, rng)) + pad) == Success(true)
  {
    var salt := RandomSalt(rng);
    var hash := kdf(Utf8Encode(value), salt, HashingIterations as int, KeyLength);
    var f := GeneratedFields(kdf, value, rng);
    var padded := [f[0], f[1], f[2], f[3] + pad];
    assert padded == [AlgorithmName, FormatInt(HashingIterations), Base64.Encode(salt), Base64.Encode(hash) + pad] + [];
    BundleVerifies(kdf, value, padded, AlgorithmName, HashingIterations, salt, hash, pad, []);
    JoinPadsLastField(f, pad);
  }

  /** Padding the last of four fields pads the joined string. */
  lemma JoinPadsLastField(f: seq<string>, pad: string)
    requires |f| == 4
    ensures Join([HashingDelimiter], [f[0], f[1], f[2], f[3] + pad]) == Join([HashingDelimiter], f) + pad
  {
    var d := [HashingDelimiter];
    var p := [f[0], f[1], f[2], f[3] + pad];
    assert p[1..][1..][1..] == [f[3] + pad];
    assert f[1..][1..][1..] == [f[3]];
    assert Join(d, p[1..][1..]) == f[2] + d + (f[3] + pad);
    assert Join(d, f[1..][1..]) == f[2] + d + f[3];
  }

  /** A generated bundle has exactly four fields: "SHA512", "10000", the Base64 salt and the Base64 key. */
  lemma GeneratedLayout(kdf: Kdf, value: string, rng: nat -> byte)
    ensures var fields := GeneratedFields(kdf, value, rng);
            |fields| == 4 && fields[0] == "SHA512" && fields[1] == "10000"
            && fields[2] == Base64.Encode(RandomSalt(rng))
            && fields[3] == Base64.Encode(kdf(Utf8Encode(value), RandomSalt(rng), 10000, 32))
  {
    assert FormatInt(10000) == "10000";
  }

  /** A decimal integer holds neither the delimiter nor white space at its ends. */
  lemma FormatIntShape(n: int)
    ensures HashingDelimiter !in FormatInt(n)
    ensures Trim(FormatInt(n)) == FormatInt(n)
  {
    var f := FormatInt(n);
    forall i | 0 <= i < |f|
      ensures f[i] != HashingDelimiter && !IsWhiteSpace(f[i])
    {
      assert IsDigit(f[i]) || f[i] == '-';
    }
    TrimNoOp(f);
  }

  /** A Base64 encoding holds neither the delimiter nor white space. */
  lemma EncodingShape(b: seq<byte>)
    ensures HashingDelimiter !in Base64.Encode(b)
    ensures forall i :: 0 <= i < |Base64.Encode(b)| ==> !IsWhiteSpace(Base64.Encode(b)[i])
  {
    forall i | 0 <= i < |Base64.Encode(b)|
      ensures Base64.Encode(b)[i] != HashingDelimiter && !IsWhiteSpace(Base64.Encode(b)[i])
    {
      EncodingAlphabet(b, i);
    }
  }

  lemma EncodedFieldDecodes(b: seq<byte>, pad: string)
    requires forall i :: 0 <= i < |pad| ==> IsWhiteSpace(pad[i])
    ensures HashingDelimiter !in Base64.Encode(b) + pad
    ensures Base64.Decode(Trim(Base64.Encode(b) + pad)) == Some(b)
  {
    EncodingShape(b);
    TrimPadded(Base64.Encode(b), pad);
    RoundTrip(b);
  }

  lemma IterationFieldParses(iterations: int32)
    ensures HashingDelimiter !in FormatInt(iterations)
    ensures ParseInt32(Trim(FormatInt(iterations))) == Some(iterations)
  {
    FormatIntShape(iterations);
    FormatParseRoundTrip(iterations);
  }

  /** Split recovers the fields of a bundle when none of them holds the delimiter. */
  lemma FieldsSplit(fields: seq<string>, extra: seq<string>)
    requires |fields| >= 4 && fields[4..] == extra
    requires HashingDelimiter !in fields[0] && HashingDelimiter !in fields[1]
    requires HashingDelimiter !in fields[2] && HashingDelimiter !in fields[3]
    requires forall k :: 0 <= k < |extra| ==> HashingDelimiter !in extra[k]
    ensures Split(Join([HashingDelimiter], fields), HashingDelimiter) == fields
  {
    forall k | 4 <= k < |fields|
      ensures HashingDelimiter !in fields[k]
    {
      assert fields[k] == fields[4..][k - 4];
    }
    assert forall k :: 0 <= k < |fields| ==> HashingDelimiter !in fields[k] by {
      forall k | 0 <= k < |fields|
        ensures HashingDelimiter !in fields[k]
      {
        if k < 4 {
          assert k == 0 || k == 1 || k == 2 || k == 3;
        }
      }
    }
    SplitJoin(fields, HashingDelimiter);
  }

  /** Once the fields parse, the answer is the derivation's, on the parsed salt and iteration count. */
  lemma ParsedFieldsVerify(kdf: Kdf, value: string, parts: seq<string>, iterations: int32, salt: seq<byte>, hash: seq<byte>)
    requires |parts| >= 4
    requires ParseInt32(Trim(parts[1])) == Some(iterations)
    requires Base64.Decode(Trim(parts[2])) == Some(salt)
    requires Base64.Decode(Trim(parts[3])) == Some(hash)
    ensures VerifyFields(kdf, value, parts) == DeriveAndCompare(kdf, value, salt, iterations, hash)
  {
  }

  lemma FieldsVerify(kdf: Kdf, value: string, bundle: string, parts: seq<string>, iterations: int32, salt: seq<byte>, hash: seq<byte>)
    requires Split(bundle, HashingDelimiter) == parts && |parts| >= 4
    requires ParseInt32(Trim(parts[1])) == Some(iterations)
    requires Base64.Decode(Trim(parts[2])) == Some(salt)
    requires Base64.Decode(Trim(parts[3])) == Some(hash)
    ensures VerifyHashBundle(kdf, value, bundle) == DeriveAndCompare(kdf, value, salt, iterations, hash)
  {
    ParsedFieldsVerify(kdf, value, parts, iterations, salt, hash);
  }

  /**
   * Verification of any bundle in the layout Algorithm.Iterations.Salt.Hash: the hash field may
   * carry trailing white space (the padding of a fixed-width column) and further fields may follow.
   * Verification splits it back into those fields, uses the bundle's own iteration count and
   * salt, ignores the algorithm field, the padding and the further fields, and answers whether
   * the derived key equals the stored hash, unless the derivation refuses its arguments.
   */
  lemma BundleVerifies(kdf: Kdf, value: string, fields: seq<string>, algorithm: string, iterations: int32,
                       salt: seq<byte>, hash: seq<byte>, pad: string, extra: seq<string>)
    requires HashingDelimiter !in algorithm
    requires forall i :: 0 <= i < |pad| ==> IsWhiteSpace(pad[i])
    requires forall k :: 0 <= k < |extra| ==> HashingDelimiter !in extra[k]
    requires fields == [algorithm, FormatInt(iterations), Base64.Encode(salt), Base64.Encode(hash) + pad] + extra
    ensures Split(Join([HashingDelimiter], fields), HashingDelimiter) == fields
    ensures VerifyHashBundle(kdf, value, Join([HashingDelimiter], fields))
         == if |salt| < MinimumSaltSize then Failure(SaltTooShort)
            else if iterations <= 0 then Failure(NonPositiveIterations)
            else Success(kdf(Utf8Encode(value), salt, iterations as int, KeyLength) == hash)
  {
    assert fields[0] == algorithm && fields[1] == FormatInt(iterations);
    assert fields[2] == Base64.Encode(salt) && fields[3] == Base64.Encode(hash) + pad;
    assert fields[4..] == extra;
    BundleFieldsParse(fields, algorithm, iterations, salt, hash, pad);
    FieldsSplit(fields, extra);
    FieldsVerify(kdf, value, Join([HashingDelimiter], fields), fields, iterations, salt, hash);
  }

  /** Each field of a bundle in the layout parses back to what was written into it. */
  lemma BundleFieldsParse(fields: seq<string>, algorithm: string, iterations: int32,
                          salt: seq<byte>, hash: seq<byte>, pad: string)
    requires HashingDelimiter !in algorithm
    requires forall i :: 0 <= i < |pad| ==> IsWhiteSpace(pad[i])
    requires |fields| >= 4 && fields[0] == algorithm && fields[1] == FormatInt(iterations)
    requires fields[2] == Base64.Encode(salt) && fields[3] == Base64.Encode(hash) + pad
    ensures HashingDelimiter !in fields[1] && HashingDelimiter !in fields[2] && HashingDelimiter !in fields[3]
    ensures ParseInt32(Trim(fields[1])) == Some(iterations)
    ensures Base64.Decode(Trim(fields[2])) == Some(salt)
    ensures Base64.Decode(Trim(fields[3])) == Some(hash)
  {
    IterationFieldParses(iterations);
    EncodedFieldDecodes(salt, []);
    assert Base64.Encode(salt) + [] == Base64.Encode(salt);
    EncodedFieldDecodes(hash, pad);
  }

  /** With a key derivation that honours the requested length, a generated bundle carries a
      24-byte salt and a 32-byte key, and its hash field decodes to that key. */
  lemma GeneratedBundleSizes(kdf: Kdf, value: string, rng: nat -> byte)
    requires ValidKdf(kdf)
    ensures var fields := GeneratedFields(kdf, value, rng);
            Base64.Decode(fields[2]) == Some(RandomSalt(rng)) && |RandomSalt(rng)| == 24
            && Base64.Decode(fields[3]).Some? && |Base64.Decode(fields[3]).value| == 32
  {
    var hash := kdf(Utf8Encode(value), RandomSalt(rng), HashingIterations as int, KeyLength);
    RoundTrip(RandomSalt(rng));
    RoundTrip(hash);
  }

  /** A bundle with no delimiter is refused with an exception, never answered with false. */
  lemma NoDelimiterFails(kdf: Kdf, value: string, hashBundle: string)
    requires HashingDelimiter !in hashBundle
    ensures VerifyHashBundle(kdf, value, hashBundle) == Failure(FieldMissing(1))
  {
    SplitNone(hashBundle, HashingDelimiter);
  }

  /** A bundle cut short after the salt field is refused, whatever the salt field holds. */
  lemma MissingHashFieldFails(kdf: Kdf, value: string, fields: seq<string>, algorithm: string, iterations: int32, salt: seq<byte>)
    requires HashingDelimiter !in algorithm
    requires fields == [algorithm, FormatInt(iterations), Base64.Encode(salt)]
    ensures VerifyHashBundle(kdf, value, Join([HashingDelimiter], fields)) == Failure(FieldMissing(3))
  {
    assert fields[0] == algorithm && fields[1] == FormatInt(iterations) && fields[2] == Base64.Encode(salt);
    IterationFieldParses(iterations);
    EncodedFieldDecodes(salt, []);
    assert Base64.Encode(salt) + [] == Base64.Encode(salt);
    ThreeFieldsSplit(fields);
    ShortFieldsFail(kdf, value, Join([HashingDelimiter], fields), fields, iterations);
  }

  lemma ThreeFieldsSplit(fields: seq<string>)
    requires |fields| == 3
    requires HashingDelimiter !in fields[0] && HashingDelimiter !in fields[1] && HashingDelimiter !in fields[2]
    ensures Split(Join([HashingDelimiter], fields), HashingDelimiter) == fields
  {
    SplitJoin(fields, HashingDelimiter);
  }

  lemma ShortFieldsFail(kdf: Kdf, value: string, bundle: string, parts: seq<string>, iterations: int32)
    requires Split(bundle, HashingDelimiter) == parts && |parts| == 3
    requires ParseInt32(Trim(parts[1])) == Some(iterations)
    requires Base64.Decode(Trim(parts[2])).Some?
    ensures VerifyHashBundle(kdf, value, bundle) == Failure(FieldMissing(3))
  {
  }

  /** An empty iteration field is refused before the salt is looked at. */
  lemma EmptyIterationsFails(kdf: Kdf, value: string, algorithm: string, rest: string)
    requires HashingDelimiter !in algorithm
    ensures VerifyHashBundle(kdf, value, algorithm + [HashingDelimiter] + ([HashingDelimiter] + rest)) == Failure(BadIterations)
  {
    SplitCons(algorithm, HashingDelimiter, [HashingDelimiter] + rest);
    SplitCons([], HashingDelimiter, rest);
    assert [] + [HashingDelimiter] + rest == [HashingDelimiter] + rest;
  }

  lemma AnswerNeedsHash(kdf: Kdf, value: string, iterations: int32, salt: seq<byte>, hash: Option<seq<byte>>)
    requires WithHash(kdf, value, iterations, salt, hash).Success?
    ensures hash.Some? && iterations > 0 && |salt| >= MinimumSaltSize
  {
  }

  lemma AnswerNeedsSalt(kdf: Kdf, value: string, parts: seq<string>, iterations: int32, salt: Option<seq<byte>>)
    requires |parts| >= 3
    requires WithSalt(kdf, value, parts, iterations, salt).Success?
    ensures |parts| >= 4 && salt.Some? && |salt.value| >= MinimumSaltSize && iterations > 0
    ensures Base64.Decode(Trim(parts[3])).Some?
  {
    AnswerNeedsHash(kdf, value, iterations, salt.value, Base64.Decode(Trim(parts[3])));
  }

  lemma AnswerNeedsIterations(kdf: Kdf, value: string, parts: seq<string>, iterations: Option<int32>)
    requires |parts| >= 2
    requires WithIterations(kdf, value, parts, iterations).Success?
    ensures |parts| >= 4 && iterations.Some? && iterations.value > 0
    ensures Base64.Decode(Trim(parts[2])).Some? && |Base64.Decode(Trim(parts[2])).value| >= MinimumSaltSize
    ensures Base64.Decode(Trim(parts[3])).Some?
  {
    AnswerNeedsSalt(kdf, value, parts, iterations.value, Base64.Decode(Trim(parts[2])));
  }

  /** When verification answers at all, the bundle had four fields, a number of iterations above
      zero, a salt of at least eight bytes and a well-formed hash field. */
  lemma AnswerNeedsWellFormedFields(kdf: Kdf, value: string, parts: seq<string>)
    requires VerifyFields(kdf, value, parts).Success?
    ensures |parts| >= 4
    ensures ParseInt32(Trim(parts[1])).Some? && ParseInt32(Trim(parts[1])).value > 0
    ensures Base64.Decode(Trim(parts[2])).Some? && |Base64.Decode(Trim(parts[2])).value| >= MinimumSaltSize
    ensures Base64.Decode(Trim(parts[3])).Some?
  {
    AnswerNeedsIterations(kdf, value, parts, ParseInt32(Trim(parts[1])));
  }
}
