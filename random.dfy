/**
  The random generators of utils/random.go, and the two math/rand calls the
  core makes. Randomness is a choice the verifier cannot see: each draw is
  any value in its range, so what is proved holds for every possible draw.
  Seeding from the clock is not modelled.
 */
module Random {
  import opened Ints

  const Alphabet: string := "abcdefghijklmnopqrstuvwxyz"

  predicate IsLowerLetter(c: char) {
    'a' <= c <= 'z'
  }

  /** math/rand's Int63n: some value in [0, n). It panics unless n > 0. */
  method Int63n(n: int64) returns (r: int64)
    requires n > 0
    ensures 0 <= r < n
  {
    r :| 0 <= r < n;
  }

  /** math/rand's Intn: some value in [0, n). It panics unless n > 0. */
  method Intn(n: int) returns (r: int)
    requires n > 0
    ensures 0 <= r < n
  {
    r :| 0 <= r < n;
  }

  /**
    RandomInt: `min + rand.Int63n(max - min + 1)`, all in int64. The range
    width must wrap to a positive int64, or Int63n panics; for min <= max the
    result lies in [min, max].
   */
  method RandomInt(min: int64, max: int64) returns (r: int64)
    requires Wrap64(max - min + 1) > 0
    ensures min <= max ==> min <= r <= max
  {
    var k := Int63n(Wrap64(max - min + 1));
    r := Wrap64(min + k);
  }

  /** RandomString: n letters drawn from the lower-case alphabet (none when n <= 0). */
  method RandomString(n: int) returns (s: string)
    ensures |s| == if n > 0 then n else 0
    ensures forall i :: 0 <= i < |s| ==> IsLowerLetter(s[i])
  {
    s := "";
    var k := |Alphabet|;
    var i := 0;
    while i < n
      invariant 0 <= i && (n > 0 ==> i <= n) && (n <= 0 ==> i == 0)
      invariant |s| == i
      invariant forall j :: 0 <= j < |s| ==> IsLowerLetter(s[j])
    {
      var c := Intn(k);
      s := s + [Alphabet[c]];
      i := i + 1;
    }
  }

  /** RandomEmail: six letters followed by "@email.com". */
  method RandomEmail() returns (s: string)
    ensures |s| == 16 && s[6..] == "@email.com"
    ensures forall i :: 0 <= i < 6 ==> IsLowerLetter(s[i])
  {
    var local := RandomString(6);
    s := local + "@email.com";
  }

  /** RandomItemName: "srrrs-" followed by five letters. */
  method RandomItemName() returns (s: string)
    ensures |s| == 11 && s[..6] == "srrrs-"
    ensures forall i :: 6 <= i < 11 ==> IsLowerLetter(s[i])
  {
    var tail := RandomString(5);
    s := "srrrs-" + tail;
  }

  /** RandomItemUrl: "http://srrrs/" followed by ten letters. */
  method RandomItemUrl() returns (s: string)
    ensures |s| == 23 && s[..13] == "http://srrrs/"
    ensures forall i :: 13 <= i < 23 ==> IsLowerLetter(s[i])
  {
    var tail := RandomString(10);
    s := "http://srrrs/" + tail;
  }

  /** RandomCategory: six letters. */
  method RandomCategory() returns (s: string)
    ensures |s| == 6
    ensures forall i :: 0 <= i < 6 ==> IsLowerLetter(s[i])
  {
    s := RandomString(6);
  }
}
