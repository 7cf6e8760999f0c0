/** The hash of src/hashtable.c in closed form: every character counts, each 33 times what the next one
    does, in front of them the seed.
  */
module Djb2 {
  import opened Tables

  function Power(b: int, n: nat): int {
    if n == 0 then 1 else b * Power(b, n - 1)
  }

  // The sum of key[i] * 33^(n - 1 - i), where n is the length.
  function Weighed(key: string): int {
    if key == [] then 0 else key[0] as int * Power(33, |key| - 1) + Weighed(key[1..])
  }

  lemma {:induction false} LastWeighsOne(key: string)
    requires key != []
    ensures Weighed(key) == 33 * Weighed(key[..|key| - 1]) + key[|key| - 1] as int
    decreases |key|
  {
    var n := |key| - 1;
    if n > 0 {
      LastWeighsOne(key[1..]);
      assert key[1..][..n - 1] == key[..n][1..];
      var k, p := key[0] as int, Power(33, n - 1);
      assert k * (33 * p) == 33 * (k * p);
    }
  }

  lemma AfterModulo(x: int, c: int)
    ensures ((x % TWO_64) * 33 + c) % TWO_64 == (x * 33 + c) % TWO_64
  {
    var q := x / TWO_64;
    assert x * 33 + c == (x % TWO_64) * 33 + c + TWO_64 * (33 * q);
  }

  /** carp_ht_rhash. */
  lemma {:induction false} HashIs(key: string)
    ensures RawHash(key) == (5381 * Power(33, |key|) + Weighed(key)) % TWO_64
    decreases |key|
  {
    if key != [] {
      var n := |key| - 1;
      HashIs(key[..n]);
      LastWeighsOne(key);
      AfterModulo(5381 * Power(33, n) + Weighed(key[..n]), key[n] as int);
      assert 5381 * (33 * Power(33, n)) == 5381 * Power(33, n) * 33;
    }
  }

  // Words of the example programs, and their buckets in a table for labels.
  lemma SomeBuckets()
    ensures RawHash("mul") == 193499667 && RawHash("mod") == 193499461 && RawHash("main") == 6385467242
    ensures Hash("mul", 10) == 7 && Hash("mod", 10) == 1 && Hash("main", 10) == 2
  {
    assert "mul"[..2] == "mu" && "mu"[..1] == "m" && "m"[..0] == "";
    assert "mod"[..2] == "mo" && "mo"[..1] == "m";
    assert "main"[..3] == "mai" && "mai"[..2] == "ma" && "ma"[..1] == "m";
    assert RawHash("") == 5381 && RawHash("m") == 177682;
  }
}
