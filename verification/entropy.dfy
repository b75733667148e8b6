/**
  `calculateEntropy` from server/phishing-detection.ts, stated without floating
  point. For a label of n characters in which character c occurs k_c times,
  the Shannon entropy in bits per character is

      H = log2 n - (1/n) * sum_c k_c * log2 k_c,

  so for a whole number of bits b and n > 0,

      H > b   <==>   n^n > 2^(b*n) * prod_c k_c^k_c.

  The product prod_c k_c^k_c equals the product, over every position i, of the
  number of occurrences of the character at i, which is what
  `MultiplicityProduct(s, s)` computes. The empty label has entropy 0.
 */
module Entropy {
  import opened Strings

  function Pow(b: nat, e: nat): (r: nat)
    ensures b > 0 ==> r > 0
  {
    if e == 0 then 1 else b * Pow(b, e - 1)
  }

  /** The product, over the positions of `t`, of how often that position's character occurs in `s`. */
  function MultiplicityProduct(s: string, t: string): (p: nat)
    ensures (forall i :: 0 <= i < |t| ==> t[i] in s) ==> p >= 1
  {
    if |t| == 0 then 1 else Count(s, t[0]) * MultiplicityProduct(s, t[1..])
  }

  /** The entropy of `s` is strictly greater than `bits` bits per character. */
  predicate EntropyExceeds(s: string, bits: nat)
  {
    |s| > 0 && Pow(|s|, |s|) > Pow(2, bits * |s|) * MultiplicityProduct(s, s)
  }

  /** The entropy of `s` is exactly `bits` bits per character. */
  predicate EntropyIs(s: string, bits: nat)
  {
    if |s| == 0 then bits == 0 else Pow(|s|, |s|) == Pow(2, bits * |s|) * MultiplicityProduct(s, s)
  }

  /** `calculateEntropy(label) > 4`, the first half of the random-looking-label rule. */
  predicate HighEntropy(name: string)
  {
    EntropyExceeds(name, 4)
  }

  /** Worked examples: "aaaa" carries no information and "ab" one bit per character. */
  lemma EntropyExamples()
    ensures EntropyIs("aaaa", 0) && !HighEntropy("aaaa")
    ensures EntropyIs("ab", 1) && !EntropyExceeds("ab", 1)
  {
    assert Count("aaaa", 'a') == 4;
    assert MultiplicityProduct("aaaa", "aaaa") == 256;
    assert Count("ab", 'a') == 1 && Count("ab", 'b') == 1;
    assert MultiplicityProduct("ab", "ab") == 1;
  }

  lemma {:induction false} PowMonotoneInBase(a: nat, b: nat, e: nat)
    requires a <= b
    ensures Pow(a, e) <= Pow(b, e)
  {
    if e > 0 {
      var p, q := Pow(a, e - 1), Pow(b, e - 1);
      PowMonotoneInBase(a, b, e - 1);
      MulMonotone(a, b, p);
      MulMonotone(p, q, b);
      assert a * p <= p * b <= q * b;
    }
  }

  lemma MulMonotone(x: nat, y: nat, z: nat)
    requires x <= y
    ensures x * z <= y * z
  {
  }

  lemma {:induction false} PowOfPow(b: nat, k: nat, e: nat)
    ensures Pow(b, k * e) == Pow(Pow(b, k), e)
  {
    if e > 0 {
      PowOfPow(b, k, e - 1);
      assert k * e == k + k * (e - 1);
      PowAdd(b, k, k * (e - 1));
    }
  }

  lemma {:induction false} PowAdd(b: nat, x: nat, y: nat)
    ensures Pow(b, x + y) == Pow(b, x) * Pow(b, y)
  {
    if x > 0 {
      PowAdd(b, x - 1, y);
    }
  }

  /** A label of at most 16 characters has at most log2 16 = 4 bits per character, so it is never high-entropy. */
  lemma {:induction false} ShortLabelIsNotHighEntropy(name: string)
    requires |name| <= 16
    ensures !HighEntropy(name)
  {
    var n := |name|;
    var m := MultiplicityProduct(name, name);
    assert m >= 1;
    PowMonotoneInBase(n, 16, n);
    assert Pow(2, 4) == 16;
    PowOfPow(2, 4, n);
    assert Pow(n, n) <= Pow(2, 4 * n);
    MulMonotone(1, m, Pow(2, 4 * n));
    assert Pow(2, 4 * n) <= Pow(2, 4 * n) * m;
  }

  /** Every position of `t` holds the one character of `s`, which occurs |s| times. */
  lemma {:induction false} UniformProduct(s: string, t: string, c: char)
    requires forall i :: 0 <= i < |s| ==> s[i] == c
    requires forall i :: 0 <= i < |t| ==> t[i] == c
    ensures MultiplicityProduct(s, t) == Pow(|s|, |t|)
  {
    if |t| > 0 {
      UniformCount(s, c);
      UniformProduct(s, t[1..], c);
    }
  }

  lemma {:induction false} UniformCount(s: string, c: char)
    requires forall i :: 0 <= i < |s| ==> s[i] == c
    ensures Count(s, c) == |s|
  {
    if |s| > 0 {
      UniformCount(s[1..], c);
    }
  }

  /** A label repeating a single character has entropy zero. */
  lemma UniformLabelHasZeroEntropy(name: string)
    requires |name| > 0
    requires forall i :: 0 <= i < |name| ==> name[i] == name[0]
    ensures EntropyIs(name, 0)
  {
    UniformProduct(name, name, name[0]);
  }
}
