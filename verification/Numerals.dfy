/** Positional numerals in any base, most significant digit first. Base58, hex and decimal text are
    built on them. */
module Numerals {

  predicate IsNumeral(base: nat, ds: seq<nat>) { forall i :: 0 <= i < |ds| ==> ds[i] < base }

  function Value(base: nat, ds: seq<nat>): (v: nat) {
    if ds == [] then 0 else Value(base, ds[..|ds| - 1]) * base + ds[|ds| - 1]
  }

  /** The numeral of `n` without leading zeros; that of zero is empty. */
  function Digits(base: nat, n: nat): (ds: seq<nat>)
    requires base >= 2
    ensures IsNumeral(base, ds)
    ensures ds != [] ==> ds[0] != 0
    ensures n > 0 ==> ds != []
  {
    if n == 0 then []
    else
      QuotientShrinks(base, n);
      Digits(base, n / base) + [n % base]
  }

  lemma MulGrows(base: nat, d: int)
    ensures d >= 1 ==> base * d >= base
    ensures d <= -1 ==> base * d <= 0 - base
  {
  }

  lemma QuotientShrinks(base: nat, n: nat)
    requires base >= 2 && n > 0
    ensures n / base < n
  {
    var q := n / base;
    assert n == base * q + n % base;
    assert base * q >= 2 * q by { assert base * q == 2 * q + (base - 2) * q; }
  }

  /** Quotient and remainder are determined by the division identity. */
  lemma QuotientUnique(base: nat, q: nat, r: nat, q': nat, r': nat)
    requires r < base && r' < base && base * q + r == base * q' + r'
    ensures q == q' && r == r'
  {
    MulGrows(base, q' - q);
    assert base * (q' - q) == base * q' - base * q;
  }

  lemma QuotientOf(base: nat, q: nat, r: nat)
    requires r < base
    ensures (q * base + r) / base == q && (q * base + r) % base == r
  {
    var n := q * base + r;
    assert n == base * (n / base) + n % base;
    assert q * base == base * q;
    QuotientUnique(base, q, r, n / base, n % base);
  }

  lemma ValueOfSnoc(base: nat, ds: seq<nat>, d: nat)
    ensures Value(base, ds + [d]) == Value(base, ds) * base + d
  {
    assert (ds + [d])[..|ds|] == ds;
  }

  lemma QuotientAndRest(base: nat, n: nat)
    requires base >= 2
    ensures n / base * base + n % base == n
  {
  }

  lemma {:induction false} ValueOfDigits(base: nat, n: nat)
    requires base >= 2
    ensures Value(base, Digits(base, n)) == n
  {
    if n > 0 {
      QuotientShrinks(base, n);
      var q, r := n / base, n % base;
      ValueOfDigits(base, q);
      ValueOfSnoc(base, Digits(base, q), r);
      QuotientAndRest(base, n);
    }
  }

  lemma {:induction false} PositiveValue(base: nat, ds: seq<nat>)
    requires base >= 2 && ds != [] && ds[0] != 0
    ensures Value(base, ds) > 0
  {
    if |ds| > 1 {
      PositiveValue(base, ds[..|ds| - 1]);
    }
  }

  lemma {:induction false} DigitsOfValue(base: nat, ds: seq<nat>)
    requires base >= 2 && IsNumeral(base, ds)
    requires ds != [] ==> ds[0] != 0
    ensures Digits(base, Value(base, ds)) == ds
  {
    if ds != [] {
      var init, last := ds[..|ds| - 1], ds[|ds| - 1];
      PositiveValue(base, ds);
      DigitsOfValue(base, init);
      QuotientOf(base, Value(base, init), last);
      assert ds == init + [last];
    }
  }

  function Zeros(k: nat): (zs: seq<nat>)
    ensures |zs| == k && forall i :: 0 <= i < k ==> zs[i] == 0
  {
    if k == 0 then [] else [0] + Zeros(k - 1)
  }

  lemma {:induction false} LeadingZeros(base: nat, k: nat, ds: seq<nat>)
    ensures Value(base, Zeros(k) + ds) == Value(base, ds)
  {
    var all := Zeros(k) + ds;
    if ds != [] {
      assert all[..|all| - 1] == Zeros(k) + ds[..|ds| - 1];
      LeadingZeros(base, k, ds[..|ds| - 1]);
    } else if k > 0 {
      assert all[..k - 1] == Zeros(k - 1) + ds;
      LeadingZeros(base, k - 1, ds);
    }
  }

  /** How many of the first elements are zero. */
  function CountZeros(ds: seq<nat>): (k: nat)
    ensures k <= |ds| && ds == Zeros(k) + ds[k..]
    ensures k < |ds| ==> ds[k] != 0
  {
    if ds != [] && ds[0] == 0 then 1 + CountZeros(ds[1..]) else 0
  }

  lemma {:induction false} CountZerosOf(k: nat, ds: seq<nat>)
    requires ds != [] ==> ds[0] != 0
    ensures CountZeros(Zeros(k) + ds) == k
  {
    if k > 0 {
      assert (Zeros(k) + ds)[1..] == Zeros(k - 1) + ds;
      CountZerosOf(k - 1, ds);
    } else {
      assert Zeros(k) + ds == ds;
    }
  }

  /** Rewrites a numeral from one base to another, keeping its leading zeros. */
  function Rebase(from: nat, to: nat, ds: seq<nat>): (es: seq<nat>)
    requires from >= 2 && to >= 2
    ensures IsNumeral(to, es)
  {
    Zeros(CountZeros(ds)) + Digits(to, Value(from, ds))
  }

  /** Changing base and back gives the numeral again, leading zeros included. */
  lemma RebaseRoundTrip(from: nat, to: nat, ds: seq<nat>)
    requires from >= 2 && to >= 2 && IsNumeral(from, ds)
    ensures Rebase(to, from, Rebase(from, to, ds)) == ds
  {
    var k := CountZeros(ds);
    var v := Value(from, ds);
    LeadingZeros(from, k, ds[k..]);
    CountZerosOf(k, Digits(to, v));
    LeadingZeros(to, k, Digits(to, v));
    ValueOfDigits(to, v);
    DigitsOfValue(from, ds[k..]);
  }

  /** A change of base keeps the number and the count of leading zeros, and adds no other. */
  lemma RebaseMeans(from: nat, to: nat, ds: seq<nat>)
    requires from >= 2 && to >= 2 && IsNumeral(from, ds)
    ensures Value(to, Rebase(from, to, ds)) == Value(from, ds)
    ensures CountZeros(Rebase(from, to, ds)) == CountZeros(ds)
  {
    var k, v := CountZeros(ds), Value(from, ds);
    CountZerosOf(k, Digits(to, v));
    LeadingZeros(to, k, Digits(to, v));
    ValueOfDigits(to, v);
  }
}
