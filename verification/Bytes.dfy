/** Bytes, optional values and the fixed-width little-endian numbers that every
    record, frame and block of the toolkit is built from. */
module Bytes {

  newtype byte = b: int | 0 <= b < 256

  type bytes = seq<byte>

  datatype Option<+T> = None | Some(value: T)

  /** One more than the largest `size_t` and `uint64_t`. */
  const WORD: nat := 0x1_0000_0000_0000_0000

  /** One more than the largest `int32_t`. */
  const INT32_LIMIT: nat := 0x8000_0000

  function Min(a: nat, b: nat): nat {
    if a < b then a else b
  }

  function Pow256(k: nat): (p: nat)
    ensures p >= 1
  {
    if k == 0 then 1 else 256 * Pow256(k - 1)
  }

  /** The low `k` bytes of `n`, least significant first. */
  function LittleEndian(n: nat, k: nat): (s: bytes)
    ensures |s| == k
  {
    if k == 0 then [] else [(n % 256) as byte] + LittleEndian(n / 256, k - 1)
  }

  function FromLittleEndian(s: bytes): nat {
    if s == [] then 0 else s[0] as nat + 256 * FromLittleEndian(s[1..])
  }

  lemma {:induction false} LittleEndianRoundTrip(n: nat, k: nat)
    requires n < Pow256(k)
    ensures FromLittleEndian(LittleEndian(n, k)) == n
  {
    if k > 0 {
      LittleEndianRoundTrip(n / 256, k - 1);
      assert LittleEndian(n, k)[1..] == LittleEndian(n / 256, k - 1);
    }
  }

  lemma {:induction false} FromLittleEndianBound(s: bytes)
    ensures FromLittleEndian(s) < Pow256(|s|)
  {
    if s != [] {
      FromLittleEndianBound(s[1..]);
    }
  }

  lemma WordSizes()
    ensures Pow256(8) == WORD
    ensures Pow256(4) == 0x1_0000_0000
  {
  }

  /** The 8-byte image of a `size_t`. */
  function Word(n: nat): (s: bytes)
    ensures |s| == 8
  {
    LittleEndian(n, 8)
  }

  lemma WordRoundTrip(n: nat)
    requires n < WORD
    ensures FromLittleEndian(Word(n)) == n
  {
    WordSizes();
    LittleEndianRoundTrip(n, 8);
  }

  lemma WordBound(s: bytes)
    requires |s| == 8
    ensures FromLittleEndian(s) < WORD
  {
    WordSizes();
    FromLittleEndianBound(s);
  }

  function Reverse<T>(s: seq<T>): (r: seq<T>)
    ensures |r| == |s|
    ensures forall k :: 0 <= k < |s| ==> r[k] == s[|s| - 1 - k]
  {
    if s == [] then [] else Reverse(s[1..]) + [s[0]]
  }

  lemma ReverseTwice<T>(s: seq<T>)
    ensures Reverse(Reverse(s)) == s
  {
  }

  lemma Associative<T>(a: seq<T>, b: seq<T>, c: seq<T>)
    ensures (a + b) + c == a + (b + c)
  {
  }

  /** `a` is `b` with some elements left out. */
  predicate Subsequence<T(==)>(a: seq<T>, b: seq<T>)
    decreases |b|
  {
    a == [] ||
    (b != [] &&
     (Subsequence(a, b[..|b| - 1])
      || (a[|a| - 1] == b[|b| - 1] && Subsequence(a[..|a| - 1], b[..|b| - 1]))))
  }

  lemma SubsequenceLast<T>(a: seq<T>, b: seq<T>, x: T)
    requires Subsequence(a, b)
    ensures Subsequence(a + [x], b + [x])
  {
  }

  lemma {:induction false} SubsequenceOfLonger<T>(a: seq<T>, b: seq<T>, c: seq<T>)
    requires Subsequence(a, b)
    ensures Subsequence(a, b + c)
    decreases |c|
  {
    if c == [] {
      assert b + c == b;
    } else {
      SubsequenceOfLonger(a, b, c[..|c| - 1]);
      assert (b + c)[..|b + c| - 1] == b + c[..|c| - 1];
    }
  }

  predicate Distinct<T(==)>(s: seq<T>) {
    forall i, j :: 0 <= i < j < |s| ==> s[i] != s[j]
  }

  lemma {:induction false} SubsequenceMembers<T>(a: seq<T>, b: seq<T>)
    requires Subsequence(a, b)
    ensures forall x :: x in a ==> x in b
    ensures Distinct(b) ==> Distinct(a)
    decreases |b|
  {
    if a != [] {
      var c, d := a[..|a| - 1], b[..|b| - 1];
      if Subsequence(a, d) {
        SubsequenceMembers(a, d);
      } else {
        SubsequenceMembers(c, d);
        assert b == d + [b[|b| - 1]] && a == c + [a[|a| - 1]];
        if Distinct(b) {
          assert a[|a| - 1] !in d;
        }
      }
    }
  }

  /** A list without repetition has as many elements as its set. */
  lemma {:induction false} SizeOfDistinct<T>(s: seq<T>)
    requires Distinct(s)
    ensures |set x | x in s| == |s|
    decreases |s|
  {
    if s != [] {
      var rest, last := s[..|s| - 1], s[|s| - 1];
      SizeOfDistinct(rest);
      assert (set x | x in s) == (set x | x in rest) + {last};
      assert last !in rest;
    }
  }

  /** How many elements a selection leaves out. */
  lemma SizeOfRest<T>(kept: seq<T>, all: seq<T>, dropped: set<T>)
    requires Distinct(kept) && Distinct(all) && (forall x :: x in kept ==> x in all)
    requires forall x :: x in dropped <==> x in all && x !in kept
    ensures |dropped| == |all| - |kept|
  {
    SizeOfDistinct(kept);
    SizeOfDistinct(all);
    assert dropped == (set x | x in all) - (set x | x in kept);
  }

  /** The bytes of a number, least significant first. */
  lemma {:induction false} LittleEndianAt(n: nat, k: nat, i: nat)
    requires i < k
    ensures LittleEndian(n, k)[i] as int == n / Pow256(i) % 256
  {
    if i > 0 {
      LittleEndianAt(n / 256, k - 1, i - 1);
      DivideTwice(n, Pow256(i - 1));
    }
  }

  lemma DivideTwice(n: nat, d: nat)
    requires d > 0
    ensures n / 256 / d == n / (256 * d)
  {
    var q, r := n / 256 / d, n / 256 % d;
    assert n / 256 == q * d + r;
    assert n == 256 * (q * d + r) + n % 256;
    QuotientOf(n, 256 * d, q, 256 * r + n % 256);
  }

  lemma QuotientOf(n: nat, d: nat, q: nat, r: nat)
    requires r < d && n == q * d + r
    ensures n / d == q
  {
    Monotone(q, n / d + 1, d);
    Monotone(n / d, q + 1, d);
  }

  lemma Monotone(a: nat, b: nat, d: nat)
    ensures a >= b ==> a * d >= b * d
  {
  }
}
