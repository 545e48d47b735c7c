/** Byte strings and the comparison that the containers sort and search by.

    Names, passwords, keys and packets are all modelled as sequences of bytes; a C pointer
    together with its size field becomes one value. */
module ByteStrings {

  datatype Option<+T> = None | Some(value: T) {
    function GetOr(default: T): T { if Some? then value else default }
  }

  type Byte = b: int | 0 <= b < 256

  type Bytes = seq<Byte>

  /** The bytes of a C string literal. */
  function Ascii(s: string): (b: Bytes)
    ensures |b| == |s|
  {
    seq(|s|, i requires 0 <= i < |s| => (s[i] as int) % 256)
  }

  /** memcmp over the first n bytes of both arguments, reduced to its sign. */
  function MemCmp(a: Bytes, b: Bytes, n: nat): (r: int)
    requires n <= |a| && n <= |b|
    ensures -1 <= r <= 1
  {
    if n == 0 then 0
    else if a[0] < b[0] then -1
    else if a[0] > b[0] then 1
    else MemCmp(a[1..], b[1..], n - 1)
  }

  function Min(a: nat, b: nat): nat { if a < b then a else b }

  /** data_compare without an installed callback: the common prefix first, then the sizes. */
  function Compare(a: Bytes, b: Bytes): int {
    var prefix := MemCmp(a, b, Min(|a|, |b|));
    if prefix != 0 then prefix
    else if |a| < |b| then -1
    else if |a| > |b| then 1
    else 0
  }

  predicate Less(a: Bytes, b: Bytes) { Compare(a, b) < 0 }

  /** memcmp answers 0 exactly on equal prefixes. */
  lemma {:induction false} MemCmpZero(a: Bytes, b: Bytes, n: nat)
    requires n <= |a| && n <= |b|
    ensures MemCmp(a, b, n) == 0 <==> a[..n] == b[..n]
  {
    if n > 0 {
      MemCmpZero(a[1..], b[1..], n - 1);
      assert a[..n] == [a[0]] + a[1..][..n - 1] && b[..n] == [b[0]] + b[1..][..n - 1];
    }
  }

  lemma {:induction false} MemCmpSwap(a: Bytes, b: Bytes, n: nat)
    requires n <= |a| && n <= |b|
    ensures MemCmp(a, b, n) == -MemCmp(b, a, n)
  {
    if n > 0 {
      MemCmpSwap(a[1..], b[1..], n - 1);
    }
  }

  /** A shared first byte can be dropped from both arguments. */
  lemma CompareTail(a: Bytes, b: Bytes)
    requires |a| > 0 && |b| > 0 && a[0] == b[0]
    ensures Compare(a, b) == Compare(a[1..], b[1..])
  {
    assert Min(|a|, |b|) - 1 == Min(|a[1..]|, |b[1..]|);
  }

  lemma CompareZero(a: Bytes, b: Bytes)
    ensures Compare(a, b) == 0 <==> a == b
  {
    MemCmpZero(a, b, Min(|a|, |b|));
  }

  lemma CompareSwap(a: Bytes, b: Bytes)
    ensures Compare(a, b) == -Compare(b, a)
  {
    MemCmpSwap(a, b, Min(|a|, |b|));
  }

  lemma {:induction false} CompareTransitive(a: Bytes, b: Bytes, c: Bytes)
    requires Less(a, b) && Less(b, c)
    ensures Less(a, c)
  {
    if |a| > 0 && |b| > 0 && |c| > 0 && a[0] == b[0] && b[0] == c[0] {
      CompareTail(a, b);
      CompareTail(b, c);
      CompareTail(a, c);
      CompareTransitive(a[1..], b[1..], c[1..]);
    }
  }

  /** The comparison is a strict total order on byte strings: exactly one of less, equal and greater
      holds, and less is transitive. */
  lemma CompareIsStrictTotalOrder(a: Bytes, b: Bytes, c: Bytes)
    ensures Compare(a, b) == 0 <==> a == b
    ensures Less(b, a) <==> Compare(a, b) > 0
    ensures !Less(a, a)
    ensures Less(a, b) && Less(b, c) ==> Less(a, c)
  {
    CompareZero(a, b);
    CompareZero(a, a);
    CompareSwap(a, b);
    if Less(a, b) && Less(b, c) {
      CompareTransitive(a, b, c);
    }
  }

  /** Compare is the dictionary order: a precedes b exactly when, after their longest common prefix,
      a has ended or continues with the smaller byte. */
  lemma {:induction false} CompareIsDictionaryOrder(a: Bytes, b: Bytes)
    ensures Less(a, b) <==>
            exists k: nat :: k <= |a| && k < |b| && a[..k] == b[..k] && (k == |a| || a[k] < b[k])
  {
    if |a| > 0 && |b| > 0 && a[0] == b[0] {
      CompareTail(a, b);
      CompareIsDictionaryOrder(a[1..], b[1..]);
      if k: nat :| k <= |a| && k < |b| && a[..k] == b[..k] && (k == |a| || a[k] < b[k]) {
        assert a[1..][..k - 1] == a[..k][1..] && b[1..][..k - 1] == b[..k][1..];
        assert k - 1 == |a[1..]| || a[1..][k - 1] < b[1..][k - 1];
      }
      if k: nat :| k <= |a[1..]| && k < |b[1..]| && a[1..][..k] == b[1..][..k]
                   && (k == |a[1..]| || a[1..][k] < b[1..][k]) {
        assert a[..k + 1] == [a[0]] + a[1..][..k] && b[..k + 1] == [b[0]] + b[1..][..k];
        assert k + 1 == |a| || a[k + 1] < b[k + 1];
      }
    } else if |b| > 0 && (|a| == 0 || a[0] < b[0]) {
      assert a[..0] == b[..0];
    } else {
      forall k: nat | 0 < k <= |a| && k < |b|
        ensures a[..k] != b[..k]
      {
        assert a[..k][0] == a[0] && b[..k][0] == b[0];
      }
    }
  }
}
