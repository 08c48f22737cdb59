/** Identifiers derived from a count: `prefix + str(n)`, as the services
    build `order_<n>` and `del_<n>` with n = size of the store + 1. */
module Ids {

  function DigitChar(d: nat): (c: char)
    requires d < 10
    ensures '0' <= c <= '9' && c as int - '0' as int == d
  {
    ('0' as int + d) as char
  }

  /** Decimal rendering of a natural number, without sign or leading zeros. */
  function NatToString(n: nat): (s: string)
    ensures 1 <= |s|
    ensures forall i :: 0 <= i < |s| ==> '0' <= s[i] <= '9'
    ensures n < 10 <==> |s| == 1
    ensures s[0] == '0' ==> n == 0
  {
    if n < 10 then [DigitChar(n)] else NatToString(n / 10) + [DigitChar(n % 10)]
  }

  /** Reads a string of decimal digits back as a number. */
  function DigitsToNat(s: string): nat
    requires forall i :: 0 <= i < |s| ==> '0' <= s[i] <= '9'
  {
    if |s| == 0 then 0
    else DigitsToNat(s[..|s| - 1]) * 10 + (s[|s| - 1] as int - '0' as int)
  }

  /** Rendering a number in decimal loses nothing. */
  lemma {:induction false} DigitsToNatToString(n: nat)
    ensures DigitsToNat(NatToString(n)) == n
  {
    if n >= 10 {
      var s := NatToString(n);
      assert s[..|s| - 1] == NatToString(n / 10);
      DigitsToNatToString(n / 10);
    }
  }

  /** The identifier issued for count `n`. */
  function Key(prefix: string, n: nat): string
  {
    prefix + NatToString(n)
  }

  /** Distinct counts give distinct identifiers. */
  lemma KeyInjective(prefix: string, a: nat, b: nat)
    requires Key(prefix, a) == Key(prefix, b)
    ensures a == b
  {
    assert NatToString(a) == Key(prefix, a)[|prefix|..];
    assert NatToString(b) == Key(prefix, b)[|prefix|..];
    DigitsToNatToString(a);
    DigitsToNatToString(b);
  }

  /** Every key of `m` was issued with a count no larger than the size of `m`:
      the keys are those the count scheme produces when entries are only ever
      added, one per call. */
  ghost predicate Issued<V>(m: map<string, V>, prefix: string)
  {
    forall k :: k in m ==> exists i :: 1 <= i <= |m| && k == Key(prefix, i)
  }

  /** Under `Issued`, the next count-derived key is not yet taken. */
  lemma FreshKey<V>(m: map<string, V>, prefix: string)
    requires Issued(m, prefix)
    ensures Key(prefix, |m| + 1) !in m
  {
    var k := Key(prefix, |m| + 1);
    if k in m {
      var i :| 1 <= i <= |m| && k == Key(prefix, i);
      KeyInjective(prefix, i, |m| + 1);
      assert false;
    }
  }

  /** Inserting under the next count-derived key grows the store by one and
      keeps `Issued`. */
  lemma IssuedAfterInsert<V>(m: map<string, V>, prefix: string, v: V)
    requires Issued(m, prefix)
    ensures |m[Key(prefix, |m| + 1) := v]| == |m| + 1
    ensures Issued(m[Key(prefix, |m| + 1) := v], prefix)
  {
    var k := Key(prefix, |m| + 1);
    FreshKey(m, prefix);
    var m' := m[k := v];
    assert m'.Keys == m.Keys + {k};
    IssuedExtend(m, m', prefix, k);
  }

  /** A store one larger than an `Issued` one, whose only new key is the one
      issued for its own size, is `Issued`. */
  lemma IssuedExtend<V>(m: map<string, V>, m': map<string, V>, prefix: string, k: string)
    requires Issued(m, prefix)
    requires k !in m && m'.Keys == m.Keys + {k}
    requires k == Key(prefix, |m| + 1)
    ensures |m'| == |m| + 1
    ensures Issued(m', prefix)
  {
    assert |m'.Keys| == |m.Keys| + 1;
    forall k' | k' in m'
      ensures exists i :: 1 <= i <= |m'| && k' == Key(prefix, i)
    {
      if k' == k {
        assert k' == Key(prefix, |m'|);
      } else {
        var i :| 1 <= i <= |m| && k' == Key(prefix, i);
        assert 1 <= i <= |m'|;
      }
    }
  }
}
