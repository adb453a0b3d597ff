/** The bitmask enumeration of team-A candidates in the earlier engine: every
    mask below 2^n whose population count is k, in increasing mask order, turned
    into the ascending list of its set bit positions. JavaScript's bitwise
    operators work on 32-bit integers; for n <= 30 every mask, `1 << n` and
    `1 << i` are exact, so the masks are modelled as naturals. */
module LegacyBits {

  import opened SplitSearch

  /** `1 << n` for n <= 30. */
  function Pow2(n: nat): (p: nat)
    ensures p >= 1
  {
    if n == 0 then 1 else 2 * Pow2(n - 1)
  }

  /** The number of set bits of `x`. */
  function PopCount(x: nat): nat
  {
    if x == 0 then 0 else x % 2 + PopCount(x / 2)
  }

  /** `x & (x - 1)`: `x` with its lowest set bit cleared, which is smaller and
      has one set bit fewer. */
  function ClearLowestBit(x: nat): (y: nat)
    requires x > 0
    ensures y < x && PopCount(y) == PopCount(x) - 1
  {
    if x % 2 == 1 then x - 1 else 2 * ClearLowestBit(x / 2)
  }

  /** `countBits`: clear the lowest set bit until nothing is left, counting the steps. */
  method CountBits(x: nat) returns (c: nat)
    ensures c == PopCount(x)
  {
    var rest := x;
    c := 0;
    while rest != 0
      invariant c + PopCount(rest) == PopCount(x)
      decreases rest
    {
      rest := ClearLowestBit(rest);
      c := c + 1;
    }
  }

  /** `mask & (1 << i)` is non-zero: bit `i` of `mask` is set. */
  predicate BitSet(mask: nat, i: nat)
  {
    if i == 0 then mask % 2 == 1 else BitSet(mask / 2, i - 1)
  }

  /** The positions below `n` whose bit is set, ascending, as the inner loop
      collects them. */
  function BitsBelow(mask: nat, n: nat): (bits: seq<nat>)
    ensures forall i :: 0 <= i < |bits| ==> bits[i] < n
  {
    if n == 0 then []
    else BitsBelow(mask, n - 1) + (if BitSet(mask, n - 1) then [n - 1] else [])
  }

  /** The index lists produced for the masks `0 .. m - 1`, in mask order. */
  function ChosenBelow(n: nat, k: nat, m: nat): seq<seq<nat>>
  {
    if m == 0 then []
    else ChosenBelow(n, k, m - 1) + (if PopCount(m - 1) == k then [BitsBelow(m - 1, n)] else [])
  }

  /** What `chooseIndices(n, k)` returns. */
  function Chosen(n: nat, k: nat): seq<seq<nat>>
  {
    ChosenBelow(n, k, Pow2(n))
  }

  /** `chooseIndices`: scan every mask below `1 << n`, keep those with `k` bits
      and list their bit positions. */
  method ChooseIndices(n: nat, k: nat) returns (out: seq<seq<nat>>)
    requires n <= 30
    ensures out == Chosen(n, k)
  {
    out := [];
    var total := Pow2(n);
    var mask := 0;
    while mask < total
      invariant mask <= total
      invariant out == ChosenBelow(n, k, mask)
    {
      var bits := CountBits(mask);
      if bits == k {
        var idxs := [];
        var i := 0;
        while i < n
          invariant i <= n
          invariant idxs == BitsBelow(mask, i)
        {
          if BitSet(mask, i) {
            idxs := idxs + [i];
          }
          i := i + 1;
        }
        out := out + [idxs];
      }
      mask := mask + 1;
    }
  }

  // ---------------------------------------------------------------------------
  // Bit lists and masks.

  lemma {:induction false} BitsBelowAscending(mask: nat, n: nat)
    ensures Ascending(BitsBelow(mask, n))
  {
    if n > 0 {
      BitsBelowAscending(mask, n - 1);
    }
  }

  /** The list holds exactly the set positions below `n`. */
  lemma {:induction false} BitsBelowMembers(mask: nat, n: nat, x: nat)
    ensures x in BitsBelow(mask, n) <==> x < n && BitSet(mask, x)
  {
    if n > 0 {
      BitsBelowMembers(mask, n - 1, x);
    }
  }

  /** Counting the listed positions from the lowest bit up. */
  lemma {:induction false} BitsBelowLowestCount(mask: nat, n: nat)
    ensures |BitsBelow(mask, n + 1)| == mask % 2 + |BitsBelow(mask / 2, n)|
  {
    if n > 0 {
      BitsBelowLowestCount(mask, n - 1);
      assert BitSet(mask, n) == BitSet(mask / 2, n - 1);
    }
  }

  /** There is one listed position per set bit. */
  lemma {:induction false} BitsBelowCount(mask: nat, n: nat)
    requires mask < Pow2(n)
    ensures |BitsBelow(mask, n)| == PopCount(mask)
  {
    if n > 0 {
      BitsBelowLowestCount(mask, n - 1);
      BitsBelowCount(mask / 2, n - 1);
    }
  }

  /** Below 2^n a mask is determined by its bits below `n`. */
  lemma {:induction false} BitsDetermineMask(m1: nat, m2: nat, n: nat)
    requires m1 < Pow2(n) && m2 < Pow2(n)
    requires forall i :: 0 <= i < n ==> BitSet(m1, i) == BitSet(m2, i)
    ensures m1 == m2
  {
    if n > 0 {
      assert BitSet(m1, 0) == BitSet(m2, 0);
      forall i | 0 <= i < n - 1 ensures BitSet(m1 / 2, i) == BitSet(m2 / 2, i) {
        assert BitSet(m1, i + 1) == BitSet(m2, i + 1);
      }
      BitsDetermineMask(m1 / 2, m2 / 2, n - 1);
    }
  }

  /** Different masks below 2^n list different positions. */
  lemma BitsBelowInjective(m1: nat, m2: nat, n: nat)
    requires m1 < Pow2(n) && m2 < Pow2(n) && m1 != m2
    ensures BitsBelow(m1, n) != BitsBelow(m2, n)
  {
    if BitsBelow(m1, n) == BitsBelow(m2, n) {
      forall i | 0 <= i < n ensures BitSet(m1, i) == BitSet(m2, i) {
        BitsBelowMembers(m1, n, i);
        BitsBelowMembers(m2, n, i);
      }
      BitsDetermineMask(m1, m2, n);
    }
  }

  /** No bit at or above `n` is set in a mask below 2^n. */
  lemma {:induction false} HighBitsClear(a: nat, n: nat, i: nat)
    requires a < Pow2(n) && n <= i
    ensures !BitSet(a, i)
  {
    if i > 0 && n > 0 {
      HighBitsClear(a / 2, n - 1, i - 1);
    } else if i > 0 {
      assert a == 0;
      HighBitsClear(0, 0, i - 1);
    }
  }

  /** Adding 2^k to a mask below 2^k sets bit `k` and keeps the others. */
  lemma {:induction false} AddHighBit(a: nat, k: nat, i: nat)
    requires a < Pow2(k)
    ensures BitSet(a + Pow2(k), i) == (i == k || BitSet(a, i))
  {
    if i == k {
      if k > 0 {
        AddHighBit(a / 2, k - 1, i - 1);
      }
    } else if k < i {
      if k > 0 {
        AddHighBit(a / 2, k - 1, i - 1);
      } else {
        assert a == 0;
        HighBitsClear(0, 0, i - 1);
      }
      HighBitsClear(a, k, i);
    } else if i > 0 {
      AddHighBit(a / 2, k - 1, i - 1);
    }
  }

  /** The mask whose set bits below `n` are the members of `bits`. */
  function MaskOf(bits: seq<nat>, n: nat): (mask: nat)
    ensures mask < Pow2(n)
  {
    if n == 0 then 0 else MaskOf(bits, n - 1) + (if n - 1 in bits then Pow2(n - 1) else 0)
  }

  lemma {:induction false} MaskOfBits(bits: seq<nat>, n: nat, i: nat)
    requires i < n
    ensures BitSet(MaskOf(bits, n), i) == (i in bits)
  {
    var lower := MaskOf(bits, n - 1);
    if n - 1 in bits {
      AddHighBit(lower, n - 1, i);
    }
    if i < n - 1 {
      MaskOfBits(bits, n - 1, i);
    } else if n - 1 !in bits {
      HighBitsClear(lower, n - 1, i);
    }
  }

  /** Two ascending lists with the same members are the same list. */
  lemma {:induction false} AscendingByMembers(s: seq<nat>, t: seq<nat>)
    requires Ascending(s) && Ascending(t) && forall x :: x in s <==> x in t
    ensures s == t
  {
    if s != [] && t != [] {
      assert s[0] in t && t[0] in s;
      assert s[0] == t[0];
      forall x ensures x in s[1..] <==> x in t[1..] {
        if x >= 0 {
          AscendingTail(s, x);
          AscendingTail(t, x);
        }
      }
      AscendingByMembers(s[1..], t[1..]);
      assert s == [s[0]] + s[1..] && t == [t[0]] + t[1..];
    } else {
      EmptyByMembers(s, t);
      EmptyByMembers(t, s);
    }
  }

  lemma EmptyByMembers(s: seq<nat>, t: seq<nat>)
    requires forall x :: x in s <==> x in t
    ensures s == [] ==> t == []
  {
    if t != [] {
      assert t[0] in t;
    }
  }

  lemma AscendingTail(s: seq<nat>, x: nat)
    requires Ascending(s) && s != []
    ensures x in s[1..] <==> x in s && x != s[0]
  {
    if x in s && x != s[0] {
      var i :| 0 <= i < |s| && s[i] == x;
      assert s[1..][i - 1] == x;
    }
  }

  /** Every ascending list of positions below `n` is the bit list of a mask below 2^n. */
  lemma MaskListsBits(bits: seq<nat>, n: nat)
    requires Ascending(bits) && forall i :: 0 <= i < |bits| ==> bits[i] < n
    ensures BitsBelow(MaskOf(bits, n), n) == bits
  {
    var mask := MaskOf(bits, n);
    forall x ensures x in BitsBelow(mask, n) <==> x in bits {
      if x >= 0 {
        BitsBelowMembers(mask, n, x);
        if x < n {
          MaskOfBits(bits, n, x);
        }
      }
    }
    BitsBelowAscending(mask, n);
    AscendingByMembers(BitsBelow(mask, n), bits);
  }

  // ---------------------------------------------------------------------------
  // What `chooseIndices` promises.

  /** Every list is an ascending choice of `k` positions below `n`. */
  lemma ChosenAreChoices(n: nat, k: nat, m: nat, j: nat)
    requires m <= Pow2(n) && j < |ChosenBelow(n, k, m)|
    ensures |ChosenBelow(n, k, m)[j]| == k && Ascending(ChosenBelow(n, k, m)[j])
    ensures forall i :: 0 <= i < k ==> ChosenBelow(n, k, m)[j][i] < n
  {
    var mask := ChosenFromMask(n, k, m, j);
    BitsBelowCount(mask, n);
    BitsBelowAscending(mask, n);
  }

  /** Every list comes from a mask below `m`. */
  lemma {:induction false} ChosenFromMask(n: nat, k: nat, m: nat, j: nat) returns (mask: nat)
    requires j < |ChosenBelow(n, k, m)|
    ensures mask < m && PopCount(mask) == k && ChosenBelow(n, k, m)[j] == BitsBelow(mask, n)
  {
    var before := ChosenBelow(n, k, m - 1);
    if j < |before| {
      mask := ChosenFromMask(n, k, m - 1, j);
      assert ChosenBelow(n, k, m)[j] == before[j];
    } else {
      mask := m - 1;
    }
  }

  /** No list is produced twice. */
  lemma {:induction false} ChosenAreDistinct(n: nat, k: nat, m: nat)
    requires m <= Pow2(n)
    ensures forall i, j :: 0 <= i < j < |ChosenBelow(n, k, m)| ==> ChosenBelow(n, k, m)[i] != ChosenBelow(n, k, m)[j]
  {
    if m > 0 {
      var before := ChosenBelow(n, k, m - 1);
      ChosenAreDistinct(n, k, m - 1);
      var all := ChosenBelow(n, k, m);
      forall i, j | 0 <= i < j < |all| ensures all[i] != all[j] {
        if j < |before| {
          assert all[i] == before[i] && all[j] == before[j];
        } else {
          var mi := ChosenFromMask(n, k, m - 1, i);
          assert all[i] == before[i];
          BitsBelowInjective(mi, m - 1, n);
        }
      }
    }
  }

  /** A mask below `m` with `k` bits contributes its list. */
  lemma {:induction false} ChosenIncludes(n: nat, k: nat, m: nat, mask: nat)
    requires mask < m && PopCount(mask) == k
    ensures BitsBelow(mask, n) in ChosenBelow(n, k, m)
  {
    if mask < m - 1 {
      ChosenIncludes(n, k, m - 1, mask);
    }
  }

  /** Every ascending choice of `k` positions below `n` is produced. */
  lemma ChosenAreComplete(n: nat, k: nat, bits: seq<nat>)
    requires |bits| == k && Ascending(bits) && forall i :: 0 <= i < |bits| ==> bits[i] < n
    ensures bits in Chosen(n, k)
  {
    var mask := MaskOf(bits, n);
    MaskListsBits(bits, n);
    BitsBelowCount(mask, n);
    ChosenIncludes(n, k, Pow2(n), mask);
  }
}
