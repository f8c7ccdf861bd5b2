/** The collating order of `utils/string_utilities.c`: the lazily built table of
    character weights and the string comparison based on it.

    A C `char` is a signed byte here; the bytes of a string exclude 0. */
module Collation {

  const LT_MAX_CHARS := 128
  const CHAR_ORDER: string := ORDER_A_TO_H + ORDER_I_TO_P + ORDER_Q_TO_X + ORDER_Y_TO_9
  const ORDER_A_TO_H: string := "AaBbCcDdEeFfGgHh"
  const ORDER_I_TO_P: string := "IiJjKkLlMmNnOoPp"
  const ORDER_Q_TO_X: string := "QqRrSsTtUuVvWwXx"
  const ORDER_Y_TO_9: string := "YyZz$_0123456789"
  /** How many characters of 1..127 are not named in CHAR_ORDER. */
  const UNNAMED := 63

  type CChar = c: int | -128 <= c <= 127
  type CByte = c: int | -128 <= c <= 127 && c != 0 witness 1
  type CString = seq<CByte>

  /** Reading a string at or past its end gives the terminator. */
  function At(s: CString, i: nat): CChar {
    if i < |s| then s[i] else 0
  }

  predicate Named(c: int) {
    || 'A' as int <= c <= 'Z' as int
    || 'a' as int <= c <= 'z' as int
    || '0' as int <= c <= '9' as int
    || c == '$' as int
    || c == '_' as int
  }

  /** The position of a named character in CHAR_ORDER. */
  function OrderIndex(c: int): nat
    requires Named(c)
  {
    if c == '$' as int then 52
    else if c == '_' as int then 53
    else if c <= '9' as int then 54 + (c - '0' as int)
    else if c <= 'Z' as int then 2 * (c - 'A' as int)
    else 2 * (c - 'a' as int) + 1
  }

  /** How many of the characters 1..c are not named in CHAR_ORDER. */
  function Unnamed(c: int): int
    requires 0 <= c <= 127
  {
    if c < '$' as int then c
    else if c < '0' as int then c - 1
    else if c <= '9' as int then '0' as int - 2
    else if c < 'A' as int then c - 11
    else if c <= 'Z' as int then 'A' as int - 12
    else if c < '_' as int then c - 37
    else if c < 'a' as int then c - 38
    else if c <= 'z' as int then 'a' as int - 39
    else c - 64
  }

  function Weight(c: CChar): int {
    if c < 1 then c
    else if Named(c) then UNNAMED + 1 + OrderIndex(c)
    else Unnamed(c)
  }

  ghost predicate Placed(c: char, i: nat) {
    Named(c as int) && OrderIndex(c as int) == i
  }

  lemma OnlyOneAt(c: char, i: nat)
    requires Placed(c, i)
    ensures forall d :: 1 <= d <= 127 && Named(d) && OrderIndex(d) == i ==> d == c as int
  {
  }

  lemma PiecesArePlaced()
    ensures |ORDER_A_TO_H| == |ORDER_I_TO_P| == |ORDER_Q_TO_X| == |ORDER_Y_TO_9| == 16
    ensures forall i :: 0 <= i < 16 ==> Placed(ORDER_A_TO_H[i], i)
    ensures forall i :: 0 <= i < 16 ==> Placed(ORDER_I_TO_P[i], i + 16)
    ensures forall i :: 0 <= i < 16 ==> Placed(ORDER_Q_TO_X[i], i + 32)
    ensures forall i :: 0 <= i < 16 ==> Placed(ORDER_Y_TO_9[i], i + 48)
  {
  }

  lemma OrderIsPlaced()
    ensures |CHAR_ORDER| == 64
    ensures forall i :: 0 <= i < 64 ==> Placed(CHAR_ORDER[i], i)
  {
    PiecesArePlaced();
    forall i | 0 <= i < 64
      ensures Placed(CHAR_ORDER[i], i)
    {
      if i < 16 { assert CHAR_ORDER[i] == ORDER_A_TO_H[i]; }
      else if i < 32 { assert CHAR_ORDER[i] == ORDER_I_TO_P[i - 16]; }
      else if i < 48 { assert CHAR_ORDER[i] == ORDER_Q_TO_X[i - 32]; }
      else { assert CHAR_ORDER[i] == ORDER_Y_TO_9[i - 48]; }
    }
  }

  lemma PlacedIsMembership(order: string, c: int)
    requires 0 <= c <= 127 && |order| == 64
    requires forall i :: 0 <= i < 64 ==> Placed(order[i], i)
    ensures Named(c) <==> (c as char) in order
    ensures Named(c) ==> OrderIndex(c) < 64 && order[OrderIndex(c)] == c as char
  {
    if Named(c) {
      assert Placed(order[OrderIndex(c)], OrderIndex(c));
    }
  }

  /** `Named` and `OrderIndex` are membership and position in CHAR_ORDER. */
  lemma OrderIndexIsPosition(c: int)
    requires 0 <= c <= 127
    ensures |CHAR_ORDER| == 64
    ensures Named(c) <==> (c as char) in CHAR_ORDER
    ensures Named(c) ==> OrderIndex(c) < 64 && CHAR_ORDER[OrderIndex(c)] == c as char
  {
    OrderIsPlaced();
    PlacedIsMembership(CHAR_ORDER, c);
  }

  lemma Weighed(c: int)
    requires 1 <= c <= 127
    ensures 1 <= Weight(c) <= 127 && Unweigh(Weight(c)) == c
  {
  }

  lemma Unweighed(w: int)
    requires 1 <= w <= 127
    ensures 1 <= Unweigh(w) <= 127 && Weight(Unweigh(w)) == w
  {
  }

  /** The weights of 1..127 are a permutation of 1..127, named characters last and in CHAR_ORDER. */
  lemma WeightIsBijection()
    ensures forall c :: 1 <= c <= 127 ==> 1 <= Weight(c) <= 127 && Unweigh(Weight(c)) == c
    ensures forall w :: 1 <= w <= 127 ==> 1 <= Unweigh(w) <= 127 && Weight(Unweigh(w)) == w
    ensures forall i :: 0 <= i < |CHAR_ORDER| ==>
                          1 <= CHAR_ORDER[i] as int <= 127 && Weight(CHAR_ORDER[i] as int) == 128 - |CHAR_ORDER| + i
    ensures forall c: CChar, d: CChar :: 1 <= c < d && !Named(c) && !Named(d) ==> Weight(c) < Weight(d)
  {
    forall c | 1 <= c <= 127 ensures 1 <= Weight(c) <= 127 && Unweigh(Weight(c)) == c {
      Weighed(c);
    }
    forall w | 1 <= w <= 127 ensures 1 <= Unweigh(w) <= 127 && Weight(Unweigh(w)) == w {
      Unweighed(w);
    }
    OrderIsPlaced();
    assert forall i :: 0 <= i < |CHAR_ORDER| ==> Placed(CHAR_ORDER[i], i);
  }

  /** The end of a string and the negative bytes come before every other character, in their own order. */
  lemma WeightBelowOne(c: CChar, d: CChar)
    requires c < 1
    ensures Weight(c) < Weight(d) <==> c < d
  {
    WeightIsBijection();
  }

  lemma WeightIsInjective(c: CChar, d: CChar)
    requires Weight(c) == Weight(d)
    ensures c == d
  {
    WeightIsBijection();
    if 1 <= c && 1 <= d {
      assert Unweigh(Weight(c)) == c && Unweigh(Weight(d)) == d;
    }
  }

  /** The character of a given weight. */
  ghost function Unweigh(w: int): int {
    if w < '$' as int then w
    else if w < '0' as int - 1 then w + 1
    else if w < 54 then w + 11
    else if w < 58 then w + 37
    else if w == 58 then 96
    else if w <= UNNAMED then w + 64
    else if w <= UNNAMED + 52 then
      (if (w - UNNAMED) % 2 == 1 then 'A' as int else 'a' as int) + (w - UNNAMED - 1) / 2
    else if w == UNNAMED + 53 then '$' as int
    else if w == UNNAMED + 54 then '_' as int
    else w - UNNAMED - 55 + '0' as int
  }

  // ---- The order on strings ----

  /** a comes before b: at the first place they differ, a has the smaller weight. */
  ghost predicate Precedes(a: CString, b: CString) {
    exists k: nat :: PrecedesAt(a, b, k)
  }

  ghost predicate PrecedesAt(a: CString, b: CString, k: nat) {
    && k <= |a| && k <= |b|
    && a[..k] == b[..k]
    && Weight(At(a, k)) < Weight(At(b, k))
  }

  lemma PrecedesIsIrreflexive(a: CString)
    ensures !Precedes(a, a)
  {
  }

  lemma PrecedesIsTransitive(a: CString, b: CString, c: CString)
    requires Precedes(a, b) && Precedes(b, c)
    ensures Precedes(a, c)
  {
    var j: nat :| PrecedesAt(a, b, j);
    var k: nat :| PrecedesAt(b, c, k);
    var m := if j < k then j else k;
    assert a[..m] == a[..j][..m] == b[..j][..m] == b[..m];
    assert b[..m] == b[..k][..m] == c[..k][..m] == c[..m];
    if j < k {
      assert b[..k][j] == c[..k][j];
    } else if k < j {
      assert a[..j][k] == b[..j][k];
    }
    assert PrecedesAt(a, c, m);
  }

  /** The first index at which two strings, terminators included, differ. */
  function FirstDifference(a: CString, b: CString, from: nat): (k: nat)
    requires from <= |a| && from <= |b| && a[..from] == b[..from] && a != b
    ensures from <= k <= |a| && k <= |b| && a[..k] == b[..k] && At(a, k) != At(b, k)
    decreases |a| - from
  {
    if At(a, from) != At(b, from) then from
    else
      assert from < |a| && from < |b|;
      assert a[..from + 1] == a[..from] + [a[from]] == b[..from + 1];
      FirstDifference(a, b, from + 1)
  }

  /** Different strings are always ordered, one way and not the other. */
  lemma PrecedesIsTotal(a: CString, b: CString)
    requires a != b
    ensures Precedes(a, b) <==> !Precedes(b, a)
    ensures Precedes(a, b) <==> Weight(At(a, FirstDifference(a, b, 0))) < Weight(At(b, FirstDifference(a, b, 0)))
  {
    var k := FirstDifference(a, b, 0);
    if Weight(At(a, k)) == Weight(At(b, k)) {
      WeightIsInjective(At(a, k), At(b, k));
    }
    assert PrecedesAt(a, b, k) || PrecedesAt(b, a, k);
    if Precedes(a, b) && Precedes(b, a) {
      PrecedesIsTransitive(a, b, a);
      PrecedesIsIrreflexive(a);
    }
  }

  /** A string that goes on behind another comes after it, unless it goes on with a negative byte. */
  lemma LongerExactly(a: CString, b: CString)
    requires |a| < |b| && b[..|a|] == a
    ensures Precedes(a, b) <==> b[|a|] > 0
  {
    var k := |a|;
    WeightBelowOne(0, At(b, k));
    assert Weight(At(b, k)) != Weight(At(a, k)) by {
      if Weight(At(b, k)) == Weight(At(a, k)) {
        WeightIsInjective(At(b, k), At(a, k));
      }
    }
    assert PrecedesAt(a, b, k) || PrecedesAt(b, a, k);
    PrecedesIsTotal(a, b);
  }

  // ---- The C code ----

  /** The static variables of getCharWeight: the table is filled at the first call. */
  class CharWeights {
    var initialized: bool
    const lookupTable: array<int>

    ghost predicate Valid()
      reads this, lookupTable
    {
      && lookupTable.Length == LT_MAX_CHARS + 1
      && (initialized ==> forall c :: 1 <= c <= 127 ==> lookupTable[c] == Weight(c))
    }

    constructor ()
      ensures Valid() && fresh(lookupTable)
    {
      initialized := false;
      lookupTable := new int[LT_MAX_CHARS + 1](_ => 0);
    }

    method GetCharWeight(c: CChar) returns (w: int)
      requires Valid()
      modifies this, lookupTable
      ensures Valid() && initialized
      ensures w == Weight(c)
    {
      if !initialized {
        Initialize();
      }
      if c < 1 || c > LT_MAX_CHARS {
        return c;
      } else {
        return lookupTable[c];
      }
    }

    method Initialize()
      requires Valid() && !initialized
      modifies this, lookupTable
      ensures Valid() && initialized
    {
      var weight := 1;
      for ltIndex := 1 to LT_MAX_CHARS
        invariant weight == Unnamed(ltIndex - 1) + 1
        invariant forall c :: 1 <= c < ltIndex && !Named(c) ==> lookupTable[c] == Weight(c)
        invariant !initialized
      {
        OrderIndexIsPosition(ltIndex);
        if (ltIndex as char) in CHAR_ORDER {
          continue;
        }
        lookupTable[ltIndex] := weight;
        weight := weight + 1;
      }
      OrderIsPlaced();
      var charIndex := 0;
      while charIndex < |CHAR_ORDER|
        invariant charIndex <= 64 && weight == UNNAMED + 1 + charIndex
        invariant forall c :: 1 <= c <= 127 && (Named(c) ==> OrderIndex(c) < charIndex) ==> lookupTable[c] == Weight(c)
        invariant !initialized
      {
        var c := CHAR_ORDER[charIndex];
        assert Placed(c, charIndex);
        OnlyOneAt(c, charIndex);
        lookupTable[c as int] := weight;
        weight := weight + 1;
        charIndex := charIndex + 1;
      }
      initialized := true;
    }

    method CompareChars(a: CChar, b: CChar) returns (diff: int)
      requires Valid()
      modifies this, lookupTable
      ensures Valid()
      ensures diff == Weight(a) - Weight(b)
    {
      var wa := GetCharWeight(a);
      var wb := GetCharWeight(b);
      diff := wa - wb;
    }

    /** The source subtracts two addresses for equal strings, here `tie`. */
    method CompareStrings(a: CString, b: CString, tie: int) returns (diff: int)
      requires Valid()
      modifies this, lookupTable
      ensures Valid()
      ensures a == b ==> diff == tie
      ensures a != b ==> (diff < 0 <==> Precedes(a, b)) && (diff > 0 <==> Precedes(b, a))
    {
      var i: nat := 0;
      diff := CompareChars(At(a, 0), At(b, 0));
      while diff == 0
        invariant Valid() && i <= |a| && i <= |b| && a[..i] == b[..i]
        invariant diff == Weight(At(a, i)) - Weight(At(b, i))
        decreases |a| - i + |b| - i
      {
        WeightIsInjective(At(a, i), At(b, i));
        if At(a, i) == 0 || At(b, i) == 0 {
          assert a == a[..i] == b[..i] == b;
          return tie;
        }
        assert a[..i + 1] == a[..i] + [a[i]] == b[..i + 1];
        i := i + 1;
        diff := CompareChars(At(a, i), At(b, i));
      }
      if diff < 0 {
        assert PrecedesAt(a, b, i);
      } else {
        assert PrecedesAt(b, a, i);
      }
      assert a != b;
      PrecedesIsTotal(a, b);
    }
  }
}
