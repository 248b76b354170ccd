/**
 The order in which the members of an object are written once its keys have been sorted and assigned one by one
 (utils/helpers.ts:13-27): array indices first, by number, then the other keys by code units.
 */
module PropertyOrder {
  import opened CanonicalJson
  import opened Ordering

  // ---------- Decimals ----------

  function Digit(n: nat): char
    requires n < 10
  {
    '0' + n as char
  }

  function Decimal(n: nat): string {
    if n < 10 then [Digit(n)] else Decimal(n / 10) + [Digit(n % 10)]
  }

  function Value(s: string): int {
    if s == [] then 0 else 10 * Value(s[..|s| - 1]) + (s[|s| - 1] as int - '0' as int)
  }

  function Pow10(n: nat): nat {
    if n == 0 then 1 else 10 * Pow10(n - 1)
  }

  /** Digits without a leading zero. */
  predicate Numeral(s: string) {
    s != [] && Digits(s) && (s == "0" || s[0] != '0')
  }

  lemma {:induction false} DecimalIsNumeral(n: nat)
    ensures Numeral(Decimal(n)) && Value(Decimal(n)) == n && (n > 0 ==> Decimal(n)[0] != '0')
  {
    if n < 10 {
      assert [Digit(n)][..0] == [];
    } else {
      DecimalIsNumeral(n / 10);
      var front := Decimal(n / 10);
      assert Decimal(n)[..|front|] == front && Decimal(n)[0] == front[0];
    }
  }

  lemma {:induction false} NumeralIsDecimal(s: string)
    requires Numeral(s)
    ensures Value(s) >= 0 && Decimal(Value(s)) == s && (s[0] != '0' ==> Value(s) > 0)
    decreases |s|
  {
    var front, last := s[..|s| - 1], s[|s| - 1];
    assert s == front + [last] && last in s;
    assert Value(s) == 10 * Value(front) + (last as int - '0' as int);
    if front == [] {
      assert Value(front) == 0;
    } else {
      forall c <- front ensures c in s {}
      assert front[0] == s[0] && front != "0";
      NumeralIsDecimal(front);
      LastPlace(Value(front), last as int - '0' as int);
      hide Value, Digits;
      assert Decimal(Value(s)) == Decimal(Value(front)) + [last];
    }
  }

  lemma LastPlace(v: nat, d: nat)
    requires d < 10
    ensures (10 * v + d) / 10 == v && (10 * v + d) % 10 == d
  {
  }

  lemma {:induction false} ValueBounds(s: string)
    requires Digits(s)
    ensures 0 <= Value(s) < Pow10(|s|)
    ensures s != [] && s[0] != '0' ==> Pow10(|s| - 1) <= Value(s)
    decreases |s|
  {
    if s != [] {
      var front, last := s[..|s| - 1], s[|s| - 1];
      assert last in s;
      forall c <- front ensures c in s {}
      ValueBounds(front);
    }
  }

  lemma {:induction false} PowersGrow(m: nat, n: nat)
    requires m <= n
    ensures 1 <= Pow10(m) <= Pow10(n)
    decreases n
  {
    if m < n { PowersGrow(m, n - 1); } else if m > 0 { PowersGrow(m - 1, n - 1); }
  }

  /** Among strings of one length the last place decides only where the places before it agree. */
  lemma {:induction false} BeforeByFront(a: string, b: string)
    requires |a| == |b| > 0
    ensures var n := |a| - 1; Before(a, b) <==> Before(a[..n], b[..n]) || (a[..n] == b[..n] && a[n] < b[n])
  {
    var n := |a| - 1;
    if n > 0 {
      BeforeByFront(a[1..], b[1..]);
      assert a[..n] == [a[0]] + a[1..][..n - 1] && b[..n] == [b[0]] + b[1..][..n - 1];
      assert a[..n][1..] == a[1..][..n - 1] && b[..n][1..] == b[1..][..n - 1];
    }
  }

  lemma {:induction false} BeforeByValue(a: string, b: string)
    requires |a| == |b| && Digits(a) && Digits(b)
    ensures Before(a, b) <==> Value(a) < Value(b)
    ensures Value(a) == Value(b) ==> a == b
    decreases |a|
  {
    if a != [] {
      var n := |a| - 1;
      assert a[n] in a && b[n] in b;
      assert Digits(a[..n]) by { forall c <- a[..n] ensures c in a {} }
      assert Digits(b[..n]) by { forall c <- b[..n] ensures c in b {} }
      BeforeByFront(a, b);
      BeforeByValue(a[..n], b[..n]);
      BeforeByValue(b[..n], a[..n]);
      assert a == a[..n] + [a[n]] && b == b[..n] + [b[n]];
    }
  }

  /** The order of numerals is that of their numbers. */
  lemma NumeralsInOrder(a: string, b: string)
    requires Numeral(a) && Numeral(b)
    ensures |a| < |b| || (|a| == |b| && Before(a, b)) <==> Value(a) < Value(b)
  {
    ValueBounds(a);
    ValueBounds(b);
    if |a| == |b| {
      BeforeByValue(a, b);
    } else if |a| < |b| {
      PowersGrow(|a|, |b| - 1);
    } else {
      PowersGrow(|b|, |a| - 1);
    }
  }

  // ---------- Array indices ----------

  predicate AtIndex(s: string, n: nat) {
    n <= 4294967294 && s == Decimal(n)
  }

  /** A key is kept as an array index exactly when it is the decimal of a number up to 2^32 - 2. */
  lemma IndexMeans(s: string)
    ensures IsIndex(s) <==> exists n: nat :: AtIndex(s, n)
  {
    var limit := "4294967295";
    LimitIs();
    if IsIndex(s) {
      assert Numeral(s);
      NumeralIsDecimal(s);
      NumeralsInOrder(s, limit);
      assert AtIndex(s, Value(s));
    }
    if n: nat :| AtIndex(s, n) {
      DecimalIsNumeral(n);
      NumeralsInOrder(s, limit);
    }
  }

  lemma LimitIs()
    ensures Numeral("4294967295") && Value("4294967295") == 4294967295
  {
    var s := "4294967295";
    assert s[..9] == "429496729" && s[..9][..8] == "42949672" && s[..9][..8][..7] == "4294967";
    assert "4294967"[..6] == "429496" && "429496"[..5] == "42949" && "42949"[..4] == "4294" && "4294"[..3] == "429";
    assert "429"[..2] == "42" && "42"[..1] == "4" && "4"[..0] == "";
    assert Value("") == 0;
    assert Value("4") == 4;
    assert Value("42") == 42;
    assert Value("429") == 429;
    assert Value("4294") == 4294;
    assert Value("42949") == 42949;
    assert Value("429496") == 429496;
    assert Value("4294967") == 4294967;
    assert Value("42949672") == 42949672;
    assert Value("429496729") == 429496729;
  }

  // ---------- The keys of a sorted object ----------

  /** Indices by number before the rest by code units. */
  ghost predicate WrittenBefore(a: string, b: string) {
    || (exists m: nat, n: nat :: AtIndex(a, m) && AtIndex(b, n) && m < n)
    || ((exists m: nat :: AtIndex(a, m)) && forall n: nat :: !AtIndex(b, n))
    || ((forall n: nat :: !AtIndex(a, n) && !AtIndex(b, n)) && Before(a, b))
  }

  lemma KeyBeforeMeans(a: string, b: string)
    ensures KeyBefore(a, b) <==> WrittenBefore(a, b)
  {
    IndexMeans(a);
    IndexMeans(b);
    if IsIndex(a) && IsIndex(b) {
      var m: nat :| AtIndex(a, m);
      var n: nat :| AtIndex(b, n);
      DecimalIsNumeral(m);
      DecimalIsNumeral(n);
      NumeralsInOrder(a, b);
      forall x: nat | AtIndex(a, x) ensures x == m { DecimalIsNumeral(x); }
      forall y: nat | AtIndex(b, y) ensures y == n { DecimalIsNumeral(y); }
      hide Decimal, AtIndex;
    }
  }

  function KeyList(ms: Members): seq<string> {
    if ms.NoMember? then [] else [ms.key] + KeyList(ms.rest)
  }

  lemma {:induction false} ListedKeys(ms: Members, k: string)
    ensures k in KeyList(ms) <==> k in Keys(ms)
  {
    if ms.Member? { ListedKeys(ms.rest, k); }
  }

  lemma {:induction false} AscendingInOrder(ms: Members, i: nat, j: nat)
    requires AscendingKeys(ms) && i < j < |KeyList(ms)|
    ensures WrittenBefore(KeyList(ms)[i], KeyList(ms)[j])
  {
    if i == 0 {
      var k := KeyList(ms.rest)[j - 1];
      ListedKeys(ms.rest, k);
      FirstIsLeast(ms, k);
      KeyBeforeMeans(ms.key, k);
    } else {
      AscendingInOrder(ms.rest, i - 1, j - 1);
    }
  }

  /** In the sorted form of an object the array indices come first, by number, and then the rest by code units. */
  lemma SortedInOrder(ms: Members, i: nat, j: nat)
    requires WellFormedMembers(ms) && i < j < |KeyList(SortMembers(ms))|
    ensures WrittenBefore(KeyList(SortMembers(ms))[i], KeyList(SortMembers(ms))[j])
  {
    StrippedMembersSortSame(ms);
    SortMembersAscends(StrippedMembers(ms));
    AscendingInOrder(SortMembers(ms), i, j);
  }
}
