/** On which intervals of versions the ledger's lexicographic key order is the order of the numbers. */
module LedgerOrder {
  import opened Text
  import opened Ledger

  // ---- padded decimals of any length ----

  lemma {:induction false} PowersGrow(j: nat, k: nat)
    requires j < k
    ensures Pow10(j) < Pow10(k)
    decreases k
  {
    if j < k - 1 {
      PowersGrow(j, k - 1);
    }
  }

  /** How many digits a number has. */
  lemma {:induction false} Magnitude(n: nat) returns (k: nat)
    requires n >= 1
    ensures Pow10(k) <= n < Pow10(k + 1)
  {
    if n < 10 {
      k := 0;
      assert Pow10(1) == 10 * Pow10(0);
    } else {
      var j := Magnitude(n / 10);
      k := j + 1;
    }
  }

  lemma PadOneWider(n: nat)
    requires n >= 1
    ensures Pad(n, 0) == Pad(n, 1)
  {}

  lemma {:induction false} PadWider(n: nat, width: nat)
    requires width >= 1 && n >= Pow10(width)
    ensures Pad(n, width) == Pad(n, width + 1)
    decreases width
  {
    assert Pow10(width) == 10 * Pow10(width - 1);
    if width == 1 {
      PadOneWider(n / 10);
    } else {
      PadWider(n / 10, width - 1);
    }
  }

  /** A number that fills `k` digits is not padded by any smaller width. */
  lemma {:induction false} PadNatural(n: nat, width: nat, k: nat)
    requires 1 <= width <= k && (width < k ==> n >= Pow10(k - 1))
    ensures Pad(n, width) == Pad(n, k)
    decreases k
  {
    if width < k {
      if width < k - 1 {
        PowersGrow(k - 2, k - 1);
      }
      PadNatural(n, width, k - 1);
      PadWider(n, k - 1);
    }
  }

  lemma {:induction false} NinesAndTen(width: nat)
    requires width >= 1
    ensures Pad(Pow10(width) - 1, width)[0] == '9' && Pad(Pow10(width), width)[0] == '1'
  {
    if width == 1 {
      assert Pow10(1) == 10 * Pow10(0);
      assert Pad(9, 1) == "9" && Pad(10, 1) == Pad(1, 0) + "0" && Pad(1, 0) == "1";
    } else {
      NinesAndTen(width - 1);
      TenSteps(width);
      hide Pad, Pow10;
    }
  }

  lemma TenSteps(width: nat)
    requires width >= 2
    ensures Pad(Pow10(width) - 1, width) == Pad(Pow10(width - 1) - 1, width - 1) + "9"
    ensures Pad(Pow10(width), width) == Pad(Pow10(width - 1), width - 1) + "0"
  {
    var p := Pow10(width - 1);
    assert Pow10(width) == 10 * p;
    assert (10 * p - 1) / 10 == p - 1 && (10 * p - 1) % 10 == 9 && (10 * p) / 10 == p && (10 * p) % 10 == 0;
  }

  // ---- one step ----

  ghost predicate IsPower(n: int, least: nat) {
    exists k: nat :: k >= least && n == Pow10(k)
  }

  /** Texts that already differ in their first character. */
  lemma FirstDigits(a: string, b: string, s: string)
    requires |a| > 0 && |b| > 0 && a[0] < b[0]
    ensures StringLess(a + s, b + s)
  {}

  lemma PadStepUp(m: nat, width: nat, k: nat)
    requires 1 <= width <= k && m + 1 < Pow10(k) && (width < k ==> m >= Pow10(k - 1))
    ensures StringLess(Pad(m, width) + "\0", Pad(m + 1, width) + "\0")
  {
    hide Pad, Pow10, StringLess;
    PadNatural(m, width, k);
    PadNatural(m + 1, width, k);
    PadOrder(m, m + 1, k);
    PadWidth(m, k);
    PadWidth(m + 1, k);
    LessBeforeSuffix(Pad(m, k), Pad(m + 1, k), "\0", "\0");
  }

  lemma PadStepDown(width: nat, k: nat)
    requires 1 <= width <= k
    ensures StringLess(Pad(Pow10(k), width) + "\0", Pad(Pow10(k) - 1, width) + "\0")
  {
    NinesAndTen(k);
    if width < k {
      PowersGrow(k - 1, k);
    }
    hide Pad, Pow10, StringLess;
    PadNatural(Pow10(k) - 1, width, k);
    PadNatural(Pow10(k), width, k);
    FirstDigits(Pad(Pow10(k), k), Pad(Pow10(k) - 1, k), "\0");
  }

  /** The next number's text is larger, except when the next number is a power of ten that outgrows the padding. */
  lemma PadStepOrder(m: nat, width: nat)
    requires width >= 1
    ensures !IsPower(m + 1, width) ==> StringLess(Pad(m, width) + "\0", Pad(m + 1, width) + "\0")
    ensures IsPower(m + 1, width) ==> StringLess(Pad(m + 1, width) + "\0", Pad(m, width) + "\0")
  {
    hide Pad, StringLess;
    if IsPower(m + 1, width) {
      var k: nat :| k >= width && m + 1 == Pow10(k);
      PadStepDown(width, k);
    } else if m + 1 < Pow10(width) {
      PadStepUp(m, width, width);
    } else {
      var k := Magnitude(m + 1);
      if k + 1 <= width {
        if k + 1 < width { PowersGrow(k + 1, width); }
      }
      PadStepUp(m, width, k + 1);
    }
  }

  /** Whether the key of the next version comes behind this one's. */
  ghost predicate StepSorts(v: int) {
    if v >= -1 then !IsPower(v + 1, 10) else IsPower(-v, 9)
  }

  lemma TextOrder(id: string, v: int, w: int)
    ensures StringLess(CompositeKey(id, v), CompositeKey(id, w)) <==> StringLess(VersionText(v) + "\0", VersionText(w) + "\0")
  {
    LessBehindPrefix(KeyPrefix(id), VersionText(v) + "\0", VersionText(w) + "\0");
  }

  lemma MinusOrder(m: int, n: int)
    requires m > 0 && n > 0
    ensures StringLess(VersionText(-m) + "\0", VersionText(-n) + "\0") <==> StringLess(Pad(m, 9) + "\0", Pad(n, 9) + "\0")
  {
    var a, b := Pad(m, 9), Pad(n, 9);
    LessBehindPrefix("-", a + "\0", b + "\0");
    assert ("-" + a) + "\0" == "-" + (a + "\0") && ("-" + b) + "\0" == "-" + (b + "\0");
  }

  lemma KeyStepOrder(id: string, v: int)
    ensures StringLess(CompositeKey(id, v), CompositeKey(id, v + 1)) <==> StepSorts(v)
  {
    hide StringLess, CompositeKey, Pad;
    TextOrder(id, v, v + 1);
    if v >= 0 {
      PadStepOrder(v, 10);
      StringLessAntisymmetric(VersionText(v) + "\0", VersionText(v + 1) + "\0");
    } else if v == -1 {
      MinusBeforeDigits();
    } else {
      PadStepOrder(-v - 1, 9);
      MinusOrder(-v, -v - 1);
      StringLessAntisymmetric(Pad(-v, 9) + "\0", Pad(-v - 1, 9) + "\0");
    }
  }

  lemma StringLessAntisymmetric(a: string, b: string)
    ensures !(StringLess(a, b) && StringLess(b, a))
  {
    if StringLess(a, b) {
      StringLessAsymmetric(a, b);
    }
  }

  lemma MinusBeforeDigits()
    ensures StringLess(VersionText(-1) + "\0", VersionText(0) + "\0") && StepSorts(-1)
  {
    FirstDigits(VersionText(-1), VersionText(0), "\0");
  }

  // ---- intervals ----

  /** On versions lo, ..., hi - 1 keys sort as the numbers do. */
  ghost predicate SortsAsNumbers(id: string, lo: int, hi: int) {
    forall v, w :: lo <= v < w < hi ==> StringLess(CompositeKey(id, v), CompositeKey(id, w))
  }

  lemma {:induction false} StepsCompose(id: string, v: int, w: int)
    requires v < w && forall u :: v <= u < w ==> StepSorts(u)
    ensures StringLess(CompositeKey(id, v), CompositeKey(id, w))
    decreases w - v
  {
    hide StepSorts, CompositeKey, StringLess;
    KeyStepOrder(id, w - 1);
    if v < w - 1 {
      StepsCompose(id, v, w - 1);
      StringLessTransitive(CompositeKey(id, v), CompositeKey(id, w - 1), CompositeKey(id, w));
    }
  }

  lemma SortsIffStepsSort(id: string, lo: int, hi: int)
    ensures SortsAsNumbers(id, lo, hi) <==> forall v :: lo <= v < hi - 1 ==> StepSorts(v)
  {
    hide StepSorts, CompositeKey, StringLess;
    if forall v :: lo <= v < hi - 1 ==> StepSorts(v) {
      forall v, w | lo <= v < w < hi ensures StringLess(CompositeKey(id, v), CompositeKey(id, w)) {
        StepsCompose(id, v, w);
      }
    }
    if SortsAsNumbers(id, lo, hi) {
      forall v | lo <= v < hi - 1 ensures StepSorts(v) {
        KeyStepOrder(id, v);
      }
    }
  }

  /** All versions have the same number of digits, at least eleven. */
  ghost predicate OneLength(lo: int, hi: int) {
    exists k: nat :: k >= 10 && Pow10(k) <= lo && hi <= Pow10(k + 1)
  }

  /** The two versions on either side of a negative power of ten that outgrows the padding. */
  ghost predicate Straddles(lo: int, hi: int) {
    hi == lo + 2 && IsPower(-lo, 9)
  }

  lemma PowersAreRound(j: nat, k: nat)
    requires j >= 1 && k >= 1
    ensures Pow10(j) != Pow10(k) - 1 && Pow10(j) >= 10
  {
    assert Pow10(j) == 10 * Pow10(j - 1) && Pow10(k) == 10 * Pow10(k - 1);
  }

  /** The exact condition, for every interval of at least two versions: keys sort as the numbers do if and only if
      the versions lie from -1 up to ten digits, or all have the same length beyond that, or are the two around a
      negative power of ten. */
  lemma KeyOrderIff(id: string, lo: int, hi: int)
    requires lo + 2 <= hi
    ensures SortsAsNumbers(id, lo, hi) <==> (-1 <= lo && hi <= Pow10(10)) || OneLength(lo, hi) || Straddles(lo, hi)
  {
    hide SortsAsNumbers, StringLess, CompositeKey;
    SortsIffStepsSort(id, lo, hi);
    if lo < -1 {
      NegativeSteps(lo, hi);
    } else {
      PositiveSteps(lo, hi);
    }
  }

  lemma NegativeSteps(lo: int, hi: int)
    requires lo + 2 <= hi && lo < -1
    ensures (forall v :: lo <= v < hi - 1 ==> StepSorts(v)) <==> Straddles(lo, hi)
    ensures !OneLength(lo, hi)
  {
    assert StepSorts(lo) <==> IsPower(-lo, 9);
    if IsPower(-lo, 9) {
      var k: nat :| k >= 9 && -lo == Pow10(k);
      PowersAreRound(k, k);
      forall j: nat | j >= 9 ensures -(lo + 1) != Pow10(j) {
        PowersAreRound(j, k);
      }
      assert !StepSorts(lo + 1);
    }
  }

  lemma PositiveSteps(lo: int, hi: int)
    requires lo + 2 <= hi && lo >= -1
    ensures (forall v :: lo <= v < hi - 1 ==> StepSorts(v)) <==> hi <= Pow10(10) || OneLength(lo, hi)
    ensures !Straddles(lo, hi)
  {
    hide StepSorts, OneLength, Pow10;
    PositiveIsNoPower(lo);
    if hi <= Pow10(10) {
      ShortStepsSort(lo, hi);
    } else if OneLength(lo, hi) {
      LongStepsSort(lo, hi);
    } else {
      SomeStepFails(lo, hi);
    }
  }

  lemma PositiveIsNoPower(lo: int)
    requires lo >= -1
    ensures !IsPower(-lo, 9)
  {
    forall k: nat | k >= 9 ensures -lo != Pow10(k) {
      PowersAreRound(k, k);
    }
  }

  lemma ShortStepsSort(lo: int, hi: int)
    requires lo >= -1 && hi <= Pow10(10)
    ensures forall v :: lo <= v < hi - 1 ==> StepSorts(v)
  {
    hide Pow10;
    forall v | lo <= v < hi - 1 ensures StepSorts(v) {
      BetweenPowers(v + 1, 9);
    }
  }

  lemma LongStepsSort(lo: int, hi: int)
    requires lo >= -1 && OneLength(lo, hi)
    ensures forall v :: lo <= v < hi - 1 ==> StepSorts(v)
  {
    hide Pow10;
    var k: nat :| k >= 10 && Pow10(k) <= lo && hi <= Pow10(k + 1);
    forall v | lo <= v < hi - 1 ensures StepSorts(v) {
      BetweenPowers(v + 1, k);
    }
  }

  /** Otherwise the interval holds a power of ten of at least eleven digits and the number before it. */
  lemma SomeStepFails(lo: int, hi: int)
    requires lo + 2 <= hi && lo >= -1 && hi > Pow10(10) && !OneLength(lo, hi)
    ensures exists v :: lo <= v < hi - 1 && !StepSorts(v)
  {
    hide Pow10;
    if lo < Pow10(10) {
      assert IsPower(Pow10(10), 10) && !StepSorts(Pow10(10) - 1);
    } else {
      var k := Magnitude(lo);
      if k < 9 { PowersGrow(k + 1, 10); }
      assert Pow10(k + 1) < hi;
      assert IsPower(Pow10(k + 1), 10) && !StepSorts(Pow10(k + 1) - 1);
    }
  }

  /** Strictly between neighbouring powers, or below the first of them that counts, there is no power. */
  lemma BetweenPowers(n: int, k: nat)
    requires n < Pow10(k + 1) && (Pow10(k) < n || k + 1 <= 10)
    ensures !IsPower(n, 10)
  {
    forall j: nat | j >= 10 ensures n != Pow10(j) {
      if j < k { PowersGrow(j, k); }
      if j > k + 1 { PowersGrow(k + 1, j); }
    }
  }

  /** The versions an application counts from zero: exactly up to ten digits. */
  lemma KeyOrderIffTenDigits(id: string, bound: nat)
    ensures SortsAsNumbers(id, 0, bound) <==> bound <= Pow10(10)
  {
    hide StringLess, CompositeKey;
    assert Pow10(10) == 10 * Pow10(9);
    if bound >= 2 {
      KeyOrderIff(id, 0, bound);
    }
  }

  /** Negative versions of up to nine digits, which AnchorEvidence accepts, sort backwards. */
  lemma NegativeVersionsSortBackwards(id: string, v: int, w: int)
    requires -(Pow10(9) as int) < v < w < 0
    ensures StringLess(CompositeKey(id, w), CompositeKey(id, v))
  {
    hide StringLess, CompositeKey, Pad, Pow10;
    TextOrder(id, w, v);
    MinusOrder(-w, -v);
    PadOrder(-w, -v, 9);
    PadWidth(-w, 9);
    PadWidth(-v, 9);
    LessBeforeSuffix(Pad(-w, 9), Pad(-v, 9), "\0", "\0");
  }
}
