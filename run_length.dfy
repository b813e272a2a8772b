/** The run-length scheme of data representation template 5.200: a stream
    of codes is cut into sets, each a level value (at most MAXV) followed by
    zero or more run-length digits (greater than MAXV); the digits spell the
    repeat count minus one in base LNGU = 2^NBIT - 1 - MAXV, least
    significant digit first. */
module RunLength {
  import opened Errors

  function Power(base: nat, exponent: nat): (r: nat)
    ensures exponent == 0 ==> r == 1
    ensures 0 < base ==> 0 < r
  {
    if exponent == 0 then 1 else base * Power(base, exponent - 1)
  }

  /** Every code after the level value is a run-length digit. */
  predicate AllDigits(codes: seq<nat>, maxv: nat)
  {
    forall i :: 0 <= i < |codes| ==> maxv < codes[i]
  }

  /** A non-empty set whose head is a level value. */
  predicate StartsWithLevel(set_: seq<nat>, maxv: nat)
  {
    1 <= |set_| && set_[0] <= maxv
  }

  /** The shape of a set the decode loop accumulates: one code, then digits. */
  predicate IsSet(set_: seq<nat>, maxv: nat)
  {
    1 <= |set_| && AllDigits(set_[1..], maxv)
  }

  /** What a run-length digit contributes before weighting. */
  function DigitValue(digit: nat, maxv: nat): nat
    requires maxv < digit
  {
    digit - (maxv + 1)
  }

  /** The sum the source computes: digit i weighs LNGU^i. */
  function DigitSum(digits: seq<nat>, maxv: nat, lngu: nat): nat
    requires AllDigits(digits, maxv)
  {
    if |digits| == 0 then 0
    else
      var weight := Power(lngu, |digits| - 1);
      DigitSum(digits[..|digits| - 1], maxv, lngu) + weight * DigitValue(digits[|digits| - 1], maxv)
  }

  /** expand_run_length: the level value of a set and how many grid points
      carry it.  The source asserts that the first code is a level value. */
  function ExpandRunLength(set_: seq<nat>, maxv: nat, lngu: nat): (r: Result<(nat, nat)>)
    requires IsSet(set_, maxv)
    ensures r.Ok? <==> set_[0] <= maxv
    ensures r.Err? ==> r.error == Panicked(AssertionFailed)
    ensures r.Ok? ==> r.value.0 == set_[0] && 1 <= r.value.1
    ensures r.Ok? && |set_| == 1 ==> r.value.1 == 1
  {
    if maxv < set_[0] then Err(Panicked(AssertionFailed))
    else if |set_| == 1 then Ok((set_[0], 1))
    else Ok((set_[0], DigitSum(set_[1..], maxv, lngu) + 1))
  }

  // ---------------------------------------------------------------------
  // A reference encoder: the inverse of ExpandRunLength.

  /** The same digits read most significant last, by Horner's rule. */
  function Horner(digits: seq<nat>, maxv: nat, lngu: nat): nat
    requires AllDigits(digits, maxv)
  {
    if |digits| == 0 then 0
    else DigitValue(digits[0], maxv) + lngu * Horner(digits[1..], maxv, lngu)
  }

  /** The base-LNGU digits of n, least significant first, each offset by MAXV + 1. */
  function Digits(n: nat, maxv: nat, lngu: nat): (r: seq<nat>)
    requires 2 <= lngu
    ensures AllDigits(r, maxv)
  {
    if n == 0 then [] else [n % lngu + maxv + 1] + Digits(n / lngu, maxv, lngu)
  }

  /** The set that encodes `count` repetitions of `level`. */
  function EncodeRun(level: nat, count: nat, maxv: nat, lngu: nat): (r: seq<nat>)
    requires level <= maxv && 1 <= count && 2 <= lngu
    ensures IsSet(r, maxv) && r[0] == level
  {
    [level] + Digits(count - 1, maxv, lngu)
  }

  /** Every digit the encoder writes is at most MAXV + LNGU = 2^NBIT - 1,
      so it fits the code width. */
  lemma {:induction false} DigitsInRange(n: nat, maxv: nat, lngu: nat)
    requires 2 <= lngu
    ensures forall i :: 0 <= i < |Digits(n, maxv, lngu)| ==> Digits(n, maxv, lngu)[i] <= maxv + lngu
    decreases n
  {
    if n > 0 {
      DigitsInRange(n / lngu, maxv, lngu);
      assert n % lngu < lngu;
    }
  }

  lemma {:induction false} DigitSumPrepend(d: nat, rest: seq<nat>, maxv: nat, lngu: nat)
    requires maxv < d && AllDigits(rest, maxv)
    ensures DigitSum([d] + rest, maxv, lngu) == DigitValue(d, maxv) + lngu * DigitSum(rest, maxv, lngu)
    decreases |rest|
  {
    if |rest| == 0 {
      assert [d] + rest == [d];
      assert [d][..0] == [];
    } else {
      var k := |rest|;
      var init := rest[..k - 1];
      var x := rest[k - 1];
      assert rest == init + [x];
      assert [d] + rest == ([d] + init) + [x];
      DigitSumPrepend(d, init, maxv, lngu);
      DigitSumSnoc([d] + init, x, maxv, lngu);
      DigitSumSnoc(init, x, maxv, lngu);
      var w := Power(lngu, k - 1);
      assert Power(lngu, k) == lngu * w;
      MulAssoc(lngu, w, DigitValue(x, maxv));
      MulDistributes(lngu, DigitSum(init, maxv, lngu), w * DigitValue(x, maxv));
    }
  }

  /** A digit appended last weighs the next power of LNGU. */
  lemma DigitSumSnoc(digits: seq<nat>, x: nat, maxv: nat, lngu: nat)
    requires AllDigits(digits, maxv) && maxv < x
    ensures AllDigits(digits + [x], maxv)
    ensures DigitSum(digits + [x], maxv, lngu) ==
              DigitSum(digits, maxv, lngu) + Power(lngu, |digits|) * DigitValue(x, maxv)
  {
    var s := digits + [x];
    assert s[..|s| - 1] == digits;
  }

  lemma MulAssoc(a: int, b: int, c: int)
    ensures (a * b) * c == a * (b * c)
  {
  }

  lemma MulMonotone(a: nat, b: nat, c: nat)
    requires b <= c
    ensures a * b <= a * c
  {
  }

  lemma MulDistributes(a: int, b: int, c: int)
    ensures a * b + a * c == a * (b + c)
  {
  }

  lemma DivMod(n: nat, d: nat)
    requires 0 < d
    ensures n == n % d + d * (n / d)
  {
  }

  /** Summing weighted digits in index order equals Horner's rule. */
  lemma {:induction false} DigitSumIsHorner(digits: seq<nat>, maxv: nat, lngu: nat)
    requires AllDigits(digits, maxv)
    ensures DigitSum(digits, maxv, lngu) == Horner(digits, maxv, lngu)
    decreases |digits|
  {
    if |digits| > 0 {
      assert digits == [digits[0]] + digits[1..];
      DigitSumPrepend(digits[0], digits[1..], maxv, lngu);
      DigitSumIsHorner(digits[1..], maxv, lngu);
    }
  }

  lemma {:induction false} HornerOfDigits(n: nat, maxv: nat, lngu: nat)
    requires 2 <= lngu
    ensures Horner(Digits(n, maxv, lngu), maxv, lngu) == n
    decreases n
  {
    if n > 0 {
      var q := n / lngu;
      var rest := Digits(q, maxv, lngu);
      DigitsCons(n, maxv, lngu);
      HornerCons(n % lngu + maxv + 1, rest, maxv, lngu);
      DivShrinks(n, lngu);
      HornerOfDigits(q, maxv, lngu);
      DivMod(n, lngu);
    }
  }

  lemma DivShrinks(n: nat, d: nat)
    requires 0 < n && 2 <= d
    ensures n / d < n
  {
  }

  lemma DigitsCons(n: nat, maxv: nat, lngu: nat)
    requires 2 <= lngu && 0 < n
    ensures Digits(n, maxv, lngu) == [n % lngu + maxv + 1] + Digits(n / lngu, maxv, lngu)
  {
  }

  lemma HornerCons(d: nat, rest: seq<nat>, maxv: nat, lngu: nat)
    requires maxv < d && AllDigits(rest, maxv)
    ensures AllDigits([d] + rest, maxv)
    ensures Horner([d] + rest, maxv, lngu) == (d - (maxv + 1)) + lngu * Horner(rest, maxv, lngu)
  {
    assert ([d] + rest)[1..] == rest;
  }

  /** Decoding the encoder's set gives back the level and the count. */
  lemma EncodeRunRoundTrip(level: nat, count: nat, maxv: nat, lngu: nat)
    requires level <= maxv && 1 <= count && 2 <= lngu
    ensures ExpandRunLength(EncodeRun(level, count, maxv, lngu), maxv, lngu) == Ok((level, count))
  {
    var s := EncodeRun(level, count, maxv, lngu);
    var digits := Digits(count - 1, maxv, lngu);
    assert s[1..] == digits;
    if count == 1 {
      assert |s| == 1;
    } else {
      assert |digits| > 0;
      DigitSumIsHorner(digits, maxv, lngu);
      HornerOfDigits(count - 1, maxv, lngu);
      assert ExpandRunLength(s, maxv, lngu) == Ok((level, DigitSum(digits, maxv, lngu) + 1));
    }
  }

  /** A set of well-formed codes below 2^NBIT cannot encode a count beyond
      LNGU^digits: each digit contributes at most LNGU - 1. */
  lemma {:induction false} DigitSumBound(digits: seq<nat>, maxv: nat, lngu: nat)
    requires AllDigits(digits, maxv)
    requires forall i :: 0 <= i < |digits| ==> digits[i] <= maxv + lngu
    ensures DigitSum(digits, maxv, lngu) < Power(lngu, |digits|)
    decreases |digits|
  {
    if |digits| > 0 {
      var k := |digits| - 1;
      var prefix := digits[..k];
      assert forall i :: 0 <= i < |prefix| ==> prefix[i] == digits[i];
      DigitSumBound(prefix, maxv, lngu);
      var last := DigitValue(digits[k], maxv);
      var w := Power(lngu, k);
      assert DigitSum(digits, maxv, lngu) == DigitSum(prefix, maxv, lngu) + w * last;
      assert last <= lngu - 1;
      MulMonotone(w, last, lngu - 1);
      MulDistributes(w, lngu - 1, 1);
      assert w * (lngu - 1) + w == w * lngu;
      assert Power(lngu, k + 1) == w * lngu;
    }
  }

  // ---------------------------------------------------------------------
  // Cutting a code stream into sets, as the decode loop of convert does.

  function Flatten(sets: seq<seq<nat>>): (r: seq<nat>)
  {
    if |sets| == 0 then [] else Flatten(sets[..|sets| - 1]) + sets[|sets| - 1]
  }

  /** What the loop does for each code v: a level value closes the open
      set and starts a new one; a digit (or any code when no set is open)
      is appended to the open set. */
  function Split(codes: seq<nat>, maxv: nat): (r: seq<seq<nat>>)
    ensures |codes| == 0 <==> |r| == 0
    ensures forall k :: 0 <= k < |r| ==> IsSet(r[k], maxv)
  {
    if |codes| == 0 then []
    else
      var prev := Split(codes[..|codes| - 1], maxv);
      var v := codes[|codes| - 1];
      if v <= maxv || prev == [] then prev + [[v]]
      else
        var open := prev[|prev| - 1];
        AppendDigit(open, v, maxv);
        prev[..|prev| - 1] + [open + [v]]
  }

  lemma AppendDigit(set_: seq<nat>, v: nat, maxv: nat)
    requires IsSet(set_, maxv) && maxv < v
    ensures IsSet(set_ + [v], maxv)
  {
    assert (set_ + [v])[1..] == set_[1..] + [v];
  }

  lemma {:induction false} SplitHead(codes: seq<nat>, maxv: nat)
    requires 0 < |codes|
    ensures 0 < |Split(codes, maxv)[0]| && Split(codes, maxv)[0][0] == codes[0]
    decreases |codes|
  {
    var init := codes[..|codes| - 1];
    if 1 < |codes| {
      SplitHead(init, maxv);
      assert init[0] == codes[0];
    }
  }

  /** A cutting into sets: nothing lost or reordered, and no level value
      inside a set except at its head. */
  predicate IsSplit(sets: seq<seq<nat>>, codes: seq<nat>, maxv: nat)
  {
    && Flatten(sets) == codes
    && (forall k :: 0 <= k < |sets| ==> IsSet(sets[k], maxv))
    && (forall k :: 1 <= k < |sets| ==> StartsWithLevel(sets[k], maxv))
  }

  lemma {:induction false} FlattenAppendToLast(sets: seq<seq<nat>>, v: nat)
    requires 0 < |sets|
    ensures Flatten(sets[..|sets| - 1] + [sets[|sets| - 1] + [v]]) == Flatten(sets) + [v]
  {
    var init := sets[..|sets| - 1];
    assert sets == init + [sets[|sets| - 1]];
    FlattenSnocLast(init, sets[|sets| - 1], v);
  }

  lemma {:induction false} SplitIsSplit(codes: seq<nat>, maxv: nat)
    ensures IsSplit(Split(codes, maxv), codes, maxv)
    decreases |codes|
  {
    if |codes| > 0 {
      var init := codes[..|codes| - 1];
      var v := codes[|codes| - 1];
      var prev := Split(init, maxv);
      SplitIsSplit(init, maxv);
      assert codes == init + [v];
      if v <= maxv || prev == [] {
        IsSplitAddSet(prev, init, v, maxv);
      } else {
        IsSplitExtend(prev, init, v, maxv);
      }
    }
  }

  /** A level value (or the first code) starts a new set. */
  lemma IsSplitAddSet(sets: seq<seq<nat>>, codes: seq<nat>, v: nat, maxv: nat)
    requires IsSplit(sets, codes, maxv) && (v <= maxv || sets == [])
    ensures IsSplit(sets + [[v]], codes + [v], maxv)
  {
    var t := sets + [[v]];
    assert t[..|t| - 1] == sets;
  }

  /** A digit extends the open set. */
  lemma IsSplitExtend(sets: seq<seq<nat>>, codes: seq<nat>, v: nat, maxv: nat)
    requires IsSplit(sets, codes, maxv) && maxv < v && sets != []
    ensures IsSplit(sets[..|sets| - 1] + [sets[|sets| - 1] + [v]], codes + [v], maxv)
  {
    FlattenAppendToLast(sets, v);
    AppendDigit(sets[|sets| - 1], v, maxv);
  }

  lemma {:induction false} FlattenLast(sets: seq<seq<nat>>)
    requires 0 < |sets| && 0 < |sets[|sets| - 1]|
    ensures 0 < |Flatten(sets)|
    ensures Flatten(sets)[|Flatten(sets)| - 1] == sets[|sets| - 1][|sets[|sets| - 1]| - 1]
  {
  }

  /** Split is the only cutting: any other IsSplit of the same codes is it. */
  lemma {:induction false} SplitUnique(sets: seq<seq<nat>>, codes: seq<nat>, maxv: nat)
    requires IsSplit(sets, codes, maxv)
    ensures sets == Split(codes, maxv)
    decreases |codes|
  {
    if |sets| > 0 {
      var n := |sets|;
      if |sets[n - 1]| == 1 {
        DropLastSet(sets, codes, maxv);
        SplitUnique(sets[..n - 1], codes[..|codes| - 1], maxv);
      } else {
        DropLastDigit(sets, codes, maxv);
        SplitUnique(sets[..n - 1] + [sets[n - 1][..|sets[n - 1]| - 1]], codes[..|codes| - 1], maxv);
      }
    }
  }

  /** A cutting whose last set is a single code: without it, a cutting of
      the codes but the last, which is a level value unless it is the first. */
  lemma DropLastSet(sets: seq<seq<nat>>, codes: seq<nat>, maxv: nat)
    requires IsSplit(sets, codes, maxv) && 0 < |sets| && |sets[|sets| - 1]| == 1
    ensures 0 < |codes|
    ensures var init := sets[..|sets| - 1];
            var v := codes[|codes| - 1];
            && IsSplit(init, codes[..|codes| - 1], maxv)
            && sets == init + [[v]]
            && (v <= maxv || init == [])
  {
    var n := |sets|;
    var last := sets[n - 1];
    var init := sets[..n - 1];
    assert init + [last] == sets;
    assert codes == Flatten(init) + last;
    assert codes[..|codes| - 1] == Flatten(init);
    assert last == [codes[|codes| - 1]];
    assert IsSplit(init, Flatten(init), maxv) by {
      assert forall k :: 0 <= k < |init| ==> init[k] == sets[k];
    }
    if 1 < n {
      assert StartsWithLevel(sets[n - 1], maxv);
    }
  }

  /** A cutting whose last set holds digits: without its last digit, a
      cutting of the codes but the last. */
  lemma DropLastDigit(sets: seq<seq<nat>>, codes: seq<nat>, maxv: nat)
    requires IsSplit(sets, codes, maxv) && 0 < |sets| && 1 < |sets[|sets| - 1]|
    ensures 0 < |codes|
    ensures var n := |sets|;
            var sets' := sets[..n - 1] + [sets[n - 1][..|sets[n - 1]| - 1]];
            var v := codes[|codes| - 1];
            && IsSplit(sets', codes[..|codes| - 1], maxv)
            && maxv < v
            && sets == sets'[..n - 1] + [sets'[n - 1] + [v]]
  {
    var n := |sets|;
    var last := sets[n - 1];
    var sets' := sets[..n - 1] + [last[..|last| - 1]];
    var v := last[|last| - 1];
    assert last == last[..|last| - 1] + [v];
    assert sets == sets[..n - 1] + [last[..|last| - 1] + [v]];
    assert sets'[..n - 1] == sets[..n - 1];
    FlattenSnocLast(sets[..n - 1], last[..|last| - 1], v);
    ShortenedIsSplit(sets, maxv);
    assert codes == Flatten(sets') + [v];
    assert codes[..|codes| - 1] == Flatten(sets');
    assert maxv < v by { assert last[1..][|last| - 2] == v; }
  }

  /** A code at the end of the last set is a code at the end of the flattening. */
  lemma FlattenSnocLast(init: seq<seq<nat>>, shorter: seq<nat>, v: nat)
    ensures Flatten(init + [shorter + [v]]) == Flatten(init + [shorter]) + [v]
  {
    var longer := init + [shorter + [v]];
    var sets' := init + [shorter];
    assert longer[..|longer| - 1] == init;
    assert sets'[..|sets'| - 1] == init;
    assert Flatten(init) + (shorter + [v]) == (Flatten(init) + shorter) + [v];
  }

  /** Taking the last digit off the last set keeps every set's shape. */
  lemma ShortenedIsSplit(sets: seq<seq<nat>>, maxv: nat)
    requires IsSplit(sets, Flatten(sets), maxv) && 0 < |sets| && 1 < |sets[|sets| - 1]|
    ensures var n := |sets|;
            var last := sets[n - 1];
            var sets' := sets[..n - 1] + [last[..|last| - 1]];
            IsSplit(sets', Flatten(sets'), maxv)
  {
    var n := |sets|;
    var last := sets[n - 1];
    var shorter := last[..|last| - 1];
    var sets' := sets[..n - 1] + [shorter];
    forall k | 0 <= k < n ensures IsSet(sets'[k], maxv) {
      if k < n - 1 { assert sets'[k] == sets[k]; }
      else { assert shorter[1..] == last[1..][..|last| - 2]; }
    }
    forall k | 1 <= k < n ensures StartsWithLevel(sets'[k], maxv) {
      if k < n - 1 { assert sets'[k] == sets[k]; } else { assert sets'[k][0] == last[0]; }
    }
  }

  // ---------------------------------------------------------------------
  // Decoding a whole code stream to the level of every grid point.

  function Repeat(level: nat, count: nat): (r: seq<nat>)
    ensures |r| == count && forall i :: 0 <= i < count ==> r[i] == level
  {
    seq(count, _ => level)
  }

  lemma RepeatPrefix(level: nat, n: nat, count: nat)
    requires n <= count
    ensures Repeat(level, count)[..n] == Repeat(level, n)
  {
  }

  /** The level values the sets stand for, set after set; the first set
      that fails to expand decides the error. */
  function Levels(sets: seq<seq<nat>>, maxv: nat, lngu: nat): (r: Result<seq<nat>>)
    requires forall k :: 0 <= k < |sets| ==> IsSet(sets[k], maxv)
    ensures r.Ok? <==> forall k :: 0 <= k < |sets| ==> StartsWithLevel(sets[k], maxv)
    ensures r.Err? ==> r.error == Panicked(AssertionFailed)
  {
    if |sets| == 0 then Ok([])
    else
      var init :- Levels(sets[..|sets| - 1], maxv, lngu);
      var run :- ExpandRunLength(sets[|sets| - 1], maxv, lngu);
      Ok(init + Repeat(run.0, run.1))
  }

  /** The level of every grid point a code stream describes. */
  function Decode(codes: seq<nat>, maxv: nat, lngu: nat): (r: Result<seq<nat>>)
    ensures r.Ok? <==> |codes| == 0 || codes[0] <= maxv
    ensures r.Err? ==> r.error == Panicked(AssertionFailed)
  {
    if |codes| == 0 then Ok([])
    else
      SplitIsSplit(codes, maxv);
      SplitHead(codes, maxv);
      Levels(Split(codes, maxv), maxv, lngu)
  }

  /** The worked example of the format description: NBIT = 4, MAXV = 10,
      LNGU = 5. */
  const EXAMPLE_CODES: seq<nat> := [3, 9, 12, 6, 4, 15, 2, 1, 0, 13, 12, 2, 3]
  const EXAMPLE_SETS: seq<seq<nat>> := [[3], [9, 12], [6], [4, 15], [2], [1], [0, 13, 12], [2], [3]]
  const EXAMPLE_LEVELS: seq<nat> := [3, 9, 9, 6, 4, 4, 4, 4, 4, 2, 1, 0, 0, 0, 0, 0, 0, 0, 0, 2, 3]

  /** Flattening a longer prefix of sets appends the next set. */
  lemma FlattenSnoc(sets: seq<seq<nat>>, k: nat)
    requires k < |sets|
    ensures Flatten(sets[..k + 1]) == Flatten(sets[..k]) + sets[k]
  {
    assert sets[..k + 1][..k] == sets[..k];
  }

  lemma ExampleFlatten()
    ensures Flatten(EXAMPLE_SETS) == EXAMPLE_CODES
  {
    var sets := EXAMPLE_SETS;
    assert sets[..0] == [];
    FlattenSnoc(sets, 0);
    FlattenSnoc(sets, 1);
    FlattenSnoc(sets, 2);
    FlattenSnoc(sets, 3);
    FlattenSnoc(sets, 4);
    FlattenSnoc(sets, 5);
    FlattenSnoc(sets, 6);
    FlattenSnoc(sets, 7);
    FlattenSnoc(sets, 8);
    assert sets[..9] == sets;
  }

  lemma ExampleIsSplit()
    ensures IsSplit(EXAMPLE_SETS, EXAMPLE_CODES, 10)
  {
    ExampleFlatten();
  }

  /** How the example's codes fall into sets. */
  lemma DocumentedExampleSets()
    ensures Split(EXAMPLE_CODES, 10) == EXAMPLE_SETS
  {
    ExampleIsSplit();
    SplitUnique(EXAMPLE_SETS, EXAMPLE_CODES, 10);
  }

  /** Decoding a longer prefix of sets appends the next set's run. */
  lemma LevelsStep(sets: seq<seq<nat>>, k: nat, maxv: nat, lngu: nat,
                   prefix: seq<nat>, level: nat, count: nat, next: seq<nat>)
    requires k < |sets| && forall j :: 0 <= j < |sets| ==> IsSet(sets[j], maxv)
    requires Levels(sets[..k], maxv, lngu) == Ok(prefix)
    requires ExpandRunLength(sets[k], maxv, lngu) == Ok((level, count))
    requires next == prefix + Repeat(level, count)
    ensures Levels(sets[..k + 1], maxv, lngu) == Ok(next)
  {
    assert sets[..k + 1][..k] == sets[..k];
  }

  /** The levels of the example's first four sets. */
  lemma DocumentedExampleHead()
    ensures Levels(EXAMPLE_SETS[..4], 10, 5) == Ok([3, 9, 9, 6, 4, 4, 4, 4, 4])
  {
    var sets := EXAMPLE_SETS;
    ExpandRunLengthExamples();
    assert sets[..0] == [];
    LevelsStep(sets, 0, 10, 5, [], 3, 1, [3]);
    LevelsStep(sets, 1, 10, 5, [3], 9, 2, [3, 9, 9]);
    LevelsStep(sets, 2, 10, 5, [3, 9, 9], 6, 1, [3, 9, 9, 6]);
    LevelsStep(sets, 3, 10, 5, [3, 9, 9, 6], 4, 5, [3, 9, 9, 6, 4, 4, 4, 4, 4]);
  }

  /** The levels of the example's first six sets. */
  lemma DocumentedExampleSix()
    ensures Levels(EXAMPLE_SETS[..6], 10, 5) == Ok([3, 9, 9, 6, 4, 4, 4, 4, 4, 2, 1])
  {
    var sets := EXAMPLE_SETS;
    DocumentedExampleHead();
    assert Repeat(2, 1) == [2] && Repeat(1, 1) == [1];
    LevelsStep(sets, 4, 10, 5, [3, 9, 9, 6, 4, 4, 4, 4, 4], 2, 1, [3, 9, 9, 6, 4, 4, 4, 4, 4, 2]);
    LevelsStep(sets, 5, 10, 5, [3, 9, 9, 6, 4, 4, 4, 4, 4, 2], 1, 1, [3, 9, 9, 6, 4, 4, 4, 4, 4, 2, 1]);
  }

  /** The levels of the example's first seven sets. */
  lemma DocumentedExampleMiddle()
    ensures Levels(EXAMPLE_SETS[..7], 10, 5) == Ok(EXAMPLE_LEVELS[..19])
  {
    var sets := EXAMPLE_SETS;
    var l6 := [3, 9, 9, 6, 4, 4, 4, 4, 4, 2, 1];
    DocumentedExampleSix();
    ExpandRunLengthExamples();
    assert Repeat(0, 8) == [0, 0, 0, 0, 0, 0, 0, 0];
    assert EXAMPLE_LEVELS[..19] == l6 + [0, 0, 0, 0, 0, 0, 0, 0];
    LevelsStep(sets, 6, 10, 5, l6, 0, 8, EXAMPLE_LEVELS[..19]);
  }

  /** The grid-point levels the example expands to. */
  lemma DocumentedExample()
    ensures var r := Decode(EXAMPLE_CODES, 10, 5); r.Ok? && r.value == EXAMPLE_LEVELS
  {
    var sets := EXAMPLE_SETS;
    DocumentedExampleSets();
    DocumentedExampleMiddle();
    ExpandRunLengthExamples();
    assert Repeat(2, 1) == [2] && Repeat(3, 1) == [3];
    assert EXAMPLE_LEVELS[..20] == EXAMPLE_LEVELS[..19] + [2];
    LevelsStep(sets, 7, 10, 5, EXAMPLE_LEVELS[..19], 2, 1, EXAMPLE_LEVELS[..20]);
    assert EXAMPLE_LEVELS == EXAMPLE_LEVELS[..20] + [3];
    LevelsStep(sets, 8, 10, 5, EXAMPLE_LEVELS[..20], 3, 1, EXAMPLE_LEVELS);
    assert sets[..9] == sets;
  }

  /** The unit tests of expand_run_length (MAXV = 10, LNGU = 5). */
  lemma ExpandRunLengthExamples()
    ensures ExpandRunLength([3], 10, 5) == Ok((3, 1))
    ensures ExpandRunLength([9, 12], 10, 5) == Ok((9, 2))
    ensures ExpandRunLength([4, 15], 10, 5) == Ok((4, 5))
    ensures ExpandRunLength([0, 13, 12], 10, 5) == Ok((0, 8))
  {
    assert [9, 12][1..] == [12];
    assert [4, 15][1..] == [15];
    assert [0, 13, 12][1..] == [13, 12];
    assert [13, 12][..1] == [13];
  }
}
