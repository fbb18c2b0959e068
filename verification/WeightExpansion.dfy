// Qualification of a training corpus: every record is counted once, and rational
// weights become whole numbers of copies.

module WeightExpansion {
  import opened Outcomes
  import opened Divisibility

  /** A fraction in lowest terms. */
  datatype Fraction = Fraction(num: int, den: nat) {
    ghost predicate Reduced() { den > 0 && (num >= 0 ==> Gcd(den, num) == 1) }
  }

  const MAXIMUM_DENOMINATOR: nat := 100

  datatype Error = NotANumber | NotPositive | DenominatorTooLarge | NothingFits | UnhandledError

  /** One finite positive weight with a bounded denominator; no value stands for text that is not a number. */
  function RecordWeight(value: Option<Fraction>): (r: Result<Fraction, Error>)
    ensures r.Success? <==> value.Some? && value.value.num > 0 && value.value.den <= 100
    ensures r.Success? ==> r.value == value.value
  {
    if value.None? then Failure(NotANumber)
    else if value.value.num <= 0 then Failure(NotPositive)
    else if value.value.den > MAXIMUM_DENOMINATOR then Failure(DenominatorTooLarge)
    else Success(value.value)
  }

  /** What is made of a record: its text with unit weight, and its tokens. */
  datatype Prepared = Prepared(text: string, totalTokens: nat, labelTokens: nat)

  /**
   Preparing a record gives its text, or an error that is counted, or an error of a kind
   that nothing handles; `RecordPreparation` says which records raise one.
   */
  datatype Preparation = Ready(prepared: Prepared) | Rejected | Unhandled

  datatype Line = Blank | Record(weight: Option<Fraction>, preparation: Preparation)

  datatype Item = Item(weight: Fraction, text: string)

  ghost predicate Weighted(item: Item) {
    item.weight.Reduced() && item.weight.num > 0
  }

  ghost predicate AllWeighted(items: seq<Item>) {
    forall i :: 0 <= i < |items| ==> Weighted(items[i])
  }

  // ---------------------------------------------------------------------- scale

  function Scale(items: seq<Item>): (s: nat)
    requires forall i :: 0 <= i < |items| ==> items[i].weight.den > 0
    ensures s > 0
  {
    if items == [] then 1
    else
      var init, last := items[..|items| - 1], items[|items| - 1];
      LcmDivided(Scale(init), last.weight.den);
      Lcm(Scale(init), last.weight.den)
  }

  /** A weight times a scale is a whole number. */
  ghost predicate Integral(w: Fraction, scale: nat) {
    Divides(w.den, w.num * scale)
  }

  ghost predicate AllIntegral(items: seq<Item>, scale: nat) {
    forall i :: 0 <= i < |items| ==> Integral(items[i].weight, scale)
  }

  lemma IntegralMeans(w: Fraction, scale: nat)
    requires w.Reduced() && w.num > 0
    ensures Integral(w, scale) <==> Divides(w.den, scale)
  {
    if Integral(w, scale) {
      CoprimeDivides(w.den, w.num, scale);
    }
    if Divides(w.den, scale) {
      DividesProduct(w.den, scale, w.num);
    }
  }

  lemma {:induction false} ScaleDivided(items: seq<Item>, i: nat)
    requires AllWeighted(items) && i < |items|
    ensures Divides(items[i].weight.den, Scale(items))
  {
    var init, last := items[..|items| - 1], items[|items| - 1];
    assert AllWeighted(init);
    LcmDivided(Scale(init), last.weight.den);
    if i < |init| {
      ScaleDivided(init, i);
      assert init[i] == items[i];
      DividesTransitive(items[i].weight.den, Scale(init), Scale(items));
    }
  }

  lemma {:induction false} ScaleDivides(items: seq<Item>, m: nat)
    requires AllWeighted(items) && forall i :: 0 <= i < |items| ==> Divides(items[i].weight.den, m)
    ensures Divides(Scale(items), m)
  {
    if items == [] {
      DividesBy(1, m, m);
    } else {
      var init, last := items[..|items| - 1], items[|items| - 1];
      assert AllWeighted(init);
      forall i | 0 <= i < |init|
        ensures Divides(init[i].weight.den, m)
      {
        assert init[i] == items[i];
      }
      ScaleDivides(init, m);
      LcmLeast(Scale(init), last.weight.den, m);
    }
  }

  /** The scale is the least positive number that makes every weight whole. */
  lemma ScaleIsLeast(items: seq<Item>, other: nat)
    requires AllWeighted(items) && other > 0
    ensures AllIntegral(items, Scale(items))
    ensures AllIntegral(items, other) ==> Divides(Scale(items), other) && Scale(items) <= other
  {
    forall i | 0 <= i < |items|
      ensures Integral(items[i].weight, Scale(items))
    {
      ScaleDivided(items, i);
      IntegralMeans(items[i].weight, Scale(items));
    }
    if AllIntegral(items, other) {
      forall i | 0 <= i < |items|
        ensures Divides(items[i].weight.den, other)
      {
        assert Integral(items[i].weight, other);
        IntegralMeans(items[i].weight, other);
      }
      ScaleDivides(items, other);
      DivisorAtMost(Scale(items), other);
    }
  }

  // --------------------------------------------------------------------- copies

  function Copies(w: Fraction, scale: nat): (n: nat)
    requires w.num >= 0 && w.den > 0
  {
    w.num * scale / w.den
  }

  /** The division leaves no remainder, and there is at least one copy. */
  lemma CopiesExact(items: seq<Item>, i: nat)
    requires AllWeighted(items) && i < |items|
    ensures Copies(items[i].weight, Scale(items)) * items[i].weight.den == items[i].weight.num * Scale(items)
    ensures Copies(items[i].weight, Scale(items)) > 0
  {
    var w, scale := items[i].weight, Scale(items);
    ScaleIsLeast(items, scale);
    assert Integral(w, scale);
    assert w.num * scale > 0;
    ExactQuotient(w.den, w.num * scale);
    Scaled(Copies(w, scale), w.den);
  }

  /** Copies are in the proportion of the weights. */
  lemma CopiesProportional(items: seq<Item>, i: nat, j: nat)
    requires AllWeighted(items) && i < |items| && j < |items|
    ensures
      var a, b, scale := items[i].weight, items[j].weight, Scale(items);
      Copies(a, scale) * (b.num * a.den) == Copies(b, scale) * (a.num * b.den)
  {
    var a, b, scale := items[i].weight, items[j].weight, Scale(items);
    CopiesExact(items, i);
    CopiesExact(items, j);
    CrossProducts(Copies(a, scale), Copies(b, scale), a.num, a.den, b.num, b.den, scale);
  }

  lemma CrossProducts(m: nat, n: nat, p: nat, q: nat, r: nat, s: nat, scale: nat)
    requires m * q == p * scale && n * s == r * scale
    ensures m * (r * q) == n * (p * s)
  {
    assert m * (r * q) == (m * q) * r;
    assert n * (p * s) == (n * s) * p;
    assert (p * scale) * r == (r * scale) * p;
  }

  function Numerators(items: seq<Item>): (ns: seq<nat>)
    requires AllWeighted(items)
    ensures |ns| == |items| && forall i :: 0 <= i < |ns| ==> ns[i] == items[i].weight.num
  {
    seq(|items|, i requires 0 <= i < |items| => assert Weighted(items[i]); items[i].weight.num)
  }

  function CopiesOf(items: seq<Item>): (ns: seq<nat>)
    requires AllWeighted(items)
    ensures |ns| == |items| && forall i :: 0 <= i < |ns| ==> ns[i] == Copies(items[i].weight, Scale(items))
  {
    seq(|items|, i requires 0 <= i < |items| => assert Weighted(items[i]); Copies(items[i].weight, Scale(items)))
  }

  /** A number that divides the copies of every record. */
  ghost predicate Reduces(d: nat, items: seq<Item>)
    requires AllWeighted(items)
  {
    d >= 2 && forall i :: 0 <= i < |items| ==> Divides(d, Copies(items[i].weight, Scale(items)))
  }

  lemma WholeScale(copies: nat, num: nat, den: nat, m: nat)
    requires den > 0 && copies * den == num * (m * den)
    ensures copies == m * num
  {
    assert num * (m * den) == den * (m * num);
    assert copies * den == den * copies;
    Cancel(den, copies, m * num);
  }

  /** A common divisor of the numerators divides all copies. */
  lemma NumeratorsReduce(items: seq<Item>)
    requires AllWeighted(items) && GcdAll(Numerators(items)) >= 2
    ensures Reduces(GcdAll(Numerators(items)), items)
  {
    var g, scale := GcdAll(Numerators(items)), Scale(items);
    forall i | 0 <= i < |items|
      ensures Divides(g, Copies(items[i].weight, scale))
    {
      var w := items[i].weight;
      GcdAllDivides(Numerators(items), i);
      ScaleDivided(items, i);
      ExactQuotient(w.den, scale);
      CopiesExact(items, i);
      var m := scale / w.den;
      WholeScale(Copies(w, scale), w.num, w.den, m);
      DividesProduct(g, w.num, m);
    }
  }

  /** With coprime numerators nothing divides all copies. */
  lemma CoprimeNumeratorsReduceNot(items: seq<Item>, d: nat)
    requires AllWeighted(items) && items != [] && GcdAll(Numerators(items)) == 1
    ensures !Reduces(d, items)
  {
    if Reduces(d, items) {
      var scale := Scale(items);
      forall i | 0 <= i < |items|
        ensures Divides(d, Numerators(items)[i] * scale)
      {
        CopiesExact(items, i);
        DividesProduct(d, Copies(items[i].weight, scale), items[i].weight.den);
        assert items[i].weight.den * Copies(items[i].weight, scale) == items[i].weight.num * scale;
      }
      DividesGcdAll(Numerators(items), d, scale);
      assert 1 * scale == scale;
      ExactQuotient(d, scale);
      SmallerScale(items, d, scale / d);
      DivisorAtMost(scale, scale / d);
      Scaled(scale / d, d);
      Twice(scale / d, d);
    }
  }

  lemma Twice(m: nat, d: nat)
    requires d >= 2
    ensures m * d >= m + m
  {
    assert m * d == m * (d - 2) + m + m;
  }

  /** A factor that a whole number of copies shares with the scale. */
  lemma SharedFactor(copies: nat, k: int, d: nat, num: nat, den: nat, m: nat)
    requires d > 0 && copies == k * d && copies * den == num * (m * d)
    ensures num * m == k * den
  {
    assert (k * d) * den == d * (k * den);
    assert num * (m * d) == d * (num * m);
    Cancel(d, k * den, num * m);
  }

  /** A common divisor of the copies and of the scale could be taken out of the scale. */
  lemma SmallerScale(items: seq<Item>, d: nat, m: nat)
    requires AllWeighted(items) && Reduces(d, items) && Scale(items) == m * d && m > 0
    ensures Divides(Scale(items), m)
  {
    forall i | 0 <= i < |items|
      ensures Divides(items[i].weight.den, m)
    {
      var w, scale := items[i].weight, Scale(items);
      CopiesExact(items, i);
      var k: int :| Copies(w, scale) == k * d;
      SharedFactor(Copies(w, scale), k, d, w.num, w.den, m);
      DividesBy(w.den, w.num * m, k);
      assert Integral(w, m);
      IntegralMeans(w, m);
    }
    ScaleDivides(items, m);
  }

  /** Positive whole numbers in the proportions of the weights, which are those of the copies. */
  ghost predicate InProportion(ns: seq<nat>, items: seq<Item>)
    requires AllWeighted(items)
  {
    && |ns| == |items|
    && (forall i :: 0 <= i < |ns| ==> ns[i] > 0)
    && forall i, j :: 0 <= i < |ns| && 0 <= j < |ns| ==>
         ns[i] * (items[j].weight.num * items[i].weight.den) == ns[j] * (items[i].weight.num * items[j].weight.den)
  }

  lemma CopiesInProportion(items: seq<Item>)
    requires AllWeighted(items)
    ensures InProportion(CopiesOf(items), items)
  {
    forall i, j | 0 <= i < |items| && 0 <= j < |items|
      ensures CopiesOf(items)[i] * (items[j].weight.num * items[i].weight.den) ==
              CopiesOf(items)[j] * (items[i].weight.num * items[j].weight.den)
    {
      CopiesProportional(items, i, j);
    }
    forall i | 0 <= i < |items| ensures CopiesOf(items)[i] > 0 {
      CopiesExact(items, i);
    }
  }

  lemma SameRatio(n: nat, m: nat, c: nat, e: nat, p: nat, q: nat, r: nat, s: nat, scale: nat)
    requires n * (r * q) == m * (p * s) && c * q == p * scale && e * s == r * scale && q > 0 && s > 0
    ensures n * e == m * c
  {
    Rearrange(n, e, s, q, r, scale);
    Rearrange(m, c, q, s, p, scale);
    Cancel(s * q, n * e, m * c);
  }

  lemma Rearrange(n: nat, e: nat, s: nat, q: nat, r: nat, scale: nat)
    requires e * s == r * scale
    ensures (s * q) * (n * e) == scale * (n * (r * q))
  {
    assert (s * q) * (n * e) == (n * q) * (e * s);
    assert (n * q) * (r * scale) == scale * (n * (r * q));
  }

  /** Numbers in the proportion of the weights are in the proportion of the copies. */
  lemma ProportionOfCopies(ns: seq<nat>, items: seq<Item>, i: nat, j: nat)
    requires AllWeighted(items) && InProportion(ns, items) && i < |items| && j < |items|
    ensures ns[i] * CopiesOf(items)[j] == ns[j] * CopiesOf(items)[i]
  {
    var a, b := items[i].weight, items[j].weight;
    CopiesExact(items, i);
    CopiesExact(items, j);
    SameRatio(ns[i], ns[j], CopiesOf(items)[i], CopiesOf(items)[j], a.num, a.den, b.num, b.den, Scale(items));
  }

  /** With coprime numerators, whole numbers in these proportions are multiples of the copies. */
  lemma CopiesDivide(ns: seq<nat>, items: seq<Item>, i: nat)
    requires AllWeighted(items) && GcdAll(Numerators(items)) == 1 && InProportion(ns, items) && i < |items|
    ensures Divides(CopiesOf(items)[i], ns[i])
  {
    var copies := CopiesOf(items);
    CoprimeNumeratorsReduceNot(items, GcdAll(copies));
    forall j | 0 <= j < |items|
      ensures Divides(GcdAll(copies), copies[j]) && Divides(copies[i], copies[j] * ns[i])
    {
      GcdAllDivides(copies, j);
      ProportionOfCopies(ns, items, i, j);
      DividesBy(copies[i], copies[j] * ns[i], ns[j]);
    }
    CopiesExact(items, i);
    DivisorAtMost(GcdAll(copies), copies[i]);
    DividesGcdAll(copies, copies[i], ns[i]);
    assert 1 * ns[i] == ns[i];
  }

  /** Dividing out a common divisor of all copies keeps the proportions. */
  lemma FewerCopies(items: seq<Item>, d: nat) returns (ns: seq<nat>)
    requires AllWeighted(items) && items != [] && Reduces(d, items)
    ensures InProportion(ns, items) && forall i :: 0 <= i < |ns| ==> ns[i] < CopiesOf(items)[i]
  {
    var copies := CopiesOf(items);
    ns := seq(|items|, i requires 0 <= i < |items| => copies[i] / d);
    forall i | 0 <= i < |items|
      ensures copies[i] == ns[i] * d && 0 < ns[i] < copies[i]
    {
      CopiesExact(items, i);
      ExactQuotient(d, copies[i]);
      Scaled(ns[i], d);
      Twice(ns[i], d);
    }
    forall i, j | 0 <= i < |items| && 0 <= j < |items|
      ensures ns[i] * (items[j].weight.num * items[i].weight.den) == ns[j] * (items[i].weight.num * items[j].weight.den)
    {
      CopiesProportional(items, i, j);
      DivideRatio(ns[i], ns[j], d, items[j].weight.num * items[i].weight.den,
                  items[i].weight.num * items[j].weight.den);
    }
  }

  lemma DivideRatio(n: nat, m: nat, d: nat, x: nat, y: nat)
    requires d > 0 && (n * d) * x == (m * d) * y
    ensures n * x == m * y
  {
    assert (n * d) * x == d * (n * x) && (m * d) * y == d * (m * y);
    Cancel(d, n * x, m * y);
  }

  /**
   The copies are the fewest: there are positive whole numbers in the proportions of the
   weights of which one is smaller exactly if the numerators have a common divisor; and
   without one no number is smaller.
   */
  lemma FewestCopies(items: seq<Item>)
    requires AllWeighted(items) && items != []
    ensures InProportion(CopiesOf(items), items)
    ensures GcdAll(Numerators(items)) != 1 <==>
      exists ns :: InProportion(ns, items) && exists i :: 0 <= i < |ns| && ns[i] < CopiesOf(items)[i]
  {
    CopiesInProportion(items);
    GcdAllDivides(Numerators(items), 0);
    DivisorAtMost(GcdAll(Numerators(items)), items[0].weight.num);
    if GcdAll(Numerators(items)) == 1 {
      forall ns, i | InProportion(ns, items) && 0 <= i < |ns|
        ensures ns[i] >= CopiesOf(items)[i]
      {
        CopiesDivide(ns, items, i);
        DivisorAtMost(CopiesOf(items)[i], ns[i]);
      }
    } else {
      NumeratorsReduce(items);
      var ns := FewerCopies(items, GcdAll(Numerators(items)));
      assert ns[0] < CopiesOf(items)[0];
    }
  }

  /** The documentation promises the fewest copies; two records of weight two get two copies each. */
  lemma NotAlwaysFewest(a: string, b: string)
    ensures
      var items := [Item(Fraction(2, 1), a), Item(Fraction(2, 1), b)];
      AllWeighted(items) && CopiesOf(items) == [2, 2] && InProportion([1, 1], items)
  {
    var one, items := [Item(Fraction(2, 1), a)], [Item(Fraction(2, 1), a), Item(Fraction(2, 1), b)];
    assert items[..1] == one && one[..0] == [];
    LcmOne();
    assert Scale(one) == 1;
    assert Scale(items) == Lcm(Scale(one), 1);
  }

  // -------------------------------------------------------------- qualification

  datatype Counts = Counts(scanned: nat, selected: nat, invalid: nat, withoutLabels: nat, tooLong: nat)

  datatype Verdict = Skipped | Invalid | Aborts | WithoutLabels | TooLong | Selected(item: Item)

  /** What becomes of one line. */
  function Judge(line: Line, sequenceLength: nat): Verdict {
    if line.Blank? then Skipped
    else if RecordWeight(line.weight).Failure? || line.preparation.Rejected? then Invalid
    else if line.preparation.Unhandled? then Aborts
    else
      var prepared := line.preparation.prepared;
      if prepared.labelTokens == 0 then WithoutLabels
      else if prepared.totalTokens > sequenceLength then TooLong
      else Selected(Item(line.weight.value, prepared.text))
  }

  /** The records that fit, in order. */
  function Fitting(lines: seq<Line>, sequenceLength: nat): seq<Item> {
    if lines == [] then []
    else
      var verdict := Judge(lines[|lines| - 1], sequenceLength);
      Fitting(lines[..|lines| - 1], sequenceLength) + if verdict.Selected? then [verdict.item] else []
  }

  function Counted(c: Counts, verdict: Verdict): Counts {
    match verdict
    case Skipped => c
    case Invalid => c.(scanned := c.scanned + 1, invalid := c.invalid + 1)
    case Aborts => c.(scanned := c.scanned + 1)
    case WithoutLabels => c.(scanned := c.scanned + 1, withoutLabels := c.withoutLabels + 1)
    case TooLong => c.(scanned := c.scanned + 1, tooLong := c.tooLong + 1)
    case Selected(_) => c.(scanned := c.scanned + 1, selected := c.selected + 1)
  }

  /** How many lines met each verdict. */
  function Tally(lines: seq<Line>, sequenceLength: nat): Counts {
    if lines == [] then Counts(0, 0, 0, 0, 0)
    else Counted(Tally(lines[..|lines| - 1], sequenceLength), Judge(lines[|lines| - 1], sequenceLength))
  }

  lemma ScanNext(lines: seq<Line>, k: nat, sequenceLength: nat)
    requires k < |lines|
    ensures
      var verdict := Judge(lines[k], sequenceLength);
      && Tally(lines[..k + 1], sequenceLength) == Counted(Tally(lines[..k], sequenceLength), verdict)
      && Fitting(lines[..k + 1], sequenceLength) ==
           Fitting(lines[..k], sequenceLength) + if verdict.Selected? then [verdict.item] else []
  {
    assert lines[..k + 1][..k] == lines[..k];
  }

  function NotBlank(lines: seq<Line>): nat {
    if lines == [] then 0 else NotBlank(lines[..|lines| - 1]) + if lines[|lines| - 1].Blank? then 0 else 1
  }

  predicate Aborting(lines: seq<Line>, sequenceLength: nat) {
    exists k :: 0 <= k < |lines| && Judge(lines[k], sequenceLength).Aborts?
  }

  /** In a scan that completes, every line that is not blank is counted once, under one heading. */
  lemma {:induction false} TallyBalances(lines: seq<Line>, sequenceLength: nat)
    requires !Aborting(lines, sequenceLength)
    ensures
      var c := Tally(lines, sequenceLength);
      && c.scanned == NotBlank(lines) == c.selected + c.invalid + c.withoutLabels + c.tooLong
      && c.selected == |Fitting(lines, sequenceLength)|
  {
    if lines != [] {
      var init := lines[..|lines| - 1];
      assert !Aborting(init, sequenceLength) by {
        assert forall k :: 0 <= k < |init| ==> init[k] == lines[k];
      }
      TallyBalances(init, sequenceLength);
    }
  }

  /** Why a scan stops before line k: the lines are over, enough records are selected, or the line aborts it. */
  predicate Full(lines: seq<Line>, sequenceLength: nat, maximum: Option<nat>, k: nat)
    requires k <= |lines|
  {
    k == |lines| || (maximum.Some? && |Fitting(lines[..k], sequenceLength)| >= maximum.value)
  }

  /** The scan reads exactly the first k lines to their end. */
  ghost predicate Reads(lines: seq<Line>, sequenceLength: nat, maximum: Option<nat>, k: nat) {
    && k <= |lines|
    && (forall j: nat :: j < k ==> !Full(lines, sequenceLength, maximum, j) && !Judge(lines[j], sequenceLength).Aborts?)
    && (Full(lines, sequenceLength, maximum, k) || Judge(lines[k], sequenceLength).Aborts?)
  }

  /** The lines determine how far a scan reads. */
  lemma ReadsOnce(lines: seq<Line>, sequenceLength: nat, maximum: Option<nat>, j: nat, k: nat)
    requires Reads(lines, sequenceLength, maximum, j) && Reads(lines, sequenceLength, maximum, k)
    ensures j == k
  {
  }

  /** The first pass: selects what fits, up to a maximum; it aborts at an error that nothing handles. */
  method Select(lines: seq<Line>, sequenceLength: nat, maximum: Option<nat>)
    returns (items: seq<Item>, counts: Counts, read: nat, aborted: bool)
    ensures Reads(lines, sequenceLength, maximum, read) && (aborted <==> !Full(lines, sequenceLength, maximum, read))
    ensures items == Fitting(lines[..read], sequenceLength) && counts == Tally(lines[..read], sequenceLength)
    ensures maximum.Some? ==> |items| <= maximum.value
  {
    items, counts, read := [], Counts(0, 0, 0, 0, 0), 0;
    while read < |lines| && !(maximum.Some? && counts.selected >= maximum.value)
      invariant read <= |lines| && items == Fitting(lines[..read], sequenceLength)
      invariant counts == Tally(lines[..read], sequenceLength) && counts.selected == |items|
      invariant maximum.Some? ==> |items| <= maximum.value
      invariant forall j: nat :: j < read ==>
        !Full(lines, sequenceLength, maximum, j) && !Judge(lines[j], sequenceLength).Aborts?
    {
      ScanNext(lines, read, sequenceLength);
      match Judge(lines[read], sequenceLength) {
        case Skipped =>
        case Invalid => counts := counts.(scanned := counts.scanned + 1, invalid := counts.invalid + 1);
        case Aborts => return items, counts, read, true;
        case WithoutLabels => counts := counts.(scanned := counts.scanned + 1, withoutLabels :=
          counts.withoutLabels + 1);
        case TooLong => counts := counts.(scanned := counts.scanned + 1, tooLong := counts.tooLong + 1);
        case Selected(item) =>
          counts := counts.(scanned := counts.scanned + 1, selected := counts.selected + 1);
          items := items + [item];
      }
      read := read + 1;
    }
    aborted := false;
  }

  function Repeat(text: string, n: nat): (copies: seq<string>)
    ensures |copies| == n && forall k :: 0 <= k < n ==> copies[k] == text
  {
    seq(n, _ => text)
  }

  /** Every record in order, as often as its weight times the scale. */
  function Expansion(items: seq<Item>, scale: nat): seq<string>
    requires AllWeighted(items)
  {
    if items == [] then []
    else
      var init, last := items[..|items| - 1], items[|items| - 1];
      assert AllWeighted(init);
      Expansion(init, scale) + Repeat(last.text, Copies(last.weight, scale))
  }

  /** The least common multiple of the denominators. */
  method ScaleOf(items: seq<Item>) returns (scale: nat)
    requires AllWeighted(items)
    ensures scale == Scale(items)
  {
    scale := 1;
    for k := 0 to |items|
      invariant AllWeighted(items[..k]) && scale == Scale(items[..k])
    {
      assert items[..k + 1][..k] == items[..k];
      scale := Lcm(scale, items[k].weight.den);
    }
    assert items[..|items|] == items;
  }

  /** The second pass over the selected records: writes the copies of each. */
  method Expand(items: seq<Item>) returns (output: seq<string>, scale: nat)
    requires AllWeighted(items)
    ensures scale == Scale(items) && output == Expansion(items, scale)
  {
    scale := ScaleOf(items);
    output := [];
    for k := 0 to |items|
      invariant AllWeighted(items[..k]) && output == Expansion(items[..k], scale)
    {
      assert items[..k + 1][..k] == items[..k];
      var repetitions := items[k].weight.num * scale / items[k].weight.den;
      var start := output;
      for n := 0 to repetitions
        invariant output == start + Repeat(items[k].text, n)
      {
        RepeatNext(start, items[k].text, n);
        output := output + [items[k].text];
      }
    }
    assert items[..|items|] == items;
  }

  lemma RepeatNext(start: seq<string>, text: string, n: nat)
    ensures start + Repeat(text, n) + [text] == start + Repeat(text, n + 1)
  {
  }

  lemma {:induction false} FittingWeighted(lines: seq<Line>, sequenceLength: nat)
    requires AllReduced(lines)
    ensures AllWeighted(Fitting(lines, sequenceLength))
  {
    if lines != [] {
      var init := lines[..|lines| - 1];
      forall i | 0 <= i < |init| && init[i].Record? && init[i].weight.Some?
        ensures init[i].weight.value.Reduced()
      {
        assert init[i] == lines[i];
      }
      FittingWeighted(init, sequenceLength);
    }
  }

  /** Fractions are in lowest terms, as the parser leaves them. */
  ghost predicate AllReduced(lines: seq<Line>) {
    forall i :: 0 <= i < |lines| && lines[i].Record? && lines[i].weight.Some? ==> lines[i].weight.value.Reduced()
  }

  /** The whole qualification. It fails exactly if a line that it reaches raises an unhandled error, or nothing fits. */
  method Qualify(lines: seq<Line>, sequenceLength: nat, maximum: Option<nat>)
    returns (r: Result<seq<string>, Error>, counts: Counts, scale: nat, ghost items: seq<Item>, ghost read: nat)
    requires AllReduced(lines)
    ensures Reads(lines, sequenceLength, maximum, read)
    ensures items == Fitting(lines[..read], sequenceLength) && counts == Tally(lines[..read], sequenceLength)
    ensures r == Failure(UnhandledError) <==> !Full(lines, sequenceLength, maximum, read)
    ensures r == Failure(NothingFits) <==> Full(lines, sequenceLength, maximum, read) && items == []
    ensures r.Failure? ==> r.error == UnhandledError || r.error == NothingFits
    ensures AllWeighted(items)
    ensures r.Success? ==> scale == Scale(items) && r.value == Expansion(items, scale)
  {
    var selected, c, n, aborted := Select(lines, sequenceLength, maximum);
    assert AllReduced(lines[..n]);
    FittingWeighted(lines[..n], sequenceLength);
    items, counts, read, scale := selected, c, n, 1;
    if aborted {
      return Failure(UnhandledError), counts, scale, items, read;
    }
    if selected == [] {
      return Failure(NothingFits), counts, scale, items, read;
    }
    var output;
    output, scale := Expand(selected);
    r := Success(output);
  }

  // ---------------------------------------------------------------- second pass

  /** A line for each written record, with unit weight. */
  function Rewritten(output: seq<string>, tokens: string -> (nat, nat)): (lines: seq<Line>)
    ensures |lines| == |output|
    ensures forall k :: 0 <= k < |output| ==>
      lines[k] == Record(Some(Fraction(1, 1)), Ready(Prepared(output[k], tokens(output[k]).0, tokens(output[k]).1)))
  {
    seq(|output|, k requires 0 <= k < |output| =>
      Record(Some(Fraction(1, 1)), Ready(Prepared(output[k], tokens(output[k]).0, tokens(output[k]).1))))
  }

  function Unit(output: seq<string>): (items: seq<Item>)
    ensures |items| == |output| && forall k :: 0 <= k < |output| ==> items[k] == Item(Fraction(1, 1), output[k])
  {
    seq(|output|, k requires 0 <= k < |output| => Item(Fraction(1, 1), output[k]))
  }

  predicate Fits(text: string, tokens: string -> (nat, nat), sequenceLength: nat) {
    tokens(text).1 > 0 && tokens(text).0 <= sequenceLength
  }

  /** What was written is selected again, every record once. */
  lemma {:induction false} RewrittenFits(output: seq<string>, tokens: string -> (nat, nat), sequenceLength: nat)
    requires forall k :: 0 <= k < |output| ==> Fits(output[k], tokens, sequenceLength)
    ensures Fitting(Rewritten(output, tokens), sequenceLength) == Unit(output)
  {
    if output != [] {
      var init := output[..|output| - 1];
      RewrittenFits(init, tokens, sequenceLength);
      assert Rewritten(output, tokens)[..|output| - 1] == Rewritten(init, tokens);
      assert Unit(output) == Unit(init) + [Item(Fraction(1, 1), output[|output| - 1])];
      assert Fits(output[|output| - 1], tokens, sequenceLength);
    }
  }

  lemma UnitWeighted(output: seq<string>)
    ensures AllWeighted(Unit(output))
  {
    assert Gcd(1, 1) == 1;
  }

  /** A second pass neither scales nor repeats. */
  lemma {:induction false} UnitExpansion(output: seq<string>)
    ensures AllWeighted(Unit(output))
    ensures Scale(Unit(output)) == 1 && Expansion(Unit(output), 1) == output
  {
    UnitWeighted(output);
    if output != [] {
      var init := output[..|output| - 1];
      UnitExpansion(init);
      assert Unit(output)[..|output| - 1] == Unit(init);
      LcmOne();
      assert Repeat(output[|output| - 1], 1) == [output[|output| - 1]];
    }
  }

  /** Tokens depend on the text alone. */
  ghost predicate Tokenized(lines: seq<Line>, tokens: string -> (nat, nat)) {
    forall i :: 0 <= i < |lines| && lines[i].Record? && lines[i].preparation.Ready? ==>
      var p := lines[i].preparation.prepared;
      tokens(p.text) == (p.totalTokens, p.labelTokens)
  }

  lemma {:induction false} FittingFits(lines: seq<Line>, tokens: string -> (nat, nat), sequenceLength: nat)
    requires Tokenized(lines, tokens)
    ensures forall i :: 0 <= i < |Fitting(lines, sequenceLength)| ==>
      Fits(Fitting(lines, sequenceLength)[i].text, tokens, sequenceLength)
  {
    if lines != [] {
      var init := lines[..|lines| - 1];
      assert Tokenized(init, tokens) by {
        assert forall i :: 0 <= i < |init| ==> init[i] == lines[i];
      }
      FittingFits(init, tokens, sequenceLength);
    }
  }

  lemma {:induction false} ExpansionFits(items: seq<Item>, scale: nat, tokens: string -> (nat, nat),
                                         sequenceLength: nat)
    requires AllWeighted(items) && forall i :: 0 <= i < |items| ==> Fits(items[i].text, tokens, sequenceLength)
    ensures forall k :: 0 <= k < |Expansion(items, scale)| ==> Fits(Expansion(items, scale)[k], tokens, sequenceLength)
  {
    if items != [] {
      var init := items[..|items| - 1];
      assert AllWeighted(init);
      forall i | 0 <= i < |init|
        ensures Fits(init[i].text, tokens, sequenceLength)
      {
        assert init[i] == items[i];
      }
      ExpansionFits(init, scale, tokens, sequenceLength);
    }
  }

  function TotalCopies(items: seq<Item>, scale: nat): nat
    requires AllWeighted(items)
  {
    if items == [] then 0
    else
      var init, last := items[..|items| - 1], items[|items| - 1];
      assert AllWeighted(init);
      TotalCopies(init, scale) + Copies(last.weight, scale)
  }

  lemma {:induction false} ExpansionLength(items: seq<Item>, scale: nat)
    requires AllWeighted(items)
    ensures |Expansion(items, scale)| == TotalCopies(items, scale)
  {
    if items != [] {
      var init := items[..|items| - 1];
      assert AllWeighted(init);
      ExpansionLength(init, scale);
    }
  }

  lemma TakeRewritten(output: seq<string>, tokens: string -> (nat, nat), n: nat)
    requires n <= |output|
    ensures Rewritten(output, tokens)[..n] == Rewritten(output[..n], tokens)
  {
  }

  /** A scan of fitting records reads as many as the maximum allows. */
  lemma RewrittenRead(output: seq<string>, tokens: string -> (nat, nat), sequenceLength: nat, maximum: Option<nat>,
                      n: nat)
    requires forall k :: 0 <= k < |output| ==> Fits(output[k], tokens, sequenceLength)
    requires Reads(Rewritten(output, tokens), sequenceLength, maximum, n)
    ensures n == if maximum.Some? && maximum.value < |output| then maximum.value else |output|
    ensures Full(Rewritten(output, tokens), sequenceLength, maximum, n)
    ensures Fitting(Rewritten(output, tokens)[..n], sequenceLength) == Unit(output[..n])
  {
    forall k: nat | k <= |output|
      ensures Fitting(Rewritten(output, tokens)[..k], sequenceLength) == Unit(output[..k])
    {
      TakeRewritten(output, tokens, k);
      RewrittenFits(output[..k], tokens, sequenceLength);
    }
    assert n < |output| ==> Fits(output[n], tokens, sequenceLength);
    var m := if maximum.Some? && maximum.value < |output| then maximum.value else |output|;
    assert Full(Rewritten(output, tokens), sequenceLength, maximum, m);
  }

  /**
   Qualifying again what was written, with the same limits: the second pass writes the
   first lines of it once each, as many as the maximum allows. It keeps everything
   exactly if there is no maximum, or the copies of all records together do not exceed it.
   */
  lemma SecondPassKeeps(lines: seq<Line>, tokens: string -> (nat, nat), sequenceLength: nat, maximum: Option<nat>,
                        read: nat, readAgain: nat)
    requires AllReduced(lines) && Tokenized(lines, tokens) && Reads(lines, sequenceLength, maximum, read)
    requires AllWeighted(Fitting(lines[..read], sequenceLength))
    requires
      var items := Fitting(lines[..read], sequenceLength);
      Reads(Rewritten(Expansion(items, Scale(items)), tokens), sequenceLength, maximum, readAgain)
    ensures
      var items := Fitting(lines[..read], sequenceLength);
      var output := Expansion(items, Scale(items));
      var total := TotalCopies(items, Scale(items));
      var again := Fitting(Rewritten(output, tokens)[..readAgain], sequenceLength);
      && Full(Rewritten(output, tokens), sequenceLength, maximum, readAgain) && |output| == total
      && readAgain == (if maximum.Some? && maximum.value < total then maximum.value else total)
      && AllWeighted(again) && Scale(again) == 1 && Expansion(again, Scale(again)) == output[..readAgain]
      && (output[..readAgain] == output <==> maximum.None? || total <= maximum.value)
  {
    var items := Fitting(lines[..read], sequenceLength);
    var output := Expansion(items, Scale(items));
    assert Tokenized(lines[..read], tokens);
    FittingFits(lines[..read], tokens, sequenceLength);
    ExpansionFits(items, Scale(items), tokens, sequenceLength);
    ExpansionLength(items, Scale(items));
    RewrittenRead(output, tokens, sequenceLength, maximum, readAgain);
    UnitExpansion(output[..readAgain]);
  }

  /** One record of weight two is written twice, and with a maximum of one the second pass keeps one line of it. */
  lemma SecondPassDrops(text: string, tokens: string -> (nat, nat), sequenceLength: nat)
    requires Fits(text, tokens, sequenceLength)
    ensures
      var lines := [Record(Some(Fraction(2, 1)), Ready(Prepared(text, tokens(text).0, tokens(text).1)))];
      var items := [Item(Fraction(2, 1), text)];
      && AllReduced(lines) && Tokenized(lines, tokens) && AllWeighted(items)
      && Reads(lines, sequenceLength, Some(1), 1) && Fitting(lines, sequenceLength) == items
      && Expansion(items, Scale(items)) == [text, text]
      && Reads(Rewritten([text, text], tokens), sequenceLength, Some(1), 1)
      && Fitting(Rewritten([text, text], tokens)[..1], sequenceLength) == Unit([text])
  {
    var line := Record(Some(Fraction(2, 1)), Ready(Prepared(text, tokens(text).0, tokens(text).1)));
    FittingOne(line, sequenceLength);
    TwiceWritten(text);
    var again := Rewritten([text, text], tokens);
    FittingOne(again[0], sequenceLength);
    assert [line][..0] == [] && [line][..1] == [line] && again[..0] == [] && again[..1] == [again[0]];
    assert Unit([text]) == [Item(Fraction(1, 1), text)];
  }

  lemma FittingOne(line: Line, sequenceLength: nat)
    ensures var verdict := Judge(line, sequenceLength);
      Fitting([line], sequenceLength) == if verdict.Selected? then [verdict.item] else []
    ensures Fitting([], sequenceLength) == []
  {
    assert [line][..0] == [];
  }

  lemma TwiceWritten(text: string)
    ensures var items := [Item(Fraction(2, 1), text)];
      AllWeighted(items) && Expansion(items, Scale(items)) == [text, text]
  {
    var items := [Item(Fraction(2, 1), text)];
    assert items[..0] == [];
    LcmOne();
    assert Scale(items) == Lcm(Scale([]), 1);
    assert Repeat(text, 2) == [text, text];
  }
}
