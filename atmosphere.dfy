/**
 * A model of the decision logic of the atmospheric composition predictor:
 * the normalizer that rescales the predicted gas vector so that it sums to
 * one hundred, the threshold rule that gives every gas percentage one of
 * four descriptors, and the report that pairs the fixed gas labels with the
 * normalized percentages.
 *
 * Percentages are mathematical reals; the program itself works on IEEE
 * doubles, so "sums to 100" is the intended behaviour, not a bit-exact one.
 */
module Atmosphere {

  // ---------------------------------------------------------------------
  // Gas labels
  // ---------------------------------------------------------------------

  /** The predicted gases, in the order of the model's output columns. */
  const GASES: seq<string> := ["CO2", "N2", "O2", "H2O", "CH4", "H2", "He", "SO2", "O3", "NH3"]

  function Min(a: nat, b: nat): nat { if a <= b then a else b }

  // ---------------------------------------------------------------------
  // Descriptor classifier
  // ---------------------------------------------------------------------

  /** The four qualitative buckets, lowest first. */
  datatype Descriptor = Trace | Minor | Major | Dominant

  /** Position of a bucket in the order Trace < Minor < Major < Dominant. */
  function Rank(d: Descriptor): nat
  {
    match d
    case Trace => 0
    case Minor => 1
    case Major => 2
    case Dominant => 3
  }

  /** The suffix the report prints after a percentage. */
  function Text(d: Descriptor): (r: string)
    ensures |r| > 3 && r[..3] == [' ', '\U{2014}', ' ']
  {
    match d
    case Dominant => " \U{2014} Dominant gas"
    case Major => " \U{2014} Major component"
    case Minor => " \U{2014} Minor component"
    case Trace => " \U{2014} Trace presence"
  }

  /** Exclusive lower bound of a bucket; Trace is unbounded below. */
  function Floor(d: Descriptor): real
    requires d != Trace
  {
    match d
    case Minor => 5.0
    case Major => 20.0
    case Dominant => 60.0
  }

  /** Inclusive upper bound of a bucket; Dominant is unbounded above. */
  function Ceiling(d: Descriptor): real
    requires d != Dominant
  {
    match d
    case Trace => 5.0
    case Minor => 20.0
    case Major => 60.0
  }

  /** The half-open interval (Floor, Ceiling] that a bucket covers. */
  predicate InBand(p: real, d: Descriptor)
  {
    (d == Trace || Floor(d) < p) && (d == Dominant || p <= Ceiling(d))
  }

  /** The if/elif chain of the report: strict comparisons against 60, 20 and 5. */
  function Classify(p: real): (d: Descriptor)
    ensures InBand(p, d)
  {
    if p > 60.0 then Dominant
    else if p > 20.0 then Major
    else if p > 5.0 then Minor
    else Trace
  }

  /** The bands do not overlap: no percentage lies in two of them. */
  lemma BandsDisjoint(p: real, d1: Descriptor, d2: Descriptor)
    requires InBand(p, d1) && InBand(p, d2)
    ensures d1 == d2
  {
  }

  /** Every percentage gets exactly one descriptor: the one whose band holds it. */
  lemma ClassifyExactlyOne(p: real, d: Descriptor)
    ensures Classify(p) == d <==> InBand(p, d)
  {
    if InBand(p, d) {
      BandsDisjoint(p, Classify(p), d);
    }
  }

  /** The thresholds are strict: a value equal to one falls in the bucket below. */
  lemma ThresholdsStrict()
    ensures Classify(60.0) == Major
    ensures Classify(20.0) == Minor
    ensures Classify(5.0) == Trace
  {
  }

  /** A larger percentage never gets a lower bucket. */
  lemma ClassifyMonotone(p: real, q: real)
    requires p <= q
    ensures Rank(Classify(p)) <= Rank(Classify(q))
  {
  }

  /** Distinct buckets print distinct suffixes. */
  lemma TextInjective(d1: Descriptor, d2: Descriptor)
    requires Text(d1) == Text(d2)
    ensures d1 == d2
  {
  }

  // ---------------------------------------------------------------------
  // Normalizer
  // ---------------------------------------------------------------------

  /** No component is negative, stated component by component from the front. */
  predicate Nonnegative(s: seq<real>)
  {
    s == [] || (s[0] >= 0.0 && Nonnegative(s[1..]))
  }

  /** A vector none of whose components is negative satisfies Nonnegative. */
  lemma {:induction false} NonnegativeAll(s: seq<real>)
    requires forall k :: 0 <= k < |s| ==> s[k] >= 0.0
    ensures Nonnegative(s)
  {
    if s != [] {
      assert forall k :: 0 <= k < |s| - 1 ==> s[1..][k] == s[k + 1];
      NonnegativeAll(s[1..]);
    }
  }

  /** `np.sum`: the total of the components; it is nonnegative when every component is. */
  function Sum(s: seq<real>): (r: real)
    ensures Nonnegative(s) ==> r >= 0.0
  {
    if s == [] then 0.0 else s[0] + Sum(s[1..])
  }

  /**
   * Every component multiplied by 100 and divided by t, element by element
   * as numpy broadcasts `100 * raw / t`.
   */
  function Shares(s: seq<real>, t: real): (r: seq<real>)
    requires t != 0.0
    ensures |r| == |s|
    ensures forall i :: 0 <= i < |s| ==> r[i] == 100.0 * s[i] / t
  {
    if s == [] then [] else [100.0 * s[0] / t] + Shares(s[1..], t)
  }

  /** The shares of s sum to 100 * Sum(s) / t. */
  lemma {:induction false} SumShares(s: seq<real>, t: real)
    requires t != 0.0
    ensures Sum(Shares(s, t)) == 100.0 * Sum(s) / t
  {
    if s != [] {
      var r, tail := Shares(s, t), Shares(s[1..], t);
      SumShares(s[1..], t);
      assert r[1..] == tail;
      assert Sum(r) == r[0] + Sum(tail);
      AddQuotients(s[0], Sum(s[1..]), Sum(s), t, r[0], Sum(tail), Sum(r));
    }
  }

  /** 100*x/t + 100*y/t == 100*(x+y)/t, stated over plain reals. */
  lemma AddQuotients(x: real, y: real, xy: real, t: real, qx: real, qy: real, q: real)
    requires t != 0.0 && xy == x + y && q == qx + qy
    requires qx == 100.0 * x / t && qy == 100.0 * y / t
    ensures q == 100.0 * xy / t
  {
    assert qx * t == 100.0 * x;
    assert qy * t == 100.0 * y;
    assert q * t == 100.0 * xy;
  }

  lemma QuotientSelf(t: real, q: real)
    requires t != 0.0 && q == 100.0 * t / t
    ensures q == 100.0
  {
  }

  /**
   * `100 * raw / sum(raw)`: every component multiplied by 100 and divided by
   * the sum of the raw vector. A zero sum is outside the domain.
   */
  function Normalize(raw: seq<real>): (r: seq<real>)
    requires Sum(raw) != 0.0
    ensures |r| == |raw|
    ensures forall i :: 0 <= i < |raw| ==> r[i] == 100.0 * raw[i] / Sum(raw)
    ensures Sum(r) == 100.0
  {
    var r := Shares(raw, Sum(raw));
    SumShares(raw, Sum(raw));
    QuotientSelf(Sum(raw), Sum(r));
    r
  }

  /** Dividing by t keeps the order of two values if t > 0 and reverses it if t < 0. */
  lemma QuotientOrder(a: real, b: real, t: real, x: real, y: real)
    requires t != 0.0
    requires x == 100.0 * a / t && y == 100.0 * b / t
    ensures t > 0.0 ==> (a <= b <==> x <= y)
    ensures t < 0.0 ==> (a <= b <==> y <= x)
  {
    assert x * t == 100.0 * a && y * t == 100.0 * b;
    assert (y - x) * t == 100.0 * (b - a);
  }

  /** Dividing by t keeps the order of two shares if t > 0 and reverses it if t < 0. */
  lemma SharesOrder(s: seq<real>, t: real, i: nat, j: nat)
    requires t != 0.0
    requires i < |s| && j < |s|
    ensures t > 0.0 ==> (s[i] <= s[j] <==> Shares(s, t)[i] <= Shares(s, t)[j])
    ensures t < 0.0 ==> (s[i] <= s[j] <==> Shares(s, t)[j] <= Shares(s, t)[i])
  {
    var x, y := Shares(s, t)[i], Shares(s, t)[j];
    assert x == 100.0 * s[i] / t;
    assert y == 100.0 * s[j] / t;
    QuotientOrder(s[i], s[j], t, x, y);
  }

  /** With a positive raw sum normalization keeps the order of the components. */
  lemma NormalizePreservesOrder(raw: seq<real>, i: nat, j: nat)
    requires Sum(raw) > 0.0
    requires i < |raw| && j < |raw|
    ensures raw[i] <= raw[j] <==> Normalize(raw)[i] <= Normalize(raw)[j]
  {
    SharesOrder(raw, Sum(raw), i, j);
  }

  /** The raw output is not guaranteed to be positive; with a negative sum the order is reversed. */
  lemma NormalizeReversesOrder(raw: seq<real>, i: nat, j: nat)
    requires Sum(raw) < 0.0
    requires i < |raw| && j < |raw|
    ensures raw[i] <= raw[j] <==> Normalize(raw)[j] <= Normalize(raw)[i]
  {
    SharesOrder(raw, Sum(raw), i, j);
  }

  /** Dividing nonnegative values by a positive t leaves them nonnegative. */
  lemma SharesNonnegative(s: seq<real>, t: real)
    requires t > 0.0
    requires forall k :: 0 <= k < |s| ==> s[k] >= 0.0
    ensures forall k :: 0 <= k < |s| ==> Shares(s, t)[k] >= 0.0
  {
    forall k | 0 <= k < |s|
      ensures Shares(s, t)[k] >= 0.0
    {
      var x := Shares(s, t)[k];
      assert x == 100.0 * s[k] / t;
      QuotientOrder(0.0, s[k], t, 0.0, x);
    }
  }

  /** A nonnegative raw vector that does not sum to zero normalizes to nonnegative percentages. */
  lemma NormalizeNonnegative(raw: seq<real>)
    requires forall k :: 0 <= k < |raw| ==> raw[k] >= 0.0
    requires Sum(raw) != 0.0
    ensures Sum(raw) > 0.0
    ensures forall k :: 0 <= k < |raw| ==> Normalize(raw)[k] >= 0.0
  {
    NonnegativeAll(raw);
    SharesNonnegative(raw, Sum(raw));
  }

  /** A vector that already sums to 100 is returned unchanged. */
  lemma NormalizeFixesPercentages(raw: seq<real>)
    requires Sum(raw) == 100.0
    ensures Normalize(raw) == raw
  {
    var r := Normalize(raw);
    forall i | 0 <= i < |raw|
      ensures r[i] == raw[i]
    {
      assert r[i] == 100.0 * raw[i] / 100.0;
    }
  }

  /** Normalizing twice is the same as normalizing once. */
  lemma NormalizeIdempotent(raw: seq<real>)
    requires Sum(raw) != 0.0
    ensures Sum(Normalize(raw)) != 0.0
    ensures Normalize(Normalize(raw)) == Normalize(raw)
  {
    NormalizeFixesPercentages(Normalize(raw));
  }

  // ---------------------------------------------------------------------
  // Report
  // ---------------------------------------------------------------------

  /** One line of the report: a gas label, its percentage and its descriptor. */
  datatype Entry = Entry(gas: string, percent: real, descriptor: Descriptor)

  /**
   * `zip(gases, percentages)` with every pair classified: one entry per
   * position, as many as the shorter input has elements.
   */
  function ReportOf(gases: seq<string>, percentages: seq<real>): (r: seq<Entry>)
    ensures |r| == Min(|gases|, |percentages|)
    ensures forall i :: 0 <= i < |r| ==>
      r[i] == Entry(gases[i], percentages[i], Classify(percentages[i]))
  {
    if gases == [] || percentages == [] then []
    else [Entry(gases[0], percentages[0], Classify(percentages[0]))] + ReportOf(gases[1..], percentages[1..])
  }

  /** The report loop: walks the gas labels and percentages in step, appending one entry per pair. */
  method GenerateReport(percentages: seq<real>) returns (entries: seq<Entry>)
    ensures entries == ReportOf(GASES, percentages)
  {
    var n := Min(|GASES|, |percentages|);
    entries := [];
    for i := 0 to n
      invariant |entries| == i
      invariant forall k :: 0 <= k < i ==>
        entries[k] == Entry(GASES[k], percentages[k], Classify(percentages[k]))
    {
      var percent := percentages[i];
      entries := entries + [Entry(GASES[i], percent, Classify(percent))];
    }
  }

  /** The descriptor of an entry depends on its percentage alone, never on the gas. */
  lemma DescriptorIgnoresGas(g1: seq<string>, g2: seq<string>, percentages: seq<real>, i: nat, j: nat)
    requires i < Min(|g1|, |percentages|) && j < Min(|g2|, |percentages|)
    requires percentages[i] == percentages[j]
    ensures ReportOf(g1, percentages)[i].descriptor == ReportOf(g2, percentages)[j].descriptor
  {
  }

  /** With enough labels, the report's descriptors are the classifications of the percentages, in order. */
  lemma ReportDescriptors(gases: seq<string>, percentages: seq<real>, want: seq<Descriptor>)
    requires |percentages| <= |gases| && |want| == |percentages|
    requires forall i :: 0 <= i < |percentages| ==> Classify(percentages[i]) == want[i]
    ensures Descriptors(ReportOf(gases, percentages)) == want
  {
  }

  /** The end of the prediction run: normalize the raw vector, then report on it. */
  function AtmosphereReport(raw: seq<real>): (r: seq<Entry>)
    requires Sum(raw) != 0.0
    ensures |r| == Min(|GASES|, |raw|)
    ensures forall i :: 0 <= i < |r| ==> r[i].gas == GASES[i] && InBand(r[i].percent, r[i].descriptor)
    ensures forall i :: 0 <= i < |r| ==>
      r[i].percent == Normalize(raw)[i] && r[i].descriptor == Classify(Normalize(raw)[i])
  {
    ReportOf(GASES, Normalize(raw))
  }

  /** The percentage column of a report. */
  function Percents(entries: seq<Entry>): seq<real>
  {
    seq(|entries|, i requires 0 <= i < |entries| => entries[i].percent)
  }

  /** The descriptor column of a report. */
  function Descriptors(entries: seq<Entry>): seq<Descriptor>
  {
    seq(|entries|, i requires 0 <= i < |entries| => entries[i].descriptor)
  }

  /** For a prediction of at most ten components (the model always gives ten) the reported percentages sum to 100. */
  lemma ReportSumsTo100(raw: seq<real>)
    requires |raw| <= |GASES|
    requires Sum(raw) != 0.0
    ensures Sum(Percents(AtmosphereReport(raw))) == 100.0
  {
    ReportKeepsPercentages(GASES, Normalize(raw));
  }

  /** With enough labels, the report carries every percentage through unchanged and in order. */
  lemma ReportKeepsPercentages(gases: seq<string>, percentages: seq<real>)
    requires |percentages| <= |gases|
    ensures Percents(ReportOf(gases, percentages)) == percentages
  {
  }

  lemma {:induction false} SumAtLeastOne(s: seq<real>, i: nat)
    requires forall k :: 0 <= k < |s| ==> s[k] >= 0.0
    requires i < |s|
    ensures Sum(s) >= s[i]
  {
    if i == 0 {
      NonnegativeAll(s[1..]);
    } else {
      SumAtLeastOne(s[1..], i - 1);
    }
  }

  lemma {:induction false} SumAtLeastTwo(s: seq<real>, i: nat, j: nat)
    requires forall k :: 0 <= k < |s| ==> s[k] >= 0.0
    requires i < j < |s|
    ensures Sum(s) >= s[i] + s[j]
  {
    if i == 0 {
      SumAtLeastOne(s[1..], j - 1);
    } else {
      SumAtLeastTwo(s[1..], i - 1, j - 1);
    }
  }

  /** A nonnegative raw vector with a nonzero sum has at most one dominant gas. */
  lemma AtMostOneDominant(raw: seq<real>)
    requires forall k :: 0 <= k < |raw| ==> raw[k] >= 0.0
    requires Sum(raw) != 0.0
    ensures forall i, j :: 0 <= i < j < |AtmosphereReport(raw)| ==>
      !(AtmosphereReport(raw)[i].descriptor == Dominant && AtmosphereReport(raw)[j].descriptor == Dominant)
  {
    var norm := Normalize(raw);
    NormalizeNonnegative(raw);
    var r := AtmosphereReport(raw);
    forall i, j | 0 <= i < j < |r|
      ensures !(r[i].descriptor == Dominant && r[j].descriptor == Dominant)
    {
      SumAtLeastTwo(norm, i, j);
    }
  }

  /** The worked example: a raw prediction that sums to 98. */
  const SAMPLE: seq<real> := [70.0, 5.0, 5.0, 5.0, 5.0, 2.0, 2.0, 2.0, 1.0, 1.0]

  /** The worked example normalizes to about [71.43, 5.10 (four times), 2.04 (three times), 1.02, 1.02]. */
  const SAMPLE_NORMALIZED: seq<real> := [7000.0 / 98.0, 500.0 / 98.0, 500.0 / 98.0, 500.0 / 98.0, 500.0 / 98.0,
                                         200.0 / 98.0, 200.0 / 98.0, 200.0 / 98.0, 100.0 / 98.0, 100.0 / 98.0]

  lemma SampleNormalizes()
    ensures Sum(SAMPLE) == 98.0
    ensures Normalize(SAMPLE) == SAMPLE_NORMALIZED
  {
    var raw := SAMPLE;
    assert Sum(raw[9..]) == 1.0;
    assert Sum(raw[8..]) == 2.0;
    assert Sum(raw[7..]) == 4.0;
    assert Sum(raw[6..]) == 6.0;
    assert Sum(raw[5..]) == 8.0;
    assert Sum(raw[4..]) == 13.0;
    assert Sum(raw[3..]) == 18.0;
    assert Sum(raw[2..]) == 23.0;
    assert Sum(raw[1..]) == 28.0;
  }

  /** The four distinct values of the normalized worked example against the thresholds. */
  lemma SampleClassified()
    ensures Classify(7000.0 / 98.0) == Dominant
    ensures Classify(500.0 / 98.0) == Minor
    ensures Classify(200.0 / 98.0) == Trace
    ensures Classify(100.0 / 98.0) == Trace
  {
  }

  /** The descriptors the report gives the normalized worked example, whatever the labels. */
  lemma SampleDescriptors(gases: seq<string>)
    requires |gases| == |SAMPLE_NORMALIZED|
    ensures Descriptors(ReportOf(gases, SAMPLE_NORMALIZED))
      == [Dominant, Minor, Minor, Minor, Minor, Trace, Trace, Trace, Trace, Trace]
  {
    var n := SAMPLE_NORMALIZED;
    var want := [Dominant, Minor, Minor, Minor, Minor, Trace, Trace, Trace, Trace, Trace];
    SampleClassified();
    assert forall i :: 0 <= i < |n| ==> Classify(n[i]) == want[i];
    ReportDescriptors(gases, n, want);
  }

  /**
   * In the worked example CO2 is dominant, the next four gases are minor
   * (500/98 is just above 5) and the last five are traces.
   */
  lemma SampleRun()
    ensures Descriptors(AtmosphereReport(SAMPLE))
      == [Dominant, Minor, Minor, Minor, Minor, Trace, Trace, Trace, Trace, Trace]
  {
    SampleNormalizes();
    SampleDescriptors(GASES);
  }
}
