/**
  The elapsed-time bins every workflow script uses: edges
  [0, 1, 2, ..., 7, 14, 21, 28, 35, 60, 90, 180, 365, inf] in days and sixteen labels,
  bin i being the half-open interval [edge i, edge i+1). A value is placed by
  `np.digitize(x, bins) - 1`, clamped into the label range.
*/
module TimeBins {

  /** The finite edges; the closing `np.inf` edge is never at or below a finite value. */
  const Edges: seq<real> :=
    [0.0, 1.0, 2.0, 3.0, 4.0, 5.0, 6.0, 7.0, 14.0, 21.0, 28.0, 35.0, 60.0, 90.0, 180.0, 365.0]

  const Labels: seq<string> :=
    ["1d", "2d", "3d", "4d", "5d", "6d", "7d", "2wk", "3wk", "4wk", "5wk", "2mo", "3mo", "6mo", "1yr", "1yr+"]

  predicate Ascending(e: seq<real>)
  {
    forall i, j :: 0 <= i < j < |e| ==> e[i] < e[j]
  }

  /** `np.digitize(x, bins)`: the number of edges at or below `x`. */
  function Digitize(e: seq<real>, x: real): (r: nat)
    ensures r <= |e|
  {
    if e == [] then 0 else Digitize(e[..|e| - 1], x) + (if e[|e| - 1] <= x then 1 else 0)
  }

  /** The bin `calculate_application_data*` and `analyze_file` give an elapsed time. */
  function BinIndex(days: real): (i: nat)
    ensures i < |Labels|
  {
    var idx := Digitize(Edges, days) - 1;
    var last: nat := |Labels| - 1;
    if idx < 0 then 0 else if idx >= |Labels| then last else idx
  }

  function BinLabel(days: real): string
  {
    Labels[BinIndex(days)]
  }

  /** Bin `j` is the half-open interval from its edge to the next one (unbounded for the last). */
  predicate InBin(days: real, j: nat)
    requires j < |Edges|
  {
    Edges[j] <= days && (j + 1 == |Edges| || days < Edges[j + 1])
  }

  lemma EdgesAscending()
    ensures Ascending(Edges) && |Edges| == |Labels|
  {
  }

  /** Over ascending edges, digitize splits them into those at or below `x` and those above. */
  lemma {:induction false} DigitizeSplits(e: seq<real>, x: real)
    requires Ascending(e)
    ensures forall i :: 0 <= i < Digitize(e, x) ==> e[i] <= x
    ensures forall i :: Digitize(e, x) <= i < |e| ==> x < e[i]
  {
    if e != [] {
      var init := e[..|e| - 1];
      DigitizeSplits(init, x);
      if e[|e| - 1] <= x {
        DigitizeAll(init, x);
      }
    }
  }

  lemma {:induction false} DigitizeAll(e: seq<real>, x: real)
    requires forall i :: 0 <= i < |e| ==> e[i] <= x
    ensures Digitize(e, x) == |e|
  {
    if e != [] {
      DigitizeAll(e[..|e| - 1], x);
    }
  }

  lemma {:induction false} DigitizeNone(e: seq<real>, x: real)
    requires forall i :: 0 <= i < |e| ==> x < e[i]
    ensures Digitize(e, x) == 0
  {
    if e != [] {
      DigitizeNone(e[..|e| - 1], x);
    }
  }

  lemma {:induction false} DigitizeMonotone(e: seq<real>, x: real, y: real)
    requires x <= y
    ensures Digitize(e, x) <= Digitize(e, y)
  {
    if e != [] {
      DigitizeMonotone(e[..|e| - 1], x, y);
    }
  }

  /** Every non-negative elapsed time lands in exactly the bin whose interval holds it. */
  lemma BinIndexIsInterval(days: real, j: nat)
    requires days >= 0.0 && j < |Labels|
    ensures BinIndex(days) == j <==> InBin(days, j)
  {
    EdgesAscending();
    DigitizeSplits(Edges, days);
    assert Edges[0] <= days;
  }

  /** Negative values clamp into the first bin. */
  lemma BinIndexNegative(days: real)
    requires days < 0.0
    ensures BinIndex(days) == 0
  {
    DigitizeNone(Edges, days);
  }

  /** A longer elapsed time never lands in an earlier bin. */
  lemma BinIndexMonotone(x: real, y: real)
    requires x <= y
    ensures BinIndex(x) <= BinIndex(y)
  {
    DigitizeMonotone(Edges, x, y);
  }

  /** Ten days is past the one-week edge and short of the two-week one. */
  lemma ExampleTenDays()
    ensures BinLabel(10.0) == "2wk"
  {
    BinIndexIsInterval(10.0, 7);
  }
}
