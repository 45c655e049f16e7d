/** Least-squares selection of one ideal function per training series
    (function_selector.py). */
module Selector {
  import opened DataFrames

  /** Number of training series (y1..y4) and of ideal functions (y1..y50). */
  const TrainingSeries: nat := 4
  const IdealFunctions: nat := 50

  /** `np.sqrt(2)`: the exact value of the IEEE-754 double it evaluates to. */
  const Sqrt2: real := 1.4142135623730951454746218587388284504413604736328125

  /** Why a call selects nothing; each is logged by the source, which then returns. */
  datatype SelectError =
    | EmptyTraining
    | MissingTrainingColumn(column: Column)
    | MissingIdealColumn(column: Column)

  /** What one successful call appends: 1-based ideal function numbers and their
      tolerances, in training order y1..y4. */
  datatype Selection = Selection(indices: seq<int>, tolerances: seq<real>)

  /** `np.sum((y_train - y_ideal) ** 2)`. The two Series are aligned on their
      default row index; a position only one of them has gives NaN, which the sum
      skips, so positions are paired up to the shorter column. */
  function SSE(a: seq<real>, b: seq<real>): (r: real)
    ensures r >= 0.0
  {
    if |a| == 0 || |b| == 0 then 0.0
    else (a[0] - b[0]) * (a[0] - b[0]) + SSE(a[1..], b[1..])
  }

  /** Series that agree on every paired position have squared error zero. */
  lemma {:induction false} SSEZeroWhenAgreeing(a: seq<real>, b: seq<real>)
    requires forall k :: 0 <= k < |a| && k < |b| ==> a[k] == b[k]
    ensures SSE(a, b) == 0.0
  {
    if |a| != 0 && |b| != 0 {
      assert a[0] == b[0];
      forall k | 0 <= k < |a| - 1 && k < |b| - 1
        ensures a[1..][k] == b[1..][k]
      {
        assert a[k + 1] == b[k + 1];
      }
      SSEZeroWhenAgreeing(a[1..], b[1..]);
    }
  }

  /** The first `n` in `lo..hi-1` whose column "y<n>" is absent, as the source's
      column-checking loops find it. */
  function FirstMissing(columns: map<Column, seq<real>>, lo: nat, hi: nat): (r: Option<nat>)
    ensures r.None? <==> forall n :: lo <= n < hi ==> Yn(n) in columns
    ensures r.Some? ==> lo <= r.value < hi && Yn(r.value) !in columns
    ensures r.Some? ==> forall n :: lo <= n < r.value ==> Yn(n) in columns
    decreases hi - lo
  {
    if lo >= hi then None
    else if Yn(lo) !in columns then Some(lo)
    else FirstMissing(columns, lo + 1, hi)
  }

  predicate HasColumns(training: Table, ideal: Table) {
    (forall i :: 1 <= i <= TrainingSeries ==> Yn(i) in training.columns) &&
    (forall j :: 1 <= j <= IdealFunctions ==> Yn(j) in ideal.columns)
  }

  /** `deviations[i, j]`: squared error of training series y(i+1) against ideal
      function y(j+1). */
  function Fit(training: Table, ideal: Table, i: nat, j: nat): (d: real)
    requires Yn(i + 1) in training.columns && Yn(j + 1) in ideal.columns
    ensures d >= 0.0
  {
    SSE(training.columns[Yn(i + 1)], ideal.columns[Yn(j + 1)])
  }

  /** The 4x50 matrix of squared errors, row i-1 for training series i. */
  function DeviationMatrix(training: Table, ideal: Table): (m: seq<seq<real>>)
    requires HasColumns(training, ideal)
    ensures IsMatrix(m)
    ensures forall i, j :: 0 <= i < |m| && 0 <= j < |m[i]| ==> m[i][j] >= 0.0
  {
    seq(TrainingSeries, i requires 0 <= i < TrainingSeries =>
      seq(IdealFunctions, j requires 0 <= j < IdealFunctions => Fit(training, ideal, i, j)))
  }

  predicate IsMatrix(m: seq<seq<real>>) {
    |m| == TrainingSeries && forall i :: 0 <= i < |m| ==> |m[i]| == IdealFunctions
  }

  /** Per row of the matrix, `np.argmin` plus one and the tolerance. */
  function Choose(m: seq<seq<real>>): (s: Selection)
    requires IsMatrix(m)
    ensures |s.indices| == TrainingSeries && |s.tolerances| == TrainingSeries
    ensures forall i :: 0 <= i < TrainingSeries ==>
      1 <= s.indices[i] <= IdealFunctions && IsFirstMin(m[i], s.indices[i] - 1) &&
      s.tolerances[i] == m[i][s.indices[i] - 1] * Sqrt2
  {
    Selection(
      seq(TrainingSeries, i requires 0 <= i < TrainingSeries => ArgMin(m[i]) + 1),
      seq(TrainingSeries, i requires 0 <= i < TrainingSeries => m[i][ArgMin(m[i])] * Sqrt2))
  }

  /** What one call of `calculate_least_squares` decides: an error, or the
      indices and tolerances it appends. */
  function LeastSquares(training: Table, ideal: Table): (r: Result<Selection, SelectError>)
    ensures r == Err(EmptyTraining) <==> training.Empty()
    ensures r.Ok? <==> !training.Empty() && HasColumns(training, ideal)
    ensures (r.Err? && r.error.MissingTrainingColumn?) <==>
      !training.Empty() && exists i :: 1 <= i <= TrainingSeries && Yn(i) !in training.columns
    ensures r.Err? && r.error.MissingTrainingColumn? ==>
      exists i :: 1 <= i <= TrainingSeries && r.error.column == Yn(i) && Yn(i) !in training.columns &&
        forall i' :: 1 <= i' < i ==> Yn(i') in training.columns
    ensures r.Err? && r.error.MissingIdealColumn? ==>
      exists j :: 1 <= j <= IdealFunctions && r.error.column == Yn(j) && Yn(j) !in ideal.columns &&
        forall j' :: 1 <= j' < j ==> Yn(j') in ideal.columns
    ensures r.Ok? ==> |r.value.indices| == TrainingSeries && |r.value.tolerances| == TrainingSeries
  {
    if training.Empty() then Err(EmptyTraining)
    else match FirstMissing(training.columns, 1, TrainingSeries + 1)
      case Some(n) => Err(MissingTrainingColumn(Yn(n)))
      case None =>
        match FirstMissing(ideal.columns, 1, IdealFunctions + 1)
        case Some(n) => Err(MissingIdealColumn(Yn(n)))
        case None =>
          Ok(Choose(DeviationMatrix(training, ideal)))
  }

  /** A successful selection picks, for every training series, the first
      ideal function of least squared error, and its tolerance is that error
      times sqrt(2). */
  lemma LeastSquaresMinimises(training: Table, ideal: Table)
    requires LeastSquares(training, ideal).Ok?
    ensures var s := LeastSquares(training, ideal).value;
      forall i :: 0 <= i < TrainingSeries ==>
        1 <= s.indices[i] <= IdealFunctions &&
        (forall j :: 0 <= j < IdealFunctions ==> Fit(training, ideal, i, s.indices[i] - 1) <= Fit(training, ideal, i, j)) &&
        (forall j :: 0 <= j < s.indices[i] - 1 ==> Fit(training, ideal, i, j) > Fit(training, ideal, i, s.indices[i] - 1)) &&
        s.tolerances[i] == Fit(training, ideal, i, s.indices[i] - 1) * Sqrt2 &&
        s.tolerances[i] >= 0.0
  {
    var m := DeviationMatrix(training, ideal);
    var s := LeastSquares(training, ideal).value;
    forall i | 0 <= i < TrainingSeries
      ensures 1 <= s.indices[i] <= IdealFunctions
      ensures forall j :: 0 <= j < IdealFunctions ==> Fit(training, ideal, i, s.indices[i] - 1) <= Fit(training, ideal, i, j)
      ensures forall j :: 0 <= j < s.indices[i] - 1 ==> Fit(training, ideal, i, j) > Fit(training, ideal, i, s.indices[i] - 1)
      ensures s.tolerances[i] == Fit(training, ideal, i, s.indices[i] - 1) * Sqrt2 >= 0.0
    {
      assert forall j :: 0 <= j < IdealFunctions ==> m[i][j] == Fit(training, ideal, i, j);
    }
  }

  /** A training series that an ideal function reproduces exactly on the shared
      rows, with every earlier ideal function off somewhere, selects that
      function with tolerance zero. */
  lemma ExactFitSelected(training: Table, ideal: Table, i: nat, j: nat)
    requires !training.Empty() && HasColumns(training, ideal)
    requires i < TrainingSeries && j < IdealFunctions
    requires Fit(training, ideal, i, j) == 0.0
    requires forall j' :: 0 <= j' < j ==> Fit(training, ideal, i, j') > 0.0
    ensures LeastSquares(training, ideal).Ok?
    ensures LeastSquares(training, ideal).value.indices[i] == j + 1
    ensures LeastSquares(training, ideal).value.tolerances[i] == 0.0
  {
    LeastSquaresMinimises(training, ideal);
    var s := LeastSquares(training, ideal).value;
    var sel := s.indices[i] - 1;
    assert Fit(training, ideal, i, sel) == 0.0;
  }

  /** The nested loops that fill the 4x50 array of squared errors, filled row by row. */
  method FillDeviations(training: Table, ideal: Table) returns (deviations: array2<real>)
    requires HasColumns(training, ideal)
    ensures deviations.Length0 == TrainingSeries && deviations.Length1 == IdealFunctions
    ensures forall i, j :: 0 <= i < TrainingSeries && 0 <= j < IdealFunctions ==>
      deviations[i, j] == Fit(training, ideal, i, j)
  {
    deviations := new real[TrainingSeries, IdealFunctions];
    for i := 0 to TrainingSeries
      invariant forall a, b :: 0 <= a < i && 0 <= b < IdealFunctions ==> deviations[a, b] == Fit(training, ideal, a, b)
    {
      var yTrain := training.columns[Yn(i + 1)];
      for j := 0 to IdealFunctions
        invariant forall a, b :: 0 <= a < i && 0 <= b < IdealFunctions ==> deviations[a, b] == Fit(training, ideal, a, b)
        invariant forall b :: 0 <= b < j ==> deviations[i, b] == Fit(training, ideal, i, b)
      {
        deviations[i, j] := SSE(yTrain, ideal.columns[Yn(j + 1)]);
      }
    }
  }

  /** `FunctionSelector`: the two lists grow by four entries on every
      successful call, and are never cleared. */
  class FunctionSelector {
    var selectedFunctions: seq<int>
    var maxDeviations: seq<real>

    /** The lists stay parallel, every index names one of the 50 ideal functions
        and every tolerance is non-negative. */
    predicate Valid()
      reads this
    {
      |selectedFunctions| == |maxDeviations| &&
      (forall p :: 0 <= p < |selectedFunctions| ==> 1 <= selectedFunctions[p] <= IdealFunctions) &&
      (forall p :: 0 <= p < |maxDeviations| ==> maxDeviations[p] >= 0.0)
    }

    constructor ()
      ensures Valid()
      ensures selectedFunctions == [] && maxDeviations == []
    {
      selectedFunctions := [];
      maxDeviations := [];
    }

    method CalculateLeastSquares(training: Table, ideal: Table)
      requires Valid()
      modifies this
      ensures Valid()
      ensures LeastSquares(training, ideal).Ok? ==>
        selectedFunctions == old(selectedFunctions) + LeastSquares(training, ideal).value.indices &&
        maxDeviations == old(maxDeviations) + LeastSquares(training, ideal).value.tolerances
      ensures LeastSquares(training, ideal).Err? ==>
        selectedFunctions == old(selectedFunctions) && maxDeviations == old(maxDeviations)
    {
      if training.Empty() {
        return;
      }
      for n := 1 to TrainingSeries + 1
        invariant forall i :: 1 <= i < n ==> Yn(i) in training.columns
      {
        if Yn(n) !in training.columns {
          return;
        }
      }
      for n := 1 to IdealFunctions + 1
        invariant forall j :: 1 <= j < n ==> Yn(j) in ideal.columns
      {
        if Yn(n) !in ideal.columns {
          return;
        }
      }
      var deviations := FillDeviations(training, ideal);
      SelectMinima(deviations, DeviationMatrix(training, ideal));
    }

    /** The loop that appends, per training series, `argmin + 1` and the
        tolerance `deviations[i][min_index] * sqrt(2)`. */
    method SelectMinima(deviations: array2<real>, ghost m: seq<seq<real>>)
      requires Valid() && IsMatrix(m)
      requires deviations.Length0 == TrainingSeries && deviations.Length1 == IdealFunctions
      requires forall i, j :: 0 <= i < TrainingSeries && 0 <= j < IdealFunctions ==>
        deviations[i, j] == m[i][j] && m[i][j] >= 0.0
      modifies this
      ensures Valid()
      ensures selectedFunctions == old(selectedFunctions) + Choose(m).indices
      ensures maxDeviations == old(maxDeviations) + Choose(m).tolerances
    {
      ghost var c := Choose(m);
      for i := 0 to TrainingSeries
        invariant selectedFunctions == old(selectedFunctions) + c.indices[..i]
        invariant maxDeviations == old(maxDeviations) + c.tolerances[..i]
        invariant Valid()
      {
        var row := seq(IdealFunctions, j requires 0 <= j < IdealFunctions reads deviations => deviations[i, j]);
        assert row == m[i];
        var minIndex := ArgMin(row);
        FirstMinUnique(m[i], minIndex, c.indices[i] - 1);
        selectedFunctions := selectedFunctions + [minIndex + 1];
        maxDeviations := maxDeviations + [deviations[i, minIndex] * Sqrt2];
        assert c.indices[..i + 1] == c.indices[..i] + [minIndex + 1];
        assert c.tolerances[..i + 1] == c.tolerances[..i] + [deviations[i, minIndex] * Sqrt2];
      }
      assert c.indices[..TrainingSeries] == c.indices;
      assert c.tolerances[..TrainingSeries] == c.tolerances;
    }

    method GetSelectedFunctions() returns (s: seq<int>)
      ensures s == selectedFunctions
    {
      s := selectedFunctions;
    }

    method GetMaxDeviations() returns (d: seq<real>)
      ensures d == maxDeviations
    {
      d := maxDeviations;
    }
  }

  /** Two successful calls on one selector leave eight entries in each list: the
      first call's four followed by the second call's four. */
  method SelectTwice(training: Table, ideal: Table) returns (selector: FunctionSelector)
    requires LeastSquares(training, ideal).Ok?
    ensures fresh(selector) && selector.Valid()
    ensures selector.selectedFunctions == LeastSquares(training, ideal).value.indices + LeastSquares(training, ideal).value.indices
    ensures selector.maxDeviations == LeastSquares(training, ideal).value.tolerances + LeastSquares(training, ideal).value.tolerances
    ensures |selector.selectedFunctions| == 2 * TrainingSeries
  {
    selector := new FunctionSelector();
    selector.CalculateLeastSquares(training, ideal);
    selector.CalculateLeastSquares(training, ideal);
  }
}
