/** The confusion-matrix card of a model's test page: per-row totals, the
    largest count for colour scaling, and per-cell percentage, intensity,
    opacity and diagonal styling. Counts are exact reals here. */
module ConfusionMatrix {
  import opened Wrappers

  /** A JavaScript number as far as this card needs one: NaN, an infinity,
      or a finite value (taken exactly). */
  datatype Number = NaN | Infinity(positive: bool) | Finite(value: real)

  /** `a / b`: a zero divisor gives NaN for a zero dividend and an infinity
      of the dividend's sign otherwise. */
  function Divide(a: real, b: Number): (r: Number)
    ensures b.Finite? && b.value != 0.0 ==> r == Finite(a / b.value)
    ensures b.Finite? && b.value == 0.0 ==> !r.Finite?
  {
    match b
    case NaN => NaN
    case Infinity(_) => Finite(0.0)
    case Finite(d) =>
      if d != 0.0 then Finite(a / d)
      else if a == 0.0 then NaN
      else Infinity(a > 0.0)
  }

  /** `x * k` for a positive constant `k`. */
  function Scale(x: Number, k: real): Number
    requires k > 0.0
  {
    match x
    case Finite(v) => Finite(v * k)
    case _ => x
  }

  /** `Math.max(floor, x)` for a finite `floor`: NaN propagates. */
  function AtLeast(floor: real, x: Number): Number
  {
    match x
    case NaN => NaN
    case Infinity(positive) => if positive then x else Finite(floor)
    case Finite(v) => Finite(MaxReal(floor, v))
  }

  /** The sum of a row, as a reference definition. */
  function Sum(row: seq<real>): real
  {
    if row == [] then 0.0 else row[0] + Sum(row[1..])
  }

  /** `row.reduce((a, b) => a + b, acc)`: a left fold from `acc`, which adds
      the row's sum to the start value. */
  function Reduce(row: seq<real>, acc: real): (r: real)
    ensures r == acc + Sum(row)
  {
    if row == [] then acc else Reduce(row[1..], acc + row[0])
  }

  /** `rowSums`: one total per row of the matrix. */
  function RowSums(values: seq<seq<real>>): (r: seq<real>)
    ensures |r| == |values|
    ensures forall i :: 0 <= i < |values| ==> r[i] == Sum(values[i])
  {
    seq(|values|, i requires 0 <= i < |values| => Reduce(values[i], 0.0))
  }

  /** `values.flat()`: the rows laid end to end; empty exactly when every
      row is. */
  function Flat(values: seq<seq<real>>): (r: seq<real>)
    ensures r == [] <==> forall i :: 0 <= i < |values| ==> values[i] == []
  {
    if values == [] then []
    else
      assert forall i :: 1 <= i < |values| ==> values[i] == values[1..][i - 1];
      values[0] + Flat(values[1..])
  }

  function MaxReal(a: real, b: real): real
  {
    if a >= b then a else b
  }

  /** `Math.max(...xs)`: `-Infinity` for an empty list; otherwise an element
      of the list that bounds every element. */
  function MaxOf(xs: seq<real>): (r: Number)
    ensures r == Infinity(false) || r.Finite?
    ensures r == Infinity(false) <==> xs == []
    ensures r.Finite? ==> r.value in xs
    ensures forall k :: 0 <= k < |xs| ==> r.Finite? && xs[k] <= r.value
  {
    if xs == [] then Infinity(false)
    else
      assert forall k :: 1 <= k < |xs| ==> xs[k] == xs[1..][k - 1];
      match MaxOf(xs[1..])
      case Finite(m) => Finite(MaxReal(xs[0], m))
      case _ => Finite(xs[0])
  }

  /** `maxValue`: the largest count of the whole matrix, `-Infinity` when it
      has no cell. */
  function MaxValue(values: seq<seq<real>>): (r: Number)
    ensures r == Infinity(false) || r.Finite?
  {
    MaxOf(Flat(values))
  }

  /** Cell `(i, j)` of the matrix lies in the flattened list, and every
      element of the flattened list is some cell. */
  lemma {:induction false} FlatMembers(values: seq<seq<real>>)
    ensures forall i, j :: 0 <= i < |values| && 0 <= j < |values[i]| ==> values[i][j] in Flat(values)
    ensures forall x :: x in Flat(values) ==>
      exists i, j :: 0 <= i < |values| && 0 <= j < |values[i]| && values[i][j] == x
  {
    if values != [] {
      var rest := values[1..];
      FlatMembers(rest);
      assert forall i :: 1 <= i < |values| ==> values[i] == rest[i - 1];
      forall x | x in Flat(values)
        ensures exists i, j :: 0 <= i < |values| && 0 <= j < |values[i]| && values[i][j] == x
      {
        if x in values[0] {
          var j :| 0 <= j < |values[0]| && values[0][j] == x;
        } else {
          var i, j :| 0 <= i < |rest| && 0 <= j < |rest[i]| && rest[i][j] == x;
          assert values[i + 1][j] == x;
        }
      }
    }
  }

  /** `maxValue` bounds every cell, and a matrix with a cell has a finite one. */
  lemma MaxValueBoundsCells(values: seq<seq<real>>, i: nat, j: nat)
    requires i < |values| && j < |values[i]|
    ensures MaxValue(values).Finite? && values[i][j] <= MaxValue(values).value
  {
    FlatMembers(values);
    var xs := Flat(values);
    var k :| 0 <= k < |xs| && xs[k] == values[i][j];
  }

  /** A finite `maxValue` is the count of some cell; it is `-Infinity`
      exactly when the matrix has no cell. */
  lemma MaxValueIsACell(values: seq<seq<real>>)
    ensures MaxValue(values) == Infinity(false) <==> forall i :: 0 <= i < |values| ==> values[i] == []
    ensures MaxValue(values).Finite? ==>
      exists i, j :: 0 <= i < |values| && 0 <= j < |values[i]| && values[i][j] == MaxValue(values).value
  {
    FlatMembers(values);
  }

  /** `(value / rowSum) * 100`: the exact share over a non-zero total; NaN
      for a zero count over a zero total, an infinity otherwise. */
  function Percentage(value: real, rowSum: real): (r: Number)
    ensures rowSum != 0.0 ==> r == Finite(value / rowSum * 100.0)
    ensures rowSum == 0.0 ==> (r == NaN <==> value == 0.0) && !r.Finite?
  {
    Scale(Divide(value, Finite(rowSum)), 100.0)
  }

  /** `value / maxValue`: the exact ratio to a non-zero maximum; NaN for a
      zero count against a zero maximum. */
  function Intensity(value: real, maxValue: Number): (r: Number)
    ensures maxValue.Finite? && maxValue.value != 0.0 ==> r == Finite(value / maxValue.value)
    ensures maxValue == Finite(0.0) ==> (r == NaN <==> value == 0.0) && !r.Finite?
  {
    Divide(value, maxValue)
  }

  /** `Math.max(0.1, intensity * 0.9)`: at least 0.1 for a finite
      intensity, within [0.1, 0.9] for one in [0, 1], and NaN for NaN. */
  function Opacity(intensity: Number): (r: Number)
    ensures intensity.Finite? ==> r.Finite? && r.value >= 0.1
    ensures intensity.Finite? && 0.0 <= intensity.value <= 1.0 ==> r.value <= 0.9
    ensures intensity == NaN ==> r == NaN
  {
    AtLeast(0.1, Scale(intensity, 0.9))
  }

  /** What one cell shows: its count, the hover percentage, the fill opacity,
      and whether it takes the "correct prediction" colour. */
  datatype CellView = CellView(value: real, percentage: Number, opacity: Number, correct: bool)

  /** A row: its heading, the class label (`undefined` past the end of `labels`) and its cells. */
  datatype RowView = RowView(heading: Option<string>, cells: seq<CellView>)

  /** The rendered matrix: column headers and rows. */
  datatype MatrixView = MatrixView(headers: seq<string>, rows: seq<RowView>)

  /** Row `i` of the matrix, given its counts, its total and the matrix's
      largest count: labelled `labels[i]`, one cell per count, and a cell is
      styled as correct exactly on the diagonal. */
  function RenderRow(labels: seq<string>, i: nat, row: seq<real>, rowSum: real, maxValue: Number): (r: RowView)
    ensures r.heading == (if i < |labels| then Some(labels[i]) else None)
    ensures |r.cells| == |row|
    ensures forall j :: 0 <= j < |row| ==>
      && r.cells[j].value == row[j]
      && r.cells[j].percentage == Percentage(row[j], rowSum)
      && r.cells[j].opacity == Opacity(Intensity(row[j], maxValue))
      && (r.cells[j].correct <==> i == j)
  {
    RowView(
      if i < |labels| then Some(labels[i]) else None,
      seq(|row|, j requires 0 <= j < |row| =>
        CellView(row[j], Percentage(row[j], rowSum), Opacity(Intensity(row[j], maxValue)), i == j)))
  }

  /** `ConfusionMatrix`: the column headers follow `labels`, and row `i` is
      rendered from `values[i]`, its sum and the largest count overall. */
  function Render(labels: seq<string>, values: seq<seq<real>>): (v: MatrixView)
    ensures v.headers == labels
    ensures |v.rows| == |values|
    ensures forall i :: 0 <= i < |values| ==>
      v.rows[i] == RenderRow(labels, i, values[i], Sum(values[i]), MaxValue(values))
  {
    var sums := RowSums(values);
    var maxValue := MaxValue(values);
    MatrixView(labels, seq(|values|, i requires 0 <= i < |values| =>
      RenderRow(labels, i, values[i], sums[i], maxValue)))
  }

  /** Every count of a row as a percentage of `total`, in order. */
  function Shares(row: seq<real>, total: real): (r: seq<real>)
    requires total != 0.0
    ensures |r| == |row|
    ensures forall j :: 0 <= j < |row| ==> r[j] == row[j] / total * 100.0
  {
    seq(|row|, j requires 0 <= j < |row| => row[j] / total * 100.0)
  }

  /** Taking every count of a row as a percentage of `total` takes the row's
      sum as a percentage of `total`. */
  lemma {:induction false} SumOfPercentages(row: seq<real>, total: real)
    requires total != 0.0
    ensures Sum(Shares(row, total)) == Sum(row) / total * 100.0
  {
    if row != [] {
      var rest := row[1..];
      SumOfPercentages(rest, total);
      var shares := Shares(row, total);
      assert shares[1..] == Shares(rest, total);
      assert row[0] / total * 100.0 + Sum(rest) / total * 100.0 == (row[0] + Sum(rest)) / total * 100.0;
    }
  }

  /** A non-zero total is 100 percent of itself. */
  lemma WholeIsHundredPercent(total: real)
    requires total != 0.0
    ensures total / total * 100.0 == 100.0
  {
  }

  /** A cell's hover percentage as a real: its value when finite, and 0 in
      place of the NaN or infinity the hover text would then show. */
  function FinitePercentage(c: CellView): real
  {
    if c.percentage.Finite? then c.percentage.value else 0.0
  }

  /** The hover percentages of a row of cells, in order, each taken by
      `FinitePercentage`. */
  function ShownPercentages(cells: seq<CellView>): (r: seq<real>)
    ensures |r| == |cells|
    ensures forall j :: 0 <= j < |cells| ==> r[j] == FinitePercentage(cells[j])
  {
    seq(|cells|, j requires 0 <= j < |cells| => FinitePercentage(cells[j]))
  }

  /** Over a non-zero total, each shown percentage is finite and is the
      count's exact share of the total. */
  lemma ShownShares(labels: seq<string>, i: nat, row: seq<real>, total: real, maxValue: Number)
    requires total != 0.0
    ensures var cells := RenderRow(labels, i, row, total, maxValue).cells;
      && (forall j :: 0 <= j < |cells| ==> cells[j].percentage.Finite?)
      && ShownPercentages(cells) == Shares(row, total)
  {
    var cells := RenderRow(labels, i, row, total, maxValue).cells;
    assert forall j :: 0 <= j < |row| ==>
      cells[j].percentage.Finite? && ShownPercentages(cells)[j] == Shares(row, total)[j];
  }

  /** The hover percentages of a row with a non-zero total are all finite
      and add up to 100. */
  lemma RowPercentagesSumTo100(labels: seq<string>, i: nat, row: seq<real>, maxValue: Number)
    requires Sum(row) != 0.0
    ensures var cells := RenderRow(labels, i, row, Sum(row), maxValue).cells;
      && (forall j :: 0 <= j < |cells| ==> cells[j].percentage.Finite?)
      && Sum(ShownPercentages(cells)) == 100.0
  {
    var total := Sum(row);
    ShownShares(labels, i, row, total, maxValue);
    SumOfPercentages(row, total);
    WholeIsHundredPercent(total);
  }

  /** In the rendered matrix, every row whose `rowSums` entry is non-zero
      shows finite percentages adding up to 100. */
  lemma MatrixRowPercentagesSumTo100(labels: seq<string>, values: seq<seq<real>>, i: nat)
    requires i < |values| && RowSums(values)[i] != 0.0
    ensures var cells := Render(labels, values).rows[i].cells;
      && (forall j :: 0 <= j < |cells| ==> cells[j].percentage.Finite?)
      && Sum(ShownPercentages(cells)) == 100.0
  {
    RowPercentagesSumTo100(labels, i, values[i], MaxValue(values));
  }

  /** With non-negative counts and a positive maximum, every cell's
      intensity lies in [0, 1], so its opacity lies in [0.1, 0.9]. */
  lemma OpacityBounds(labels: seq<string>, values: seq<seq<real>>, i: nat, j: nat)
    requires i < |values| && j < |values[i]|
    requires forall r, c :: 0 <= r < |values| && 0 <= c < |values[r]| ==> values[r][c] >= 0.0
    ensures MaxValue(values).Finite?
    ensures MaxValue(values).value > 0.0 ==>
      var x := Intensity(values[i][j], MaxValue(values));
      && x.Finite? && 0.0 <= x.value <= 1.0
      && var o := Render(labels, values).rows[i].cells[j].opacity;
         o.Finite? && 0.1 <= o.value <= 0.9
  {
    MaxValueBoundsCells(values, i, j);
    var m := MaxValue(values).value;
    if m > 0.0 {
      RatioAtMostOne(values[i][j], m);
    }
  }

  lemma RatioAtMostOne(v: real, m: real)
    requires 0.0 <= v <= m && m > 0.0
    ensures 0.0 <= v / m <= 1.0
  {
    var q := v / m;
    assert q * m == v;
  }

  /** A row of zeros sums to zero. */
  lemma {:induction false} SumOfZeros(row: seq<real>)
    requires forall k :: 0 <= k < |row| ==> row[k] == 0.0
    ensures Sum(row) == 0.0
  {
    if row != [] {
      assert forall k :: 0 <= k < |row[1..]| ==> row[1..][k] == row[k + 1];
      SumOfZeros(row[1..]);
    }
  }

  /** A matrix with a cell whose counts are all zero has a zero maximum, so
      each cell's percentage (0 / 0 * 100) and opacity (`Math.max(0.1, NaN)`)
      are NaN: the 0.1 floor does not apply. */
  lemma ZeroMaximumOpacityIsNaN(labels: seq<string>, values: seq<seq<real>>, i: nat, j: nat)
    requires i < |values| && j < |values[i]|
    requires forall r, c :: 0 <= r < |values| && 0 <= c < |values[r]| ==> values[r][c] == 0.0
    ensures MaxValue(values) == Finite(0.0)
    ensures Render(labels, values).rows[i].cells[j].percentage == NaN
    ensures Render(labels, values).rows[i].cells[j].opacity == NaN
  {
    MaxValueBoundsCells(values, i, j);
    MaxValueIsACell(values);
    SumOfZeros(values[i]);
  }
}
