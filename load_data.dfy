/** The column layout of `load_data` in src/utils.py. A training CSV holds
    an index column 0, then the `N` moments `u`, the `N` multipliers
    `alpha` and the entropy `h`; each selected group is read as its own
    matrix and appended, in the fixed order u, alpha, h. The CSV is
    modelled as its data rows (the header line is consumed by the reader),
    all of one width. */
module DataLoading {
  import opened Wrappers

  type Matrix = seq<seq<real>>

  /** `u_cols`: columns `1 .. N`. */
  function UColumns(n: nat): (cols: seq<nat>)
    ensures |cols| == n
  {
    seq(n, i requires 0 <= i < n => i + 1)
  }

  /** `alpha_cols`: columns `N + 1 .. 2N`. */
  function AlphaColumns(n: nat): (cols: seq<nat>)
    ensures |cols| == n
  {
    seq(n, i requires 0 <= i < n => n + 1 + i)
  }

  /** `h_col`: the single column `2N + 1`. */
  function HColumns(n: nat): (cols: seq<nat>)
    ensures |cols| == 1
  {
    [2 * n + 1]
  }

  /** The columns read for group `k` of the selection triple. */
  function PartColumns(n: nat, k: nat): seq<nat>
    requires k < 3
  {
    if k == 0 then UColumns(n) else if k == 1 then AlphaColumns(n) else HColumns(n)
  }

  /** Which group a column belongs to, if any: `u` holds exactly `1 .. N`,
      `alpha` exactly `N + 1 .. 2N` and `h` exactly `2N + 1`, so the groups
      are disjoint and column 0 is in none of them. */
  lemma ColumnLayout(n: nat, c: nat)
    ensures c in UColumns(n) <==> 1 <= c <= n
    ensures c in AlphaColumns(n) <==> n + 1 <= c <= 2 * n
    ensures c in HColumns(n) <==> c == 2 * n + 1
  {
    if 1 <= c <= n {
      assert UColumns(n)[c - 1] == c;
    }
    if n + 1 <= c <= 2 * n {
      assert AlphaColumns(n)[c - n - 1] == c;
    }
  }

  /** No column is read twice and the index column is never read. */
  lemma ColumnsDisjoint(n: nat, c: nat)
    ensures !(c in UColumns(n) && c in AlphaColumns(n))
    ensures !(c in UColumns(n) && c in HColumns(n))
    ensures !(c in AlphaColumns(n) && c in HColumns(n))
    ensures c == 0 ==> c !in UColumns(n) + AlphaColumns(n) + HColumns(n)
  {
    ColumnLayout(n, c);
  }

  /** Read one after the other the three groups cover columns `1 .. 2N + 1`
      without a gap, in increasing order. */
  lemma ColumnsContiguous(n: nat)
    ensures UColumns(n) + AlphaColumns(n) + HColumns(n) == seq(2 * n + 1, i requires 0 <= i < 2 * n + 1 => i + 1)
  {
    var all := UColumns(n) + AlphaColumns(n) + HColumns(n);
    forall i | 0 <= i < 2 * n + 1
      ensures all[i] == i + 1
    {
      if i < n {
        assert all[i] == UColumns(n)[i];
      } else if i < 2 * n {
        assert all[i] == AlphaColumns(n)[i - n];
      }
    }
  }

  predicate ColumnsWithin(cols: seq<nat>, width: nat)
  {
    forall j :: 0 <= j < |cols| ==> cols[j] < width
  }

  /** `read_csv(usecols=cols).to_numpy()`: every row, restricted to the
      given columns in the given (increasing) order. */
  function SelectColumns(table: Matrix, cols: seq<nat>, width: nat): (m: Matrix)
    requires forall i :: 0 <= i < |table| ==> |table[i]| == width
    requires ColumnsWithin(cols, width)
    ensures |m| == |table|
    ensures forall i :: 0 <= i < |m| ==> |m[i]| == |cols|
  {
    seq(|table|, i requires 0 <= i < |table| =>
      seq(|cols|, j requires 0 <= j < |cols| => table[i][cols[j]]))
  }

  /** The number of true flags. */
  function CountTrue(flags: seq<bool>): (c: nat)
    ensures c <= |flags|
  {
    if flags == [] then 0 else CountTrue(flags[..|flags| - 1]) + (if flags[|flags| - 1] then 1 else 0)
  }

  /** Where group `k` lands in the returned list: after every selected
      group before it. */
  function Position(selected: seq<bool>, k: nat): nat
    requires k <= |selected|
  {
    CountTrue(selected[..k])
  }

  /** `load_data`: appends the matrix of each selected group, in the order
      u, alpha, h. Reading a column the file does not have fails, as
      pandas 2.0 and later raise on an out-of-range `usecols` entry. */
  method LoadData(table: Matrix, width: nat, inputDim: nat, selected: seq<bool>)
    returns (r: Result<seq<Matrix>>)
    requires inputDim >= 1
    requires |selected| >= 3
    requires forall i :: 0 <= i < |table| ==> |table[i]| == width
    ensures r.Failure? <==> exists k :: 0 <= k < 3 && selected[k] && !ColumnsWithin(PartColumns(inputDim, k), width)
    ensures r.Success? ==> |r.value| == CountTrue(selected[..3])
    ensures r.Success? ==> forall k :: 0 <= k < 3 && selected[k] ==>
              Position(selected, k) < |r.value| &&
              r.value[Position(selected, k)] == SelectColumns(table, PartColumns(inputDim, k), width)
  {
    var uCols := UColumns(inputDim);
    var alphaCols := AlphaColumns(inputDim);
    var hCol := HColumns(inputDim);
    var trainingData: seq<Matrix> := [];
    assert selected[..3][..2] == selected[..2];
    assert selected[..2][..1] == selected[..1];
    assert selected[..1][..0] == selected[..0];
    assert CountTrue(selected[..1]) == if selected[0] then 1 else 0;
    assert CountTrue(selected[..2]) == CountTrue(selected[..1]) + if selected[1] then 1 else 0;
    assert CountTrue(selected[..3]) == CountTrue(selected[..2]) + if selected[2] then 1 else 0;
    if selected[0] {
      if !ColumnsWithin(uCols, width) {
        return Failure("usecols do not match columns");
      }
      trainingData := trainingData + [SelectColumns(table, uCols, width)];
    }
    if selected[1] {
      if !ColumnsWithin(alphaCols, width) {
        return Failure("usecols do not match columns");
      }
      trainingData := trainingData + [SelectColumns(table, alphaCols, width)];
    }
    if selected[2] {
      if !ColumnsWithin(hCol, width) {
        return Failure("usecols do not match columns");
      }
      trainingData := trainingData + [SelectColumns(table, hCol, width)];
    }
    r := Success(trainingData);
  }

  /** Counting flags over a longer prefix never counts fewer. */
  lemma {:induction false} CountTrueMonotone(flags: seq<bool>, j: nat, k: nat)
    requires j <= k <= |flags|
    ensures CountTrue(flags[..j]) <= CountTrue(flags[..k])
  {
    if j < k {
      CountTrueMonotone(flags, j, k - 1);
      assert flags[..k][..k - 1] == flags[..k - 1];
    }
  }

  /** The selected groups keep their order in the returned list, and each
      lands inside it. */
  lemma PositionsOrdered(selected: seq<bool>, j: nat, k: nat)
    requires j < k < 3 <= |selected|
    requires selected[j] && selected[k]
    ensures Position(selected, j) < Position(selected, k) < CountTrue(selected[..3])
  {
    assert selected[..j + 1][..j] == selected[..j];
    assert selected[..k + 1][..k] == selected[..k];
    CountTrueMonotone(selected, j + 1, k);
    CountTrueMonotone(selected, k + 1, 3);
  }
}
