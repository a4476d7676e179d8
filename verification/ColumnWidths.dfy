/** The widths of a table's columns: `_Writer._fit_columns` of worker/translation_docx.py.

    The page's width is divided in proportion to the columns' weights, no column gets less
    than `MINIMUM`, and what the minimums take too much is shaved off the widest column.
    Weights are reals here, where the source has floats. */
module ColumnWidths {
  import opened TableGrid

  const MINIMUM := 280

  /** What a cell's text says about its column: its longest word and its length. */
  datatype CellText = CellText(longestWord: nat, length: nat)

  function RealMax(a: real, b: real): real { if a > b then a else b }

  function TextWeight(text: CellText): real {
    RealMax(text.longestWord as real, 0.6 * Min(text.length, 30) as real)
  }

  /** A column's weight after the first `n` cells: the most any cell of its own asks for. */
  function WeightAfter(ps: seq<Placement>, texts: seq<CellText>, n: nat, column: nat): real
    requires n <= |ps| == |texts|
  {
    if n == 0 then 0.0
    else
      var before := WeightAfter(ps, texts, n - 1, column);
      if ps[n - 1].columns == 1 && ps[n - 1].column == column then RealMax(before, TextWeight(texts[n - 1]))
      else before
  }

  function Weights(ps: seq<Placement>, texts: seq<CellText>, width: nat): (weights: seq<real>)
    requires |ps| == |texts|
    ensures |weights| == width && forall i | 0 <= i < width :: weights[i] >= 2.0
  {
    seq(width, c requires 0 <= c < width => RealMax(WeightAfter(ps, texts, |ps|, c), 2.0))
  }

  method ComputeWeights(ps: seq<Placement>, texts: seq<CellText>, width: nat) returns (weights: array<real>)
    requires |ps| == |texts| && forall k | 0 <= k < |ps| :: ps[k].column < width
    ensures fresh(weights) && weights[..] == Weights(ps, texts, width)
  {
    weights := new real[width](_ => 0.0);
    for n := 0 to |ps|
      invariant forall c | 0 <= c < width :: weights[c] == WeightAfter(ps, texts, n, c)
    {
      if ps[n].columns == 1 {
        var c := ps[n].column;
        weights[c] := RealMax(weights[c], TextWeight(texts[n]));
      }
    }
    for c := 0 to width
      invariant forall d | 0 <= d < c :: weights[d] == RealMax(WeightAfter(ps, texts, |ps|, d), 2.0)
      invariant forall d | c <= d < width :: weights[d] == WeightAfter(ps, texts, |ps|, d)
    {
      weights[c] := RealMax(weights[c], 2.0);
    }
  }

  // ---- Dividing the page ----

  function RealSum(s: seq<real>): real {
    if s == [] then 0.0 else RealSum(s[..|s| - 1]) + s[|s| - 1]
  }

  function Sum(s: seq<int>): int {
    if s == [] then 0 else Sum(s[..|s| - 1]) + s[|s| - 1]
  }

  /** A column's share of the page. */
  function Exact(weight: real, spare: real, total: nat): real
    requires spare > 0.0
  {
    total as real * weight / spare
  }

  function Share(weight: real, spare: real, total: nat): int
    requires spare > 0.0
  {
    Exact(weight, spare, total).Floor
  }

  lemma {:induction false} RealSumPositive(s: seq<real>)
    requires forall i | 0 <= i < |s| :: s[i] >= 2.0
    ensures RealSum(s) >= 2.0 * |s| as real
  {
    if s != [] { RealSumPositive(s[..|s| - 1]); }
  }

  ghost predicate Weighted(weights: seq<real>) {
    weights != [] && forall i | 0 <= i < |weights| :: weights[i] >= 2.0
  }

  /** The widths before shaving. */
  function Divided(weights: seq<real>, total: nat): (grid: seq<int>)
    requires Weighted(weights)
    ensures |grid| == |weights| && forall i | 0 <= i < |grid| :: grid[i] >= MINIMUM
  {
    RealSumPositive(weights);
    seq(|weights|, i requires 0 <= i < |weights| => Max(MINIMUM, Share(weights[i], RealSum(weights), total)))
  }

  /** The first of the widest columns. */
  function Widest(grid: seq<int>): (k: nat)
    requires grid != []
    ensures k < |grid| && (forall i | 0 <= i < |grid| :: grid[i] <= grid[k])
    ensures forall i | 0 <= i < k :: grid[i] < grid[k]
  {
    if |grid| == 1 then 0
    else
      var k, n := Widest(grid[..|grid| - 1]), |grid| - 1;
      assert forall i | 0 <= i < n :: grid[..n][i] == grid[i];
      if grid[n] > grid[k] then n else k
  }

  /** How much the minimums take beyond the page. */
  function Over(weights: seq<real>, total: nat): int
    requires Weighted(weights)
  {
    Sum(Divided(weights, total)) - total
  }

  function Widths(weights: seq<real>, total: nat): seq<int>
    requires Weighted(weights)
  {
    var grid, over := Divided(weights, total), Over(weights, total);
    if over > 0 then grid[Widest(grid) := grid[Widest(grid)] - over] else grid
  }

  method TotalWeight(weights: array<real>) returns (spare: real)
    ensures spare == RealSum(weights[..])
  {
    spare := 0.0;
    for i := 0 to weights.Length
      invariant spare == RealSum(weights[..i])
    {
      assert weights[..i + 1][..i] == weights[..i];
      spare := spare + weights[i];
    }
    assert weights[..weights.Length] == weights[..];
  }

  method TotalWidth(grid: array<int>) returns (sum: int)
    ensures sum == Sum(grid[..])
  {
    sum := 0;
    for i := 0 to grid.Length
      invariant sum == Sum(grid[..i])
    {
      assert grid[..i + 1][..i] == grid[..i];
      sum := sum + grid[i];
    }
    assert grid[..grid.Length] == grid[..];
  }

  method FindWidest(grid: array<int>) returns (widest: nat)
    requires grid.Length > 0
    ensures widest == Widest(grid[..])
  {
    widest := 0;
    for i := 1 to grid.Length
      invariant widest == Widest(grid[..i])
    {
      assert grid[..i + 1][..i] == grid[..i];
      if grid[i] > grid[widest] { widest := i; }
    }
    assert grid[..grid.Length] == grid[..];
  }

  method Divide(weights: array<real>, total: nat) returns (grid: array<int>)
    requires Weighted(weights[..])
    ensures fresh(grid) && grid[..] == Divided(weights[..], total)
  {
    hide Share;
    RealSumPositive(weights[..]);
    var spare := TotalWeight(weights);
    grid := new int[weights.Length];
    for i := 0 to weights.Length
      invariant forall j | 0 <= j < i :: grid[j] == Max(MINIMUM, Share(weights[j], spare, total))
    {
      grid[i] := Max(MINIMUM, Share(weights[i], spare, total));
    }
  }

  method FitColumns(weights: array<real>, total: nat) returns (grid: array<int>)
    requires Weighted(weights[..])
    ensures fresh(grid) && grid[..] == Widths(weights[..], total)
  {
    grid := Divide(weights, total);
    hide Divided, Sum;
    var sum := TotalWidth(grid);
    if sum > total {
      var widest := FindWidest(grid);
      grid[widest] := grid[widest] - (sum - total);
    }
  }

  // ---- What the widths are ----

  function Shares(weights: seq<real>, spare: real, total: nat): (shares: seq<int>)
    requires spare > 0.0
    ensures |shares| == |weights|
  {
    seq(|weights|, i requires 0 <= i < |weights| => Share(weights[i], spare, total))
  }

  function Times(a: real, b: real): real { a * b }

  function Quotient(a: real, d: real): real
    requires d > 0.0
  {
    a / d
  }

  lemma TimesAdds(t: real, a: real, b: real)
    ensures Times(t, a + b) == Times(t, a) + Times(t, b)
  {
  }

  lemma TimesGrows(t: real, a: real, b: real)
    requires t >= 0.0 && a <= b
    ensures Times(t, a) <= Times(t, b)
  {
    assert Times(t, b) - Times(t, a) == t * (b - a);
  }

  lemma QuotientAdds(a: real, b: real, d: real)
    requires d > 0.0
    ensures Quotient(a + b, d) == Quotient(a, d) + Quotient(b, d)
  {
  }

  lemma QuotientGrows(a: real, b: real, d: real)
    requires d > 0.0 && a <= b
    ensures Quotient(a, d) <= Quotient(b, d)
  {
  }

  lemma ExactIs(a: real, spare: real, total: nat)
    requires spare > 0.0
    ensures Exact(a, spare, total) == Quotient(Times(total as real, a), spare)
  {
  }

  lemma ExactAdds(a: real, b: real, spare: real, total: nat)
    requires spare > 0.0
    ensures Exact(a + b, spare, total) == Exact(a, spare, total) + Exact(b, spare, total)
    ensures a <= b ==> Exact(a, spare, total) <= Exact(b, spare, total)
  {
    hide *;
    var t := total as real;
    ExactIs(a, spare, total);
    ExactIs(b, spare, total);
    ExactIs(a + b, spare, total);
    TimesAdds(t, a, b);
    QuotientAdds(Times(t, a), Times(t, b), spare);
    if a <= b {
      TimesGrows(t, a, b);
      QuotientGrows(Times(t, a), Times(t, b), spare);
    }
  }

  /** Rounding down loses less than one twip per column. */
  lemma {:induction false} SharesBound(weights: seq<real>, spare: real, total: nat)
    requires spare > 0.0
    ensures var exact, rounded := Exact(RealSum(weights), spare, total), Sum(Shares(weights, spare, total)) as real;
            rounded <= exact && if weights == [] then rounded == exact else exact - |weights| as real < rounded
  {
    if weights == [] {
    } else {
      var n := |weights| - 1;
      SharesBound(weights[..n], spare, total);
      ExactAdds(RealSum(weights[..n]), weights[n], spare, total);
      assert Shares(weights, spare, total)[..n] == Shares(weights[..n], spare, total);
      hide Exact;
    }
  }

  lemma {:induction false} SumAtLeast(s: seq<int>, t: seq<int>)
    requires |s| == |t| && forall i | 0 <= i < |s| :: s[i] <= t[i]
    ensures Sum(s) <= Sum(t)
  {
    if s != [] { SumAtLeast(s[..|s| - 1], t[..|t| - 1]); }
  }

  lemma {:induction false} SumUpdate(s: seq<int>, k: nat, v: int)
    requires k < |s|
    ensures Sum(s[k := v]) == Sum(s) - s[k] + v
  {
    var n := |s| - 1;
    if k == n {
      assert s[k := v][..n] == s[..n];
    } else {
      assert s[k := v][..n] == s[..n][k := v];
      SumUpdate(s[..n], k, v);
    }
  }

  /** Before shaving, the columns take more than the page less one twip each. */
  lemma DividedFills(weights: seq<real>, total: nat)
    requires Weighted(weights)
    ensures Over(weights, total) > -|weights|
  {
    RealSumPositive(weights);
    hide Exact;
    var spare := RealSum(weights);
    SharesBound(weights, spare, total);
    SumAtLeast(Shares(weights, spare, total), Divided(weights, total));
    Whole(spare, total);
  }

  lemma Whole(spare: real, total: nat)
    requires spare > 0.0
    ensures Exact(spare, spare, total) == total as real
  {
  }

  /** The widths fill the page: exactly when the minimums overflow it, and to less than one
      twip per column otherwise. */
  lemma WidthsFillThePage(weights: seq<real>, total: nat)
    requires Weighted(weights)
    ensures Over(weights, total) >= 0 ==> Sum(Widths(weights, total)) == total
    ensures Over(weights, total) < 0 ==> total - |weights| < Sum(Widths(weights, total)) < total
  {
    DividedFills(weights, total);
    var grid, over := Divided(weights, total), Over(weights, total);
    if over > 0 {
      SumUpdate(grid, Widest(grid), grid[Widest(grid)] - over);
    }
  }

  /** A heavier column is never narrower, before the widest is shaved. */
  lemma HeavierIsWider(weights: seq<real>, total: nat, i: nat, j: nat)
    requires Weighted(weights) && i < |weights| && j < |weights| && weights[i] <= weights[j]
    ensures Divided(weights, total)[i] <= Divided(weights, total)[j]
  {
    RealSumPositive(weights);
    ExactAdds(weights[i], weights[j], RealSum(weights), total);
    hide Exact;
  }

  /** Only the widest column can end below the minimum; and every width is positive exactly
      when the overflow is less than that column, which the source does not check. */
  lemma PositiveExactlyWhen(weights: seq<real>, total: nat)
    requires Weighted(weights)
    ensures var grid, widths := Divided(weights, total), Widths(weights, total);
            && |widths| == |weights|
            && (forall i | 0 <= i < |widths| && i != Widest(grid) :: widths[i] == grid[i] >= MINIMUM)
            && ((forall i | 0 <= i < |widths| :: widths[i] > 0) <==> Over(weights, total) < grid[Widest(grid)])
  {
    var grid, widths := Divided(weights, total), Widths(weights, total);
    var k := Widest(grid);
    assert widths[k] == grid[k] - Max(0, Over(weights, total));
  }

  function Light(n: nat): (weights: seq<real>)
    ensures |weights| == n && forall i | 0 <= i < n :: weights[i] == 2.0
  {
    if n == 0 then [] else Light(n - 1) + [2.0]
  }

  lemma {:induction false} LightSum(n: nat)
    ensures RealSum(Light(n)) == 2.0 * n as real
  {
    if n > 0 {
      LightSum(n - 1);
      assert Light(n)[..n - 1] == Light(n - 1);
    }
  }

  lemma {:induction false} ConstantSum(s: seq<int>, v: int)
    requires forall i | 0 <= i < |s| :: s[i] == v
    ensures Sum(s) == v * |s|
  {
    if s != [] { ConstantSum(s[..|s| - 1], v); }
  }

  /** The A4 page's own 17 cm (9638 twips), 38 columns of short figures and two of long words:
      the minimums overflow by more than a wide column has, and one width is negative. */
  lemma NegativeWidthExample()
    ensures var weights := Light(38) + [100.0] + [100.0];
            Weighted(weights) && |Widths(weights, 9638)| == 40 && Widths(weights, 9638)[38] == 3492 - 7986
  {
    var weights := Light(38) + [100.0] + [100.0];
    assert Weighted(weights);
    assert RealSum(weights) == 276.0 by {
      LightSum(38);
      assert weights[..39] == Light(38) + [100.0] && weights[..39][..38] == Light(38);
    }
    assert Share(100.0, 276.0, 9638) == 3492;
    assert Share(2.0, 276.0, 9638) == 69;
    var grid := Divided(weights, 9638);
    assert grid[..39][..38] == grid[..38];
    ConstantSum(grid[..38], 280);
    assert Sum(grid) == Sum(grid[..39]) + 3492 == Sum(grid[..38]) + 3492 + 3492;
    assert Widest(grid) == 38;
  }
}
