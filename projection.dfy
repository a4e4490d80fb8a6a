/** Target sliders, the per-row projection `calc`, and ranking by CAGR. */
module Projection {
  import opened Quotes

  /** Python's `int()` on a float: truncation toward zero. */
  function Trunc(x: real): (n: int)
    ensures x >= 0.0 ==> n as real <= x < n as real + 1.0
    ensures x < 0.0 ==> n as real - 1.0 < x <= n as real
  {
    if x >= 0.0 then x.Floor else -((-x).Floor)
  }

  /** The bounds and the default value of one target slider. */
  datatype Slider = Slider(min: int, max: int, value: int)

  /** The slider shown for a market cap of `mcB` billions, with
      `current_mc = int(MC_B)`. */
  function SliderFor(mcB: real): (s: Slider)
    ensures s.min == 1
    ensures s.max >= 10000 && s.max >= 10 * Trunc(mcB)
    ensures s.max == 10000 || s.max == 10 * Trunc(mcB)
    ensures s.value == 2 * Trunc(mcB)
  {
    var currentMc := Trunc(mcB);
    Slider(1, if currentMc * 10 >= 10000 then currentMc * 10 else 10000, currentMc * 2)
  }

  /** The default lies within the slider's bounds exactly when the market
      cap is at least one billion. */
  lemma SliderDefaultInRange(mcB: real)
    ensures var s := SliderFor(mcB); s.min <= s.value <= s.max <==> mcB >= 1.0
  {
    var c := Trunc(mcB);
    assert c >= 1 <==> mcB >= 1.0;
  }

  /** The label of a row's slider. */
  function SliderLabel(symbol: string): (text: string)
    ensures symbol <= text && |text| > |symbol|
  {
    symbol + " Target MC"
  }

  /** No row of `rows[..n]` after row `i` has the same symbol. */
  ghost predicate LastBefore(rows: seq<Quote>, n: int, i: int)
    requires 0 <= i < n <= |rows|
  {
    forall j :: i < j < n ==> rows[j].symbol != rows[i].symbol
  }

  /** No later row has the same symbol as row `i`. */
  ghost predicate LastWithSymbol(rows: seq<Quote>, i: int)
    requires 0 <= i < |rows|
  {
    LastBefore(rows, |rows|, i)
  }

  /** The slider loop filling `target_values`. `widget` is what the user
      answers to a slider with the given label and bounds. A symbol shared
      by several rows keeps the answer to its last slider. */
  method CreateSliders(rows: seq<Quote>, widget: (string, Slider) -> int) returns (targets: map<string, int>)
    ensures targets.Keys == set i | 0 <= i < |rows| :: rows[i].symbol
    ensures forall i :: 0 <= i < |rows| && LastWithSymbol(rows, i) ==>
      targets[rows[i].symbol] == widget(SliderLabel(rows[i].symbol), SliderFor(rows[i].mcB))
  {
    targets := map[];
    for n := 0 to |rows|
      invariant targets.Keys == set i | 0 <= i < n :: rows[i].symbol
      invariant forall i :: 0 <= i < n && LastBefore(rows, n, i) ==>
        targets[rows[i].symbol] == widget(SliderLabel(rows[i].symbol), SliderFor(rows[i].mcB))
    {
      var row := rows[n];
      targets := targets[row.symbol := widget(SliderLabel(row.symbol), SliderFor(row.mcB))];
      forall i | 0 <= i < n + 1 && LastBefore(rows, n + 1, i)
        ensures targets[rows[i].symbol] == widget(SliderLabel(rows[i].symbol), SliderFor(rows[i].mcB))
      {
        if i < n {
          assert rows[i].symbol != row.symbol;
          assert LastBefore(rows, n, i);
        }
      }
    }
    forall i | 0 <= i < |rows| && LastWithSymbol(rows, i)
      ensures targets[rows[i].symbol] == widget(SliderLabel(rows[i].symbol), SliderFor(rows[i].mcB))
    {
      assert LastBefore(rows, |rows|, i);
    }
  }

  /** One row after `calc`: its quote and the `Target MC`, `Target Price`
      and `CAGR (%)` columns. */
  datatype Projected = Projected(quote: Quote, targetMc: int, targetPrice: real, cagr: real)

  /** `calc(row)`. The fractional power `** (1/5)` is the parameter
      `fifthRoot`. */
  function Calc(row: Quote, targetMc: int, fifthRoot: real -> real): (p: Projected)
    requires row.mcB != 0.0
    ensures p.quote == row && p.targetMc == targetMc
    ensures row.price != 0.0 ==> p.targetPrice / row.price == targetMc as real / row.mcB
    ensures targetMc as real == row.mcB ==> p.targetPrice == row.price
  {
    var ratio := targetMc as real / row.mcB;
    Projected(row, targetMc, row.price * ratio, (fifthRoot(ratio) - 1.0) * 100.0)
  }

  /** Dividing by a positive market cap compares the target with it. */
  lemma RatioComparesWithOne(target: real, mcB: real)
    requires mcB > 0.0 && target >= 0.0
    ensures 0.0 <= target / mcB
    ensures target < mcB ==> target / mcB < 1.0
    ensures target > mcB ==> target / mcB > 1.0
  {
    var ratio := target / mcB;
    assert ratio * mcB == target;
    assert (ratio - 1.0) * mcB == target - mcB;
  }

  /** For a root that maps 1 to 1 and is strictly increasing on the
      non-negative reals, the CAGR is zero exactly when the target equals
      the current market cap. Target 0, the slider's default below one
      billion, is included. */
  lemma CagrZeroIff(row: Quote, targetMc: int, fifthRoot: real -> real)
    requires row.mcB > 0.0 && targetMc >= 0
    requires fifthRoot(1.0) == 1.0
    requires forall x: real, y: real :: 0.0 <= x < y ==> fifthRoot(x) < fifthRoot(y)
    ensures Calc(row, targetMc, fifthRoot).cagr == 0.0 <==> targetMc as real == row.mcB
  {
    var ratio := targetMc as real / row.mcB;
    RatioComparesWithOne(targetMc as real, row.mcB);
    if targetMc as real < row.mcB {
      assert 0.0 <= ratio < 1.0;
      assert fifthRoot(ratio) < fifthRoot(1.0);
    } else if targetMc as real > row.mcB {
      assert ratio > 1.0;
      assert fifthRoot(1.0) < fifthRoot(ratio);
    }
  }

  /** For a root increasing on the non-negative reals, raising a
      non-negative target never lowers the CAGR, and for a positive price
      never lowers the target price. */
  lemma CagrMonotone(row: Quote, t1: int, t2: int, fifthRoot: real -> real)
    requires row.mcB > 0.0 && 0 <= t1 <= t2
    requires forall x: real, y: real :: 0.0 <= x <= y ==> fifthRoot(x) <= fifthRoot(y)
    ensures Calc(row, t1, fifthRoot).cagr <= Calc(row, t2, fifthRoot).cagr
    ensures row.price > 0.0 ==> Calc(row, t1, fifthRoot).targetPrice <= Calc(row, t2, fifthRoot).targetPrice
  {
    var r1, r2 := t1 as real / row.mcB, t2 as real / row.mcB;
    assert r1 * row.mcB == t1 as real && r2 * row.mcB == t2 as real;
    assert 0.0 <= r1 <= r2;
    assert fifthRoot(r1) <= fifthRoot(r2);
  }

  /** `df.apply(calc, axis=1)` assigning the three columns, row by row. */
  method ApplyCalc(rows: seq<Quote>, targets: map<string, int>, fifthRoot: real -> real) returns (projected: seq<Projected>)
    requires forall i :: 0 <= i < |rows| ==> rows[i].symbol in targets && rows[i].mcB != 0.0
    ensures |projected| == |rows|
    ensures forall i :: 0 <= i < |rows| ==> projected[i] == Calc(rows[i], targets[rows[i].symbol], fifthRoot)
  {
    projected := [];
    for i := 0 to |rows|
      invariant |projected| == i
      invariant forall k :: 0 <= k < i ==> projected[k] == Calc(rows[k], targets[rows[k].symbol], fifthRoot)
    {
      projected := projected + [Calc(rows[i], targets[rows[i].symbol], fifthRoot)];
    }
  }

  ghost predicate CagrDescending(rows: seq<Projected>)
  {
    forall i, j :: 0 <= i < j < |rows| ==> rows[i].cagr >= rows[j].cagr
  }

  /** Every row of `rows` has a CAGR of at most `bound`. */
  ghost predicate AllAtMost(rows: seq<Projected>, bound: real)
  {
    forall x :: x in multiset(rows) ==> x.cagr <= bound
  }

  lemma PrependDescending(h: Projected, rows: seq<Projected>)
    requires CagrDescending(rows) && AllAtMost(rows, h.cagr)
    ensures CagrDescending([h] + rows)
  {
    forall j | 0 <= j < |rows| ensures rows[j].cagr <= h.cagr {
      assert rows[j] in multiset(rows);
    }
  }

  lemma DescendingTailAtMostHead(rows: seq<Projected>)
    requires rows != [] && CagrDescending(rows)
    ensures AllAtMost(rows[1..], rows[0].cagr)
  {
    forall x | x in multiset(rows[1..]) ensures x.cagr <= rows[0].cagr {
      var k :| 0 <= k < |rows[1..]| && rows[1..][k] == x;
      assert rows[k + 1] == x;
    }
  }

  function InsertByCagr(p: Projected, rows: seq<Projected>): (r: seq<Projected>)
    requires CagrDescending(rows)
    ensures CagrDescending(r)
    ensures multiset(r) == multiset(rows) + multiset{p}
  {
    if rows == [] || rows[0].cagr <= p.cagr then
      [p] + rows
    else
      var rest := InsertByCagr(p, rows[1..]);
      assert rows == [rows[0]] + rows[1..];
      DescendingTailAtMostHead(rows);
      PrependDescending(rows[0], rest);
      [rows[0]] + rest
  }

  /** `sort_values('CAGR (%)', ascending=False)`: one ordering of the rows
      by CAGR, highest first. */
  function SortByCagr(rows: seq<Projected>): (r: seq<Projected>)
    ensures CagrDescending(r)
    ensures multiset(r) == multiset(rows)
  {
    if rows == [] then []
    else
      assert rows == [rows[0]] + rows[1..];
      InsertByCagr(rows[0], SortByCagr(rows[1..]))
  }

  /** A row of the final table with its `Rank` column. */
  datatype Ranked = Ranked(rank: int, row: Projected)

  function RowsOf(ranked: seq<Ranked>): seq<Projected>
  {
    seq(|ranked|, i requires 0 <= i < |ranked| => ranked[i].row)
  }

  /** Sorting and `df['Rank'] = range(1, len(df) + 1)`: the rows are a
      permutation of the input, CAGR never increases down the table, and
      the ranks are 1..N in row order. */
  method RankByCagr(rows: seq<Projected>) returns (ranked: seq<Ranked>)
    ensures |ranked| == |rows|
    ensures multiset(RowsOf(ranked)) == multiset(rows)
    ensures CagrDescending(RowsOf(ranked))
    ensures forall i :: 0 <= i < |ranked| ==> ranked[i].rank == i + 1
  {
    var sorted := SortByCagr(rows);
    assert |sorted| == |multiset(sorted)| == |multiset(rows)| == |rows|;
    ranked := [];
    for i := 0 to |sorted|
      invariant |ranked| == i
      invariant forall k :: 0 <= k < i ==> ranked[k] == Ranked(k + 1, sorted[k])
    {
      ranked := ranked + [Ranked(i + 1, sorted[i])];
    }
    assert RowsOf(ranked) == sorted;
  }
}
