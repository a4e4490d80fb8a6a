/** The dashboard script from `final_data = []` on: collect the quotes,
    show the error branch when there are none, otherwise build the targets,
    project every row and rank the table. */
module Dashboard {
  import opened Quotes
  import opened Collect
  import opened Projection

  /** What the page shows: the error message, or the ranked table. */
  datatype View = CouldNotFetch | Results(table: seq<Ranked>)

  function QuotesOf(rows: seq<Projected>): seq<Quote>
  {
    seq(|rows|, i requires 0 <= i < |rows| => rows[i].quote)
  }

  lemma QuotesOfAppend(a: seq<Projected>, b: seq<Projected>)
    ensures QuotesOf(a + b) == QuotesOf(a) + QuotesOf(b)
  {
  }

  /** Taking out the row at `j` takes out its quote. */
  lemma RemoveAt(b: seq<Projected>, j: int)
    requires 0 <= j < |b|
    ensures multiset(b) == multiset(b[..j] + b[j + 1..]) + multiset{b[j]}
    ensures multiset(QuotesOf(b)) == multiset(QuotesOf(b[..j] + b[j + 1..])) + multiset{b[j].quote}
  {
    var front, back := b[..j], b[j + 1..];
    assert b == front + [b[j]] + back;
    QuotesOfAppend(front + [b[j]], back);
    QuotesOfAppend(front, [b[j]]);
    QuotesOfAppend(front, back);
  }

  lemma MultisetCancel(m1: multiset<Projected>, m2: multiset<Projected>, x: Projected)
    requires m1 + multiset{x} == m2 + multiset{x}
    ensures m1 == m2
  {
    assert m1 == (m1 + multiset{x}) - multiset{x};
    assert m2 == (m2 + multiset{x}) - multiset{x};
  }

  /** Reordering rows reorders their quotes the same way. */
  lemma {:induction false} QuotesOfPermutation(a: seq<Projected>, b: seq<Projected>)
    requires multiset(a) == multiset(b)
    ensures multiset(QuotesOf(a)) == multiset(QuotesOf(b))
  {
    if a == [] {
      assert |b| == |multiset(b)| == 0;
    } else {
      var x := a[0];
      assert x in multiset(b);
      var j :| 0 <= j < |b| && b[j] == x;
      var a', b' := a[1..], b[..j] + b[j + 1..];
      RemoveAt(b, j);
      RemoveAt(a, 0);
      assert a[..0] + a[1..] == a';
      MultisetCancel(multiset(a'), multiset(b'), x);
      QuotesOfPermutation(a', b');
    }
  }

  /** No two records share a display symbol. */
  ghost predicate DistinctSymbols(quotes: seq<Quote>)
  {
    forall i, j :: 0 <= i < j < |quotes| ==> quotes[i].symbol != quotes[j].symbol
  }

  /** The rows of a table built by `calc` from `rows` and then reordered:
      each is `calc` applied to one of the records with that record's
      target. */
  lemma ReorderedProjections(rows: seq<Quote>, targets: map<string, int>, fifthRoot: real -> real,
                             projected: seq<Projected>, table: seq<Projected>)
    requires forall i :: 0 <= i < |rows| ==> rows[i].symbol in targets && rows[i].mcB != 0.0
    requires |projected| == |rows|
    requires forall i :: 0 <= i < |rows| ==> projected[i] == Calc(rows[i], targets[rows[i].symbol], fifthRoot)
    requires multiset(table) == multiset(projected)
    ensures forall r :: r in table ==>
      && r.quote in rows && r.quote.mcB != 0.0 && r.quote.symbol in targets
      && r.targetMc == targets[r.quote.symbol]
      && r == Calc(r.quote, r.targetMc, fifthRoot)
  {
    forall r | r in table
      ensures r.quote in rows && r.quote.mcB != 0.0 && r.quote.symbol in targets
      ensures r.targetMc == targets[r.quote.symbol]
      ensures r == Calc(r.quote, r.targetMc, fifthRoot)
    {
      assert r in multiset(projected);
      var i :| 0 <= i < |projected| && projected[i] == r;
    }
  }

  /** With distinct symbols every record's target is the answer to its
      own slider. */
  lemma TargetsFromWidget(rows: seq<Quote>, widget: (string, Slider) -> int, targets: map<string, int>, table: seq<Projected>)
    requires DistinctSymbols(rows)
    requires forall i :: 0 <= i < |rows| ==> rows[i].symbol in targets
    requires forall i :: 0 <= i < |rows| && LastWithSymbol(rows, i) ==>
      targets[rows[i].symbol] == widget(SliderLabel(rows[i].symbol), SliderFor(rows[i].mcB))
    requires forall r :: r in table ==> r.quote in rows && r.quote.symbol in targets && r.targetMc == targets[r.quote.symbol]
    ensures forall r :: r in table ==> r.targetMc == widget(SliderLabel(r.quote.symbol), SliderFor(r.quote.mcB))
  {
    forall r | r in table
      ensures r.targetMc == widget(SliderLabel(r.quote.symbol), SliderFor(r.quote.mcB))
    {
      var i :| 0 <= i < |rows| && rows[i] == r.quote;
      assert LastWithSymbol(rows, i);
    }
  }

  /** The `if not df.empty:` branch: sliders, `calc` on every row, sort
      and rank. */
  method RankedTable(rows: seq<Quote>, widget: (string, Slider) -> int, fifthRoot: real -> real) returns (table: seq<Ranked>)
    requires forall q :: q in rows ==> q.mcB != 0.0
    ensures multiset(QuotesOf(RowsOf(table))) == multiset(rows)
    ensures CagrDescending(RowsOf(table))
    ensures forall i :: 0 <= i < |table| ==> table[i].rank == i + 1
    ensures forall r :: r in RowsOf(table) ==> r.quote.mcB != 0.0 && r == Calc(r.quote, r.targetMc, fifthRoot)
    ensures DistinctSymbols(rows) ==>
      forall r :: r in RowsOf(table) ==> r.targetMc == widget(SliderLabel(r.quote.symbol), SliderFor(r.quote.mcB))
  {
    var targets := CreateSliders(rows, widget);
    assert forall i :: 0 <= i < |rows| ==> rows[i] in rows;
    var projected := ApplyCalc(rows, targets, fifthRoot);
    table := RankByCagr(projected);
    assert QuotesOf(projected) == rows;
    QuotesOfPermutation(RowsOf(table), projected);
    ReorderedProjections(rows, targets, fifthRoot, projected, RowsOf(table));
    if DistinctSymbols(rows) {
      TargetsFromWidget(rows, widget, targets, RowsOf(table));
    }
  }

  /** The script body from `final_data = []` to the ranked table or the
      error branch. `feed` answers for the provider, `widget` for the user
      at each slider, `fifthRoot` stands for `** (1/5)`. */
  method Refresh(symbols: seq<string>, feed: string -> Reply, widget: (string, Slider) -> int, fifthRoot: real -> real)
    returns (view: View)
    ensures view.CouldNotFetch? <==> forall i :: 0 <= i < |symbols| ==> Fetches(symbols, feed)[i].None?
    ensures view.Results? ==>
      && multiset(QuotesOf(RowsOf(view.table))) == multiset(Successes(symbols, feed))
      && CagrDescending(RowsOf(view.table))
      && (forall i :: 0 <= i < |view.table| ==> view.table[i].rank == i + 1)
      && (forall r :: r in RowsOf(view.table) ==> r.quote.mcB != 0.0 && r == Calc(r.quote, r.targetMc, fifthRoot))
    ensures view.Results? && DistinctSymbols(Successes(symbols, feed)) ==>
      forall r :: r in RowsOf(view.table) ==> r.targetMc == widget(SliderLabel(r.quote.symbol), SliderFor(r.quote.mcB))
  {
    var finalData := CollectQuotes(symbols, feed);
    SomesEmptyIff(Fetches(symbols, feed));
    if finalData == [] {
      return CouldNotFetch;
    }
    SuccessesWellFormed(symbols, feed);
    var table := RankedTable(finalData, widget, fifthRoot);
    view := Results(table);
  }
}
