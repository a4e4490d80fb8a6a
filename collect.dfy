/** The refresh loop: every tracked symbol is fetched in order and only the
    records that came back are kept (`final_data`). */
module Collect {
  import opened PyValues
  import opened Quotes

  /** The answers of `fetch_stock_data` for the tracked symbols, in order;
      `feed` gives the provider's replies per symbol. */
  function Fetches(symbols: seq<string>, feed: string -> Reply): (r: seq<Option<Quote>>)
    ensures |r| == |symbols|
  {
    seq(|symbols|, i requires 0 <= i < |symbols| => FetchStockData(symbols[i], feed(symbols[i])))
  }

  /** The values of the `Some` entries, in order (`if res:` keeps a record
      and drops `None`). */
  function Somes<T>(xs: seq<Option<T>>): (r: seq<T>)
    ensures |r| <= |xs|
  {
    if xs == [] then []
    else (match xs[0] case Some(v) => [v] case None => []) + Somes(xs[1..])
  }

  /** `final_data` after the loop. */
  function Successes(symbols: seq<string>, feed: string -> Reply): (r: seq<Quote>)
    ensures |r| <= |symbols|
  {
    Somes(Fetches(symbols, feed))
  }

  lemma {:induction false} SomesAppend<T>(a: seq<Option<T>>, b: seq<Option<T>>)
    ensures Somes(a + b) == Somes(a) + Somes(b)
  {
    if a == [] {
      assert a + b == b;
    } else {
      assert (a + b)[1..] == a[1..] + b;
      SomesAppend(a[1..], b);
    }
  }

  /** Positions of the `Some` entries, in order. */
  ghost function SomePositions<T>(xs: seq<Option<T>>): seq<int>
  {
    if xs == [] then []
    else
      var rest := SomePositions(xs[1..]);
      var shifted := seq(|rest|, k requires 0 <= k < |rest| => rest[k] + 1);
      if xs[0].Some? then [0] + shifted else shifted
  }

  lemma {:induction false} SomePositionsOrdered<T>(xs: seq<Option<T>>)
    ensures |SomePositions(xs)| == |Somes(xs)|
    ensures forall k :: 0 <= k < |SomePositions(xs)| ==> 0 <= SomePositions(xs)[k] < |xs|
    ensures forall k, l :: 0 <= k < l < |SomePositions(xs)| ==> SomePositions(xs)[k] < SomePositions(xs)[l]
  {
    if xs != [] {
      SomePositionsOrdered(xs[1..]);
      var rest := SomePositions(xs[1..]);
      assert forall k, l :: 0 <= k < l < |rest| ==> rest[k] < rest[l];
    }
  }

  lemma {:induction false} SomePositionsValues<T>(xs: seq<Option<T>>)
    requires |SomePositions(xs)| == |Somes(xs)|
    requires forall k :: 0 <= k < |SomePositions(xs)| ==> 0 <= SomePositions(xs)[k] < |xs|
    ensures forall k :: 0 <= k < |SomePositions(xs)| ==> xs[SomePositions(xs)[k]] == Some(Somes(xs)[k])
  {
    if xs != [] {
      var tail := xs[1..];
      SomePositionsOrdered(tail);
      SomePositionsValues(tail);
      var idx, rest := SomePositions(xs), SomePositions(tail);
      var r, rt := Somes(xs), Somes(tail);
      var d := if xs[0].Some? then 1 else 0;
      assert r == (if xs[0].Some? then [xs[0].value] else []) + rt;
      forall k | d <= k < |idx| ensures xs[idx[k]] == Some(r[k]) {
        assert idx[k] == rest[k - d] + 1 && r[k] == rt[k - d];
        assert xs[idx[k]] == tail[rest[k - d]];
      }
    }
  }

  lemma {:induction false} SomePositionsComplete<T>(xs: seq<Option<T>>)
    ensures forall i :: 0 <= i < |xs| && xs[i].Some? ==> i in SomePositions(xs)
  {
    if xs != [] {
      var tail := xs[1..];
      SomePositionsComplete(tail);
      var idx, rest := SomePositions(xs), SomePositions(tail);
      var d := if xs[0].Some? then 1 else 0;
      forall i | 1 <= i < |xs| && xs[i].Some? ensures i in idx {
        assert tail[i - 1] == xs[i];
        var k :| 0 <= k < |rest| && rest[k] == i - 1;
        assert idx[k + d] == i;
      }
    }
  }

  /** The kept values form a subsequence: `idx` gives their positions,
      strictly increasing, each kept value is the `Some` at its position,
      and every position left out holds `None`. */
  lemma SomesSubsequence<T>(xs: seq<Option<T>>) returns (idx: seq<int>)
    ensures |idx| == |Somes(xs)|
    ensures forall k :: 0 <= k < |idx| ==> 0 <= idx[k] < |xs|
    ensures forall k, l :: 0 <= k < l < |idx| ==> idx[k] < idx[l]
    ensures forall k :: 0 <= k < |idx| ==> xs[idx[k]] == Some(Somes(xs)[k])
    ensures forall i :: 0 <= i < |xs| && i !in idx ==> xs[i].None?
  {
    idx := SomePositions(xs);
    SomePositionsOrdered(xs);
    SomePositionsValues(xs);
    SomePositionsComplete(xs);
  }

  /** Nothing is kept exactly when every entry is `None`, and everything
      exactly when every entry is a `Some`. */
  lemma {:induction false} SomesEmptyIff<T>(xs: seq<Option<T>>)
    ensures Somes(xs) == [] <==> forall i :: 0 <= i < |xs| ==> xs[i].None?
    ensures |Somes(xs)| == |xs| <==> forall i :: 0 <= i < |xs| ==> xs[i].Some?
  {
    if xs != [] {
      SomesEmptyIff(xs[1..]);
      assert forall i :: 1 <= i < |xs| ==> xs[i] == xs[1..][i - 1];
    }
  }

  /** Every collected record has a non-zero price, a non-zero market cap
      and a display symbol without a dash. */
  lemma SuccessesWellFormed(symbols: seq<string>, feed: string -> Reply)
    ensures forall q :: q in Successes(symbols, feed) ==> q.price != 0.0 && q.mcB != 0.0 && '-' !in q.symbol
  {
    var xs := Fetches(symbols, feed);
    var idx := SomesSubsequence(xs);
    forall q: Quote | q in Somes(xs) ensures q.price != 0.0 && q.mcB != 0.0 && '-' !in q.symbol {
      var k :| 0 <= k < |Somes(xs)| && Somes(xs)[k] == q;
      assert xs[idx[k]] == Some(q);
    }
  }

  /** The loop of the script body building `final_data`. */
  method CollectQuotes(symbols: seq<string>, feed: string -> Reply) returns (finalData: seq<Quote>)
    ensures finalData == Successes(symbols, feed)
  {
    finalData := [];
    for i := 0 to |symbols|
      invariant finalData == Somes(Fetches(symbols[..i], feed))
    {
      var res := FetchStockData(symbols[i], feed(symbols[i]));
      if res.Some? {
        finalData := finalData + [res.value];
      }
      assert Fetches(symbols[..i + 1], feed) == Fetches(symbols[..i], feed) + [res];
      SomesAppend(Fetches(symbols[..i], feed), [res]);
    }
    assert symbols[..|symbols|] == symbols;
  }
}
