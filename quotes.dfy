/** `fetch_stock_data`: one quote per ticker, built from the provider's
    fields through a chain of fallbacks. */
module Quotes {
  import opened PyValues

  /** One record of the results table: display symbol, price and market
      cap in billions (`MC_B`). */
  datatype Quote = Quote(symbol: string, price: real, mcB: real)

  /** The fields of `ticker.info` that the dashboard reads with `get`. */
  datatype Info = Info(regularMarketPrice: Option<real>, currentPrice: Option<real>, marketCap: Option<real>)

  /** What the provider answers for one ticker: `ticker.info`,
      `ticker.fast_info['lastPrice']` and `ticker.fast_info['marketCap']`.
      Each of the three accesses may raise. */
  datatype Reply = Reply(info: Access<Info>, lastPrice: Access<Option<real>>, fastMarketCap: Access<Option<real>>)

  const Billion: real := 1000000000.0

  /** `symbol.split('-')[0]`: the longest prefix without a dash. */
  function DisplaySymbol(s: string): (d: string)
    ensures d <= s
    ensures '-' !in d
    ensures |d| < |s| ==> s[|d|] == '-'
  {
    if s == [] || s[0] == '-' then [] else [s[0]] + DisplaySymbol(s[1..])
  }

  lemma {:induction false} DisplaySymbolOfDashFree(s: string)
    requires '-' !in s
    ensures DisplaySymbol(s) == s
  {
    if s != [] {
      DisplaySymbolOfDashFree(s[1..]);
    }
  }

  /** Taking the display symbol twice is taking it once. */
  lemma DisplaySymbolIdempotent(s: string)
    ensures DisplaySymbol(DisplaySymbol(s)) == DisplaySymbol(s)
  {
    DisplaySymbolOfDashFree(DisplaySymbol(s));
  }

  lemma DisplaySymbolExamples()
    ensures DisplaySymbol("BTC-USD") == "BTC"
    ensures DisplaySymbol("AAPL") == "AAPL"
  {
  }

  /** Python's `a or b or ...` over provider accesses, evaluated left to
      right: an operand that raises ends the evaluation with that exception,
      the first truthy operand is the value, and when none is truthy the
      last operand is the value. */
  function OrChain(chain: seq<Access<Option<real>>>): (r: Access<Option<real>>)
    requires |chain| > 0
    ensures r in chain
  {
    if |chain| == 1 || chain[0].Raises? || Truthy(chain[0].value) then chain[0]
    else OrChain(chain[1..])
  }

  /** Every operand before position `k` was consulted and was missing or zero. */
  ghost predicate FalsyBefore(chain: seq<Access<Option<real>>>, k: int)
    requires k <= |chain|
  {
    forall j :: 0 <= j < k ==> chain[j].Yields? && !Truthy(chain[j].value)
  }

  /** Operand `k` is the first truthy one, and nothing before it raised. */
  ghost predicate SelectedAt(chain: seq<Access<Option<real>>>, k: int)
  {
    0 <= k < |chain| && chain[k].Yields? && Truthy(chain[k].value) && FalsyBefore(chain, k)
  }

  /** Operand `k` raises after every earlier operand was missing or zero. */
  ghost predicate RaisesAt(chain: seq<Access<Option<real>>>, k: int)
  {
    0 <= k < |chain| && chain[k].Raises? && FalsyBefore(chain, k)
  }

  /** The chain's value is the selected operand, and operands after it are
      never consulted: any chain that agrees up to `k` has the same value. */
  lemma {:induction false} OrChainSelected(chain: seq<Access<Option<real>>>, other: seq<Access<Option<real>>>, k: int)
    requires SelectedAt(chain, k)
    requires k < |other| && other[..k + 1] == chain[..k + 1]
    ensures OrChain(chain) == chain[k]
    ensures OrChain(other) == chain[k]
  {
    assert other[0] == chain[0];
    if k > 0 {
      assert other[1..][..k] == other[..k + 1][1..];
      assert chain[1..][..k] == chain[..k + 1][1..];
      OrChainSelected(chain[1..], other[1..], k - 1);
    }
  }

  /** The chain is truthy exactly when some operand is selected, and it
      raises exactly when an operand raises before any truthy one. */
  lemma {:induction false} OrChainCases(chain: seq<Access<Option<real>>>)
    requires |chain| > 0
    ensures (OrChain(chain).Yields? && Truthy(OrChain(chain).value)) <==> exists k :: SelectedAt(chain, k)
    ensures OrChain(chain).Raises? <==> exists k :: RaisesAt(chain, k)
  {
    if |chain| == 1 || chain[0].Raises? || Truthy(chain[0].value) {
      if chain[0].Raises? {
        assert RaisesAt(chain, 0);
        assert forall k :: !SelectedAt(chain, k) by {
          forall k | 0 < k < |chain| ensures !FalsyBefore(chain, k) {
            assert chain[0].Raises?;
          }
        }
      } else if Truthy(chain[0].value) {
        assert SelectedAt(chain, 0);
        assert forall k :: !RaisesAt(chain, k) by {
          forall k | 0 < k < |chain| ensures !FalsyBefore(chain, k) {
            assert Truthy(chain[0].value);
          }
        }
      } else {
        assert forall k :: !SelectedAt(chain, k) && !RaisesAt(chain, k);
      }
    } else {
      var rest := chain[1..];
      OrChainCases(rest);
      forall k | 0 < k <= |chain|
        ensures FalsyBefore(chain, k) <==> FalsyBefore(rest, k - 1)
      {
        if FalsyBefore(rest, k - 1) {
          forall j | 0 <= j < k ensures chain[j].Yields? && !Truthy(chain[j].value) {
            if j > 0 { assert chain[j] == rest[j - 1]; }
          }
        }
      }
      assert forall k :: SelectedAt(chain, k) <==> SelectedAt(rest, k - 1);
      assert forall k :: RaisesAt(chain, k) <==> RaisesAt(rest, k - 1);
      if exists k :: SelectedAt(rest, k) {
        var k :| SelectedAt(rest, k);
        assert SelectedAt(chain, k + 1);
      }
      if exists k :: RaisesAt(rest, k) {
        var k :| RaisesAt(rest, k);
        assert RaisesAt(chain, k + 1);
      }
    }
  }

  /** `info.get('regularMarketPrice') or info.get('currentPrice') or ticker.fast_info['lastPrice']` */
  function PriceChain(info: Info, reply: Reply): seq<Access<Option<real>>>
  {
    [Yields(info.regularMarketPrice), Yields(info.currentPrice), reply.lastPrice]
  }

  /** `info.get('marketCap') or ticker.fast_info['marketCap']` */
  function CapChain(info: Info, reply: Reply): seq<Access<Option<real>>>
  {
    [Yields(info.marketCap), reply.fastMarketCap]
  }

  /** `fetch_stock_data(symbol)`: a record when both fallback chains give a
      truthy value, `None` when either does not or when any consulted access
      raises. */
  function FetchStockData(symbol: string, reply: Reply): (r: Option<Quote>)
    ensures r.Some? ==> r.value.price != 0.0 && r.value.mcB != 0.0 && '-' !in r.value.symbol
  {
    if reply.info.Raises? then None
    else
      var price := OrChain(PriceChain(reply.info.value, reply));
      if price.Raises? then None
      else
        var mc := OrChain(CapChain(reply.info.value, reply));
        if mc.Raises? then None
        else if Truthy(price.value) && Truthy(mc.value) then
          Some(Quote(DisplaySymbol(symbol), price.value.value, mc.value.value / Billion))
        else None
  }

  /** A record is produced exactly when `ticker.info` succeeds and each
      chain has a first truthy operand reached without an exception. */
  lemma FetchStockDataSomeIff(symbol: string, reply: Reply)
    ensures FetchStockData(symbol, reply).Some? <==>
      reply.info.Yields?
      && (exists i :: SelectedAt(PriceChain(reply.info.value, reply), i))
      && (exists j :: SelectedAt(CapChain(reply.info.value, reply), j))
  {
    if reply.info.Yields? {
      OrChainCases(PriceChain(reply.info.value, reply));
      OrChainCases(CapChain(reply.info.value, reply));
    }
  }

  /** The record holds the first truthy price, the display symbol and the
      first truthy market cap rescaled to billions. */
  lemma FetchStockDataRecord(symbol: string, reply: Reply, i: int, j: int)
    requires reply.info.Yields?
    requires SelectedAt(PriceChain(reply.info.value, reply), i)
    requires SelectedAt(CapChain(reply.info.value, reply), j)
    ensures FetchStockData(symbol, reply).Some?
    ensures var q := FetchStockData(symbol, reply).value;
      && q.symbol == DisplaySymbol(symbol)
      && q.price == PriceChain(reply.info.value, reply)[i].value.value
      && q.mcB * Billion == CapChain(reply.info.value, reply)[j].value.value
  {
    var pc, cc := PriceChain(reply.info.value, reply), CapChain(reply.info.value, reply);
    OrChainSelected(pc, pc, i);
    OrChainSelected(cc, cc, j);
  }

  /** When `info` carries a truthy price and a truthy market cap,
      `fast_info` is never consulted: whatever it would answer, even an
      exception, the record is the same. */
  lemma FetchStockDataIgnoresFastInfo(symbol: string, info: Info, lastPrice: Access<Option<real>>, fastMarketCap: Access<Option<real>>,
                                      lastPrice': Access<Option<real>>, fastMarketCap': Access<Option<real>>)
    requires Truthy(info.regularMarketPrice) || Truthy(info.currentPrice)
    requires Truthy(info.marketCap)
    ensures FetchStockData(symbol, Reply(Yields(info), lastPrice, fastMarketCap))
         == FetchStockData(symbol, Reply(Yields(info), lastPrice', fastMarketCap'))
    ensures FetchStockData(symbol, Reply(Yields(info), lastPrice, fastMarketCap)).Some?
  {
    var r, r' := Reply(Yields(info), lastPrice, fastMarketCap), Reply(Yields(info), lastPrice', fastMarketCap');
    var pc, pc' := PriceChain(info, r), PriceChain(info, r');
    var k := if Truthy(info.regularMarketPrice) then 0 else 1;
    assert SelectedAt(pc, k);
    assert pc'[..k + 1] == pc[..k + 1];
    OrChainSelected(pc, pc', k);
    var cc, cc' := CapChain(info, r), CapChain(info, r');
    assert SelectedAt(cc, 0);
    assert cc'[..1] == cc[..1];
    OrChainSelected(cc, cc', 0);
  }
}
