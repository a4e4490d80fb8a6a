/** The tracked-symbol list kept in the session state, and the sidebar's
    "Add Ticker" action. */
module Session {

  /** The list a new session starts with. */
  const InitialSymbols: seq<string> := ["AAPL", "TSLA", "NVDA", "BTC-USD"]

  function UpperChar(c: char): char
  {
    if 'a' <= c <= 'z' then (c as int - 32) as char else c
  }

  /** `str.upper()` on ASCII letters. */
  function Upper(s: string): (u: string)
    ensures |u| == |s|
  {
    seq(|s|, i requires 0 <= i < |s| => UpperChar(s[i]))
  }

  predicate IsUpper(s: string)
  {
    forall i :: 0 <= i < |s| ==> !('a' <= s[i] <= 'z')
  }

  /** Upper-casing keeps the length, so the emptiness test after `upper()`
      is the emptiness test of the raw entry; its result has no lower-case
      letter, and upper-casing it again changes nothing. */
  lemma UpperProperties(s: string)
    ensures |Upper(s)| == |s|
    ensures IsUpper(Upper(s))
    ensures Upper(Upper(s)) == Upper(s)
  {
  }

  predicate NoDuplicates(symbols: seq<string>)
  {
    forall i, j :: 0 <= i < j < |symbols| ==> symbols[i] != symbols[j]
  }

  /** The list after submitting `ticker`: appended only when it is
      non-empty and not already tracked. */
  function WithTicker(symbols: seq<string>, ticker: string): (r: seq<string>)
    ensures |symbols| <= |r| <= |symbols| + 1
    ensures r[..|symbols|] == symbols
    ensures r != symbols <==> ticker != "" && ticker !in symbols
    ensures r != symbols ==> r[|symbols|] == ticker
    ensures ticker != "" ==> ticker in r
    ensures NoDuplicates(symbols) ==> NoDuplicates(r)
  {
    if ticker != "" && ticker !in symbols then symbols + [ticker] else symbols
  }

  /** Submitting the same ticker twice is submitting it once. */
  lemma WithTickerIdempotent(symbols: seq<string>, ticker: string)
    ensures WithTicker(WithTicker(symbols, ticker), ticker) == WithTicker(symbols, ticker)
  {
  }

  /** `st.session_state.my_symbols` */
  class TrackedSymbols {
    var symbols: seq<string>

    /** Entries are distinct, non-empty and upper case. */
    ghost predicate Valid()
      reads this
    {
      && NoDuplicates(symbols)
      && forall i :: 0 <= i < |symbols| ==> symbols[i] != "" && IsUpper(symbols[i])
    }

    constructor ()
      ensures Valid()
      ensures symbols == InitialSymbols
    {
      symbols := InitialSymbols;
    }

    /** The sidebar text input holds `entry`; `clicked` is the button.
        The entry is upper-cased and appended when the button was clicked,
        the result is non-empty and it is not yet tracked. */
    method Submit(entry: string, clicked: bool) returns (added: bool)
      requires Valid()
      modifies this
      ensures Valid()
      ensures symbols == if clicked then WithTicker(old(symbols), Upper(entry)) else old(symbols)
      ensures added <==> |symbols| == |old(symbols)| + 1
    {
      var newSym := Upper(entry);
      UpperProperties(entry);
      added := false;
      if clicked && newSym != "" {
        if newSym !in symbols {
          symbols := symbols + [newSym];
          added := true;
        }
      }
    }
  }
}
