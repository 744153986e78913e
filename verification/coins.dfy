/**
 The list logic of assets/coin-manager.js: the user's coin symbols kept in
 browser storage under one key, with `loadCoins`, `addCoin` and
 `removeCoin`. Storage is the value `Stored`; rendering, status text and
 the 'coinsUpdated' event are not modelled.
 */
module CoinManager {
  import opened Wrappers

  const DefaultCoins: seq<string> := ["BTC", "ETH", "GALA", "XRP", "ADA", "DOGE", "SOL"]

  /**
   What the storage slot holds: nothing (`getItem` gives null or ''), a
   JSON array of symbols, or text that is not a JSON array (including text
   `JSON.parse` rejects).
   */
  datatype Stored = Empty | CoinArray(coins: seq<string>) | NotAnArray

  /**
   `saveCoins`: the list as it sits in storage. `JSON.stringify` followed by
   `JSON.parse` is taken to give back the same array of strings.
   */
  function SaveCoins(coins: seq<string>): (st: Stored)
    ensures st.CoinArray? && st.coins == coins
  {
    CoinArray(coins)
  }

  /** The list `loadCoins` returns, and the storage after the call. */
  datatype Loaded = Loaded(coins: seq<string>, store: Stored)

  /** The characters `String.prototype.trim` removes: white space and line terminators. */
  predicate IsWhitespace(c: char) {
    var n := c as int;
    // tab, line feed, vertical tab, form feed, carriage return; space; no-break space
    || (0x09 <= n <= 0x0D) || n == 0x20 || n == 0xA0
    // Ogham space mark, the en quad to hair space block, line and paragraph separators
    || n == 0x1680 || (0x2000 <= n <= 0x200A) || (0x2028 <= n <= 0x2029)
    // narrow no-break space, medium mathematical space, ideographic space, byte order mark
    || n == 0x202F || n == 0x205F || n == 0x3000 || n == 0xFEFF
  }

  predicate AllWhitespace(s: string) {
    forall i :: 0 <= i < |s| ==> IsWhitespace(s[i])
  }

  /** The number of white-space characters at the start of s. */
  function LeadingBlanks(s: string): (n: nat)
    ensures n <= |s|
    ensures forall i :: 0 <= i < n ==> IsWhitespace(s[i])
    ensures n < |s| ==> !IsWhitespace(s[n])
    decreases |s|
  {
    if |s| > 0 && IsWhitespace(s[0]) then 1 + LeadingBlanks(s[1..]) else 0
  }

  /** The number of white-space characters at the end of s. */
  function TrailingBlanks(s: string): (n: nat)
    ensures n <= |s|
    ensures forall i :: |s| - n <= i < |s| ==> IsWhitespace(s[i])
    ensures n < |s| ==> !IsWhitespace(s[|s| - n - 1])
    decreases |s|
  {
    if |s| > 0 && IsWhitespace(s[|s| - 1]) then 1 + TrailingBlanks(s[..|s| - 1]) else 0
  }

  /**
   `s.trim()`: the slice of s that starts right after its leading white
   space and is followed by white space only. It is empty exactly when s
   is all white space; otherwise it starts and ends with other characters.
   */
  function Trim(s: string): (r: string)
    ensures LeadingBlanks(s) + |r| <= |s|
    ensures r == s[LeadingBlanks(s)..LeadingBlanks(s) + |r|]
    ensures AllWhitespace(s[LeadingBlanks(s) + |r|..])
    ensures r == "" <==> AllWhitespace(s)
    ensures |r| > 0 ==> !IsWhitespace(r[0]) && !IsWhitespace(r[|r| - 1])
  {
    var a := LeadingBlanks(s);
    if a == |s| then ""
    else
      var t := TrailingBlanks(s);
      assert !IsWhitespace(s[a]);
      assert a + t < |s|;
      assert !IsWhitespace(s[|s| - t - 1]);
      assert !AllWhitespace(s);
      var r := s[a..|s| - t];
      var tail := s[a + |r|..];
      assert AllWhitespace(tail) by {
        forall i | 0 <= i < |tail|
          ensures IsWhitespace(tail[i])
        {
          assert tail[i] == s[a + |r| + i];
        }
      }
      r
  }

  /** A string that neither starts nor ends with white space is its own trim. */
  lemma TrimOfTrimmed(s: string)
    requires |s| > 0 ==> !IsWhitespace(s[0]) && !IsWhitespace(s[|s| - 1])
    ensures Trim(s) == s
  {
  }

  lemma TrimIdempotent(s: string)
    ensures Trim(Trim(s)) == Trim(s)
  {
    TrimOfTrimmed(Trim(s));
  }

  /** ASCII upper-casing of one character. */
  function UpperChar(c: char): (u: char)
    ensures IsWhitespace(u) == IsWhitespace(c)
    ensures !('a' <= u <= 'z')
    ensures 'a' <= c <= 'z' ==> 'A' <= u <= 'Z' && u as int - 'A' as int == c as int - 'a' as int
    ensures !('a' <= c <= 'z') ==> u == c
  {
    if 'a' <= c <= 'z' then (c as int - 32) as char else c
  }

  /** `s.toUpperCase()` restricted to ASCII letters. */
  function ToUpper(s: string): (r: string)
    ensures |r| == |s|
    ensures forall i :: 0 <= i < |s| ==> r[i] == UpperChar(s[i])
  {
    seq(|s|, i requires 0 <= i < |s| => UpperChar(s[i]))
  }

  /** `symbol.trim().toUpperCase()`, the form in which a symbol is stored. */
  function Normalize(symbol: string): string {
    ToUpper(Trim(symbol))
  }

  /** Upper-casing keeps white space white space and other characters other, so normalizing twice is normalizing once. */
  lemma NormalizeIdempotent(symbol: string)
    ensures Normalize(Normalize(symbol)) == Normalize(symbol)
  {
    var n := Normalize(symbol);
    TrimOfTrimmed(n);
    UpperOfUpper(Trim(symbol));
  }

  /** Symbols made of upper-case ASCII letters are already normalized. */
  lemma NormalizeOfUpperLetters(s: string)
    requires forall i :: 0 <= i < |s| ==> 'A' <= s[i] <= 'Z'
    ensures Normalize(s) == s
  {
    TrimOfTrimmed(s);
    var u := ToUpper(s);
    forall i | 0 <= i < |s|
      ensures u[i] == s[i]
    {
      assert UpperChar(s[i]) == s[i];
    }
  }

  lemma UpperOfUpper(s: string)
    ensures ToUpper(ToUpper(s)) == ToUpper(s)
  {
    var u := ToUpper(s);
    var uu := ToUpper(u);
    forall i | 0 <= i < |s|
      ensures uu[i] == u[i]
    {
      assert !('a' <= u[i] <= 'z');
    }
  }

  predicate Distinct(s: seq<string>) {
    forall i, j :: 0 <= i < j < |s| ==> s[i] != s[j]
  }

  /** `!symbol || symbol.trim() === ''`. */
  predicate Blank(symbol: Option<string>) {
    symbol.None? || Trim(symbol.value) == ""
  }

  /**
   `loadCoins`: a stored array is returned as it is; anything else yields
   the defaults. Only an empty slot is written to, and then with the very
   list returned.
   */
  function LoadCoins(st: Stored): (l: Loaded)
    ensures st.CoinArray? ==> l.coins == st.coins
    ensures !st.CoinArray? ==> l.coins == DefaultCoins
    ensures l.store == st <==> !st.Empty?
    ensures st.Empty? ==> l.store == SaveCoins(l.coins)
  {
    match st
    case Empty => Loaded(DefaultCoins, SaveCoins(DefaultCoins))
    case CoinArray(coins) => Loaded(coins, st)
    case NotAnArray => Loaded(DefaultCoins, st)
  }

  /** The list a page would show: what the next `loadCoins` returns. */
  function Coins(st: Stored): seq<string> {
    LoadCoins(st).coins
  }

  /** Loading twice is loading once: the second call returns the same list and writes nothing. */
  lemma LoadCoinsIdempotent(st: Stored)
    ensures LoadCoins(LoadCoins(st).store) == LoadCoins(st)
  {
  }

  /** `saveCoins` followed by `loadCoins` returns the saved list. */
  lemma SaveThenLoad(coins: seq<string>)
    ensures LoadCoins(SaveCoins(coins)) == Loaded(coins, SaveCoins(coins))
  {
  }

  /**
   `addCoin`: a blank symbol changes nothing (the list is not even loaded).
   Otherwise the normalized symbol is in the list afterwards; it is appended
   at the end when new, and the list is left as loaded when already present.
   */
  function AddCoin(st: Stored, symbol: Option<string>): (r: Stored)
    ensures Blank(symbol) ==> r == st
    ensures !Blank(symbol) ==> Normalize(symbol.value) in Coins(r)
    ensures !Blank(symbol) && Normalize(symbol.value) in Coins(st) ==> Coins(r) == Coins(st)
    ensures !Blank(symbol) && Normalize(symbol.value) !in Coins(st) ==> Coins(r) == Coins(st) + [Normalize(symbol.value)]
  {
    if Blank(symbol) then st
    else
      var loaded := LoadCoins(st);
      var s := Normalize(symbol.value);
      if s in loaded.coins then loaded.store
      else SaveCoins(loaded.coins + [s])
  }

  /** Adding grows the list by at most one and never disturbs the existing entries. */
  lemma AddCoinAppends(st: Stored, symbol: Option<string>)
    ensures |Coins(AddCoin(st, symbol))| <= |Coins(st)| + 1
    ensures Coins(AddCoin(st, symbol))[..|Coins(st)|] == Coins(st)
  {
    if !Blank(symbol) && Normalize(symbol.value) !in Coins(st) {
      assert (Coins(st) + [Normalize(symbol.value)])[..|Coins(st)|] == Coins(st);
    }
  }

  /** A duplicate-free list stays duplicate-free. */
  lemma AddCoinKeepsDistinct(st: Stored, symbol: Option<string>)
    requires Distinct(Coins(st))
    ensures Distinct(Coins(AddCoin(st, symbol)))
  {
  }

  /** Adding the same symbol again changes nothing. */
  lemma AddCoinIdempotent(st: Stored, symbol: Option<string>)
    ensures AddCoin(AddCoin(st, symbol), symbol) == AddCoin(st, symbol)
  {
  }

  /**
   `removeCoin`: an index outside the list changes the list in no way;
   an index inside deletes exactly that entry, keeping the order of the
   others.
   */
  function RemoveCoin(st: Stored, idx: int): (r: Stored)
    ensures (idx < 0 || idx >= |Coins(st)|) ==> Coins(r) == Coins(st) && r == LoadCoins(st).store
    ensures 0 <= idx < |Coins(st)| ==>
              && |Coins(r)| == |Coins(st)| - 1
              && (forall j :: 0 <= j < idx ==> Coins(r)[j] == Coins(st)[j])
              && (forall j :: idx <= j < |Coins(r)| ==> Coins(r)[j] == Coins(st)[j + 1])
  {
    var loaded := LoadCoins(st);
    if idx < 0 || idx >= |loaded.coins| then loaded.store
    else SaveCoins(loaded.coins[..idx] + loaded.coins[idx + 1..])
  }

  /** Removal takes out one occurrence of the entry at idx and nothing else. */
  lemma RemoveCoinIsDeletion(st: Stored, idx: int)
    requires 0 <= idx < |Coins(st)|
    ensures multiset(Coins(RemoveCoin(st, idx))) + multiset{Coins(st)[idx]} == multiset(Coins(st))
  {
    var c := Coins(st);
    assert c == c[..idx] + [c[idx]] + c[idx + 1..];
  }

  /** In a duplicate-free list, the removed symbol is gone afterwards. */
  lemma RemoveCoinRemovesSymbol(st: Stored, idx: int)
    requires Distinct(Coins(st))
    requires 0 <= idx < |Coins(st)|
    ensures Coins(st)[idx] !in Coins(RemoveCoin(st, idx))
    ensures Distinct(Coins(RemoveCoin(st, idx)))
  {
  }

  /** Removing the entry just appended restores the list. */
  lemma RemoveUndoesAdd(st: Stored, symbol: Option<string>)
    requires !Blank(symbol)
    requires Normalize(symbol.value) !in Coins(st)
    ensures Coins(RemoveCoin(AddCoin(st, symbol), |Coins(st)|)) == Coins(st)
  {
    var c := Coins(st);
    var added := AddCoin(st, symbol);
    assert Coins(added) == c + [Normalize(symbol.value)];
    assert Coins(RemoveCoin(added, |c|)) == (c + [Normalize(symbol.value)])[..|c|];
  }

  /** The defaults are duplicate-free and already in stored form. */
  lemma DefaultsAreCanonical()
    ensures Distinct(DefaultCoins)
    ensures forall i :: 0 <= i < |DefaultCoins| ==> Normalize(DefaultCoins[i]) == DefaultCoins[i]
  {
    var d := DefaultCoins;
    assert d[0][0] == 'B' && d[1][0] == 'E' && d[2][0] == 'G' && d[3][0] == 'X';
    assert d[4][0] == 'A' && d[5][0] == 'D' && d[6][0] == 'S';
    forall i, j | 0 <= i < j < |d|
      ensures d[i] != d[j]
    {
      assert d[i][0] != d[j][0];
    }
    forall i | 0 <= i < |DefaultCoins|
      ensures Normalize(DefaultCoins[i]) == DefaultCoins[i]
    {
      NormalizeOfUpperLetters(DefaultCoins[i]);
    }
  }
}
