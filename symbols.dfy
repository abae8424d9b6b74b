/**
 * `extractSymbol`: the alias table searched in insertion order against the
 * lower-cased input, then the `XXXUSDT` pattern as a fallback.
 */
module Symbols {
  import opened Wrappers
  import opened JsString
  import opened UsdtPattern

  /** `cryptoMap`, in the order `Object.entries` yields its string keys
      (insertion order, section 10.1.11.1 of ECMA-262). */
  const CryptoMap: seq<(string, string)> := [
    ("bitcoin", "BTCUSDT"),
    ("btc", "BTCUSDT"),
    ("ethereum", "ETHUSDT"),
    ("eth", "ETHUSDT"),
    ("bnb", "BNBUSDT"),
    ("binance coin", "BNBUSDT"),
    ("cardano", "ADAUSDT"),
    ("ada", "ADAUSDT"),
    ("solana", "SOLUSDT"),
    ("sol", "SOLUSDT"),
    ("xrp", "XRPUSDT"),
    ("ripple", "XRPUSDT"),
    ("dogecoin", "DOGEUSDT"),
    ("doge", "DOGEUSDT")
  ]

  /** No alias of `table` before index `n` occurs in `text`. */
  predicate NoAliasBefore(table: seq<(string, string)>, text: string, n: nat)
    requires n <= |table|
  {
    forall j {:trigger Includes(text, table[j].0)} :: 0 <= j < n ==> !Includes(text, table[j].0)
  }

  /** The index of the first entry at or after `from` whose alias occurs in `text`. */
  function AliasSearch(table: seq<(string, string)>, text: string, from: nat): (r: Option<nat>)
    requires from <= |table|
    ensures r.Some? ==> from <= r.value < |table|
    decreases |table| - from
  {
    if from == |table| then None
    else if Includes(text, table[from].0) then Some(from)
    else AliasSearch(table, text, from + 1)
  }

  /** The entry found is the first one at or after `from` whose alias occurs; none is found only when none occurs. */
  lemma {:induction false} AliasSearchFirst(table: seq<(string, string)>, text: string, from: nat)
    requires from <= |table|
    ensures AliasSearch(table, text, from).Some? ==>
              var i := AliasSearch(table, text, from).value;
              from <= i < |table| && Includes(text, table[i].0) &&
              forall j :: from <= j < i ==> !Includes(text, table[j].0)
    ensures AliasSearch(table, text, from).None? ==>
              forall j :: from <= j < |table| ==> !Includes(text, table[j].0)
    decreases |table| - from
  {
    if from < |table| && !Includes(text, table[from].0) {
      AliasSearchFirst(table, text, from + 1);
    }
  }

  /** What `extractSymbol(input)` returns. */
  function SymbolOf(input: string): Option<string>
  {
    match AliasSearch(CryptoMap, Lower(input), 0)
    case Some(i) => Some(CryptoMap[i].1)
    case None =>
      match Capture(input)
      case Some(m) => Some(Upper(m))
      case None => None
  }

  /** The `for…of` loop of `extractSymbol` over the entries of `table`, with its early return. */
  method FindAlias(table: seq<(string, string)>, lowerInput: string) returns (r: Option<string>)
    ensures r == (match AliasSearch(table, lowerInput, 0) case Some(i) => Some(table[i].1) case None => None)
    ensures r.None? <==> NoAliasBefore(table, lowerInput, |table|)
  {
    var i := 0;
    while i < |table|
      invariant i <= |table|
      invariant NoAliasBefore(table, lowerInput, i)
      invariant AliasSearch(table, lowerInput, i) == AliasSearch(table, lowerInput, 0)
    {
      var (key, symbol) := table[i];
      if Includes(lowerInput, key) {
        assert !NoAliasBefore(table, lowerInput, |table|);
        return Some(symbol);
      }
      i := i + 1;
    }
    return None;
  }

  /** `extractSymbol`: the alias table first, then the pattern. */
  method ExtractSymbol(input: string) returns (r: Option<string>)
    ensures r == SymbolOf(input)
  {
    var lowerInput := Lower(input);
    r := FindAlias(CryptoMap, lowerInput);
    if r.Some? {
      AliasTicker(CryptoMap, input, AliasSearch(CryptoMap, lowerInput, 0).value);
      return;
    }
    NoAliasSymbol(CryptoMap, input);
    var symbolMatch := Capture(input);
    if symbolMatch.Some? {
      return Some(Upper(symbolMatch.value));
    }
    return None;
  }

  /** A ticker as the exchange names it: 3 to 10 upper-case letters, then `USDT`. */
  predicate WellFormedTicker(t: string)
  {
    7 <= |t| <= 14 && AllUpperLetters(t) && t[|t| - 4..] == "USDT"
  }

  /** Every ticker of the table is well formed. */
  lemma TableTickerWellFormed(i: nat)
    requires i < |CryptoMap|
    ensures WellFormedTicker(CryptoMap[i].1)
    ensures |CryptoMap[i].1| == 7 || |CryptoMap[i].1| == 8
  {
    var t := CryptoMap[i].1;
    TableTickers();
    if i < 2 {
      TickerShape(t, "BTC");
    } else if i < 4 {
      TickerShape(t, "ETH");
    } else if i < 6 {
      TickerShape(t, "BNB");
    } else if i < 8 {
      TickerShape(t, "ADA");
    } else if i < 10 {
      TickerShape(t, "SOL");
    } else if i < 12 {
      TickerShape(t, "XRP");
    } else {
      TickerShape(t, "DOGE");
    }
  }

  /** 3 to 10 upper-case letters followed by `USDT` make a well-formed ticker. */
  lemma TickerShape(t: string, base: string)
    requires t == base + "USDT"
    requires MinLetters <= |base| <= MaxLetters && AllUpperLetters(base)
    ensures WellFormedTicker(t)
  {
    assert t[|t| - 4..] == "USDT";
    forall j | 0 <= j < |t|
      ensures IsUpperAscii(t[j])
    {
      if j < |base| {
        assert t[j] == base[j];
      } else {
        assert t[j] == "USDT"[j - |base|];
      }
    }
  }

  /** If an alias occurs, the first one in table order decides, and the pattern is not consulted. */
  lemma FirstAliasWins(input: string, i: nat)
    requires i < |CryptoMap|
    requires Includes(Lower(input), CryptoMap[i].0)
    requires NoAliasBefore(CryptoMap, Lower(input), i)
    ensures SymbolOf(input) == Some(CryptoMap[i].1)
  {
    AliasSearchAt(CryptoMap, Lower(input), i);
  }

  /** The search stops at the first entry whose alias occurs. */
  lemma AliasSearchAt(table: seq<(string, string)>, text: string, i: nat)
    requires i < |table|
    requires Includes(text, table[i].0)
    requires NoAliasBefore(table, text, i)
    ensures AliasSearch(table, text, 0) == Some(i)
  {
    AliasSearchFirst(table, text, 0);
    var r := AliasSearch(table, text, 0);
    if r.None? {
      assert false;
    } else if r.value < i {
      assert false;
    } else if i < r.value {
      assert false;
    }
  }

  /** If no alias occurs, the result is the upper-cased leftmost-longest match of the pattern. */
  lemma PatternFallback(input: string, p: nat, k: nat)
    requires NoAliasBefore(CryptoMap, Lower(input), |CryptoMap|)
    requires MatchAt(input, p, k)
    requires forall q: nat, k': nat :: q < p ==> !MatchAt(input, q, k')
    requires forall k': nat :: k < k' ==> !MatchAt(input, p, k')
    ensures SymbolOf(input) == Some(Upper(input[p..p + k + 4]))
  {
    AliasSearchNoneIff(CryptoMap, Lower(input));
    NoAliasSymbol(CryptoMap, input);
    ExecIsLeftmostLongest(input, p, k);
  }

  /** `extractSymbol` gives `null` exactly when no alias occurs and the pattern has no match. */
  lemma SymbolNoneIff(input: string)
    ensures SymbolOf(input).None? <==>
              NoAliasBefore(CryptoMap, Lower(input), |CryptoMap|) &&
              forall p: nat, k: nat :: !MatchAt(input, p, k)
  {
    AliasSearchNoneIff(CryptoMap, Lower(input));
    ExecNoneIff(input);
  }

  /** The search finds nothing exactly when no alias of the table occurs. */
  lemma AliasSearchNoneIff(table: seq<(string, string)>, text: string)
    ensures AliasSearch(table, text, 0).None? <==> NoAliasBefore(table, text, |table|)
  {
    AliasSearchFirst(table, text, 0);
    if NoAliasBefore(table, text, |table|) {
      AliasSearchNone(table, text, 0);
    }
  }

  /** Every non-null result is 3 to 10 upper-case letters followed by `USDT`. */
  lemma SymbolWellFormed(input: string)
    requires SymbolOf(input).Some?
    ensures WellFormedTicker(SymbolOf(input).value)
  {
    match AliasSearch(CryptoMap, Lower(input), 0)
    case Some(i) =>
      TableTickerWellFormed(i);
      AliasTicker(CryptoMap, input, i);
    case None =>
      PatternTicker(CryptoMap, input);
      var (p, k) := Exec(input).value;
      PatternResultWellFormed(input, p, k, SymbolOf(input).value);
  }

  lemma PatternTicker(table: seq<(string, string)>, input: string)
    requires table == CryptoMap && AliasSearch(table, Lower(input), 0).None?
    ensures SymbolOf(input).Some? <==> Exec(input).Some?
    ensures Exec(input).Some? ==>
              var (p, k) := Exec(input).value;
              MatchAt(input, p, k) && SymbolOf(input) == Some(Upper(input[p..p + k + 4]))
  {
  }

  lemma NoAliasSymbol(table: seq<(string, string)>, input: string)
    requires table == CryptoMap && AliasSearch(table, Lower(input), 0).None?
    ensures SymbolOf(input) == if Capture(input).Some? then Some(Upper(Capture(input).value)) else None
  {
  }

  lemma AliasTicker(table: seq<(string, string)>, input: string, i: nat)
    requires table == CryptoMap && AliasSearch(table, Lower(input), 0) == Some(i)
    ensures SymbolOf(input) == Some(table[i].1)
  {
  }

  lemma PatternResultWellFormed(input: string, p: nat, k: nat, t: string)
    requires MatchAt(input, p, k) && t == Upper(input[p..p + k + 4])
    ensures WellFormedTicker(t)
  {
    var m := input[p..p + k + 4];
    assert Lower(m[k..]) == "usdt";
    assert t[k..] == Upper(m[k..]);
    CaseRoundTrips(m[k..]);
    assert Upper(m[k..]) == Upper("usdt");
    assert forall i :: 0 <= i < k ==> IsAsciiLetter(m[i]);
  }

  /** When no alias of `table` from `from` on occurs, the search finds none. */
  lemma {:induction false} AliasSearchNone(table: seq<(string, string)>, text: string, from: nat)
    requires from <= |table|
    requires forall j :: from <= j < |table| ==> !Includes(text, table[j].0)
    ensures AliasSearch(table, text, from) == None
    decreases |table| - from
  {
    if from < |table| {
      AliasSearchNone(table, text, from + 1);
    }
  }

  /** An alias that occurs in a piece of `text` occurs in `text`. */
  lemma NoAliasInPiece(table: seq<(string, string)>, text: string, p: nat, q: nat)
    requires p <= q <= |text|
    requires NoAliasBefore(table, text, |table|)
    ensures NoAliasBefore(table, text[p..q], |table|)
  {
    forall j | 0 <= j < |table|
      ensures !Includes(text[p..q], table[j].0)
    {
      if Includes(text[p..q], table[j].0) {
        IncludesInSlice(text, p, q, table[j].0);
        assert false;
      }
    }
  }

  /** The letters of a pattern match, lower-cased, sit inside the lower-cased input. */
  lemma MatchLowerIsSlice(input: string, p: nat, k: nat)
    requires MatchAt(input, p, k)
    ensures Lower(Upper(input[p..p + k + 4])) == Lower(input)[p..p + k + 4]
  {
    CaseRoundTrips(input[p..p + k + 4]);
    LowerSlice(input, p, p + k + 4);
  }

  /** Feeding a pattern result back in: no alias occurs in it, and it matches itself whole. */
  lemma PatternResultFixed(input: string, p: nat, k: nat, t: string)
    requires NoAliasBefore(CryptoMap, Lower(input), |CryptoMap|)
    requires MatchAt(input, p, k) && t == Upper(input[p..p + k + 4])
    ensures SymbolOf(t) == Some(t)
  {
    MatchLowerIsSlice(input, p, k);
    NoAliasInPiece(CryptoMap, Lower(input), p, p + k + 4);
    AliasSearchNone(CryptoMap, Lower(t), 0);
    PatternMatchesWhole(input, p, k, t);
    UpperOfUpper(t);
    assert SymbolOf(t) == Some(Upper(t));
  }

  /** A pattern result, fed back to the pattern, is matched whole. */
  lemma PatternMatchesWhole(input: string, p: nat, k: nat, t: string)
    requires MatchAt(input, p, k) && t == Upper(input[p..p + k + 4])
    ensures Capture(t) == Some(t)
    ensures AllUpperLetters(t)
  {
    PatternResultWellFormed(input, p, k, t);
    assert t[k..k + 4] == "USDT";
    assert LettersFrom(t, 0, k);
    assert MatchAt(t, 0, k);
    ExecIsLeftmostLongest(t, 0, k);
    assert t[0..k + 4] == t;
  }

  /** The aliases of the table, entry by entry. */
  lemma TableAliases()
    ensures |CryptoMap| == 14
    ensures CryptoMap[0].0 == "bitcoin" && CryptoMap[1].0 == "btc" && CryptoMap[2].0 == "ethereum"
    ensures CryptoMap[3].0 == "eth" && CryptoMap[4].0 == "bnb" && CryptoMap[5].0 == "binance coin"
    ensures CryptoMap[6].0 == "cardano" && CryptoMap[7].0 == "ada" && CryptoMap[8].0 == "solana"
    ensures CryptoMap[9].0 == "sol" && CryptoMap[10].0 == "xrp" && CryptoMap[11].0 == "ripple"
    ensures CryptoMap[12].0 == "dogecoin" && CryptoMap[13].0 == "doge"
  {
  }

  /** An alias holding a character that `text` lacks is passed over. */
  lemma SkipAlias(text: string, j: nat, c: char)
    requires j < |CryptoMap|
    requires c in CryptoMap[j].0 && c !in text
    ensures AliasSearch(CryptoMap, text, j) == AliasSearch(CryptoMap, text, j + 1)
  {
    MissingChar(text, CryptoMap[j].0, c);
  }

  /** A ticker whose lower-case form the search sends to its own entry resolves to itself. */
  lemma TickerResolves(ticker: string, lower: string, i: nat)
    requires i < |CryptoMap| && CryptoMap[i].1 == ticker
    requires Lower(ticker) == lower
    requires AliasSearch(CryptoMap, lower, 0) == Some(i)
    ensures SymbolOf(ticker) == Some(ticker)
  {
  }

  lemma BtcSearch(l: string)
    requires 'i' !in l && Includes(l, "btc")
    ensures AliasSearch(CryptoMap, l, 0) == Some(1)
  {
    TableAliases();
    SkipAlias(l, 0, 'i');
  }

  lemma EthSearch(l: string)
    requires 'b' !in l && 'r' !in l && Includes(l, "eth")
    ensures AliasSearch(CryptoMap, l, 0) == Some(3)
  {
    TableAliases();
    SkipAlias(l, 0, 'b');
    SkipAlias(l, 1, 'b');
    SkipAlias(l, 2, 'r');
  }

  lemma BnbSearch(l: string)
    requires 'i' !in l && 'c' !in l && 'e' !in l && Includes(l, "bnb")
    ensures AliasSearch(CryptoMap, l, 0) == Some(4)
  {
    TableAliases();
    SkipAlias(l, 0, 'i');
    SkipAlias(l, 1, 'c');
    SkipAlias(l, 2, 'e');
    SkipAlias(l, 3, 'e');
  }

  /** Passing over "bitcoin", "btc", "ethereum" and "eth". */
  lemma SkipBitcoinToEth(l: string)
    requires 'b' !in l && 'h' !in l
    ensures AliasSearch(CryptoMap, l, 0) == AliasSearch(CryptoMap, l, 4)
  {
    TableAliases();
    SkipAlias(l, 0, 'b');
    SkipAlias(l, 1, 'b');
    SkipAlias(l, 2, 'h');
    SkipAlias(l, 3, 'h');
  }

  /** Passing over "bnb", "binance coin" and "cardano". */
  lemma SkipBnbToCardano(l: string)
    requires 'b' !in l && 'c' !in l
    ensures AliasSearch(CryptoMap, l, 4) == AliasSearch(CryptoMap, l, 7)
  {
    TableAliases();
    SkipAlias(l, 4, 'b');
    SkipAlias(l, 5, 'b');
    SkipAlias(l, 6, 'c');
  }

  lemma AdaSearch(l: string)
    requires 'b' !in l && 'h' !in l && 'c' !in l && Includes(l, "ada")
    ensures AliasSearch(CryptoMap, l, 0) == Some(7)
  {
    SkipBitcoinToEth(l);
    SkipBnbToCardano(l);
    TableAliases();
  }

  lemma SolSearch(l: string)
    requires 'b' !in l && 'h' !in l && 'c' !in l && 'a' !in l && Includes(l, "sol")
    ensures AliasSearch(CryptoMap, l, 0) == Some(9)
  {
    SkipBitcoinToEth(l);
    SkipBnbToCardano(l);
    TableAliases();
    SkipAlias(l, 7, 'a');
    SkipAlias(l, 8, 'a');
  }

  lemma XrpSearch(l: string)
    requires 'b' !in l && 'h' !in l && 'c' !in l && 'a' !in l && 'o' !in l && Includes(l, "xrp")
    ensures AliasSearch(CryptoMap, l, 0) == Some(10)
  {
    SkipBitcoinToEth(l);
    SkipBnbToCardano(l);
    TableAliases();
    SkipAlias(l, 7, 'a');
    SkipAlias(l, 8, 'a');
    SkipAlias(l, 9, 'o');
  }

  /** Passing over "ada", "solana", "sol", "xrp", "ripple" and "dogecoin". */
  lemma SkipAdaToDogecoin(l: string)
    requires 'a' !in l && 'l' !in l && 'x' !in l && 'r' !in l && 'c' !in l
    ensures AliasSearch(CryptoMap, l, 7) == AliasSearch(CryptoMap, l, 13)
  {
    TableAliases();
    SkipAlias(l, 7, 'a');
    SkipAlias(l, 8, 'l');
    SkipAlias(l, 9, 'l');
    SkipAlias(l, 10, 'x');
    SkipAlias(l, 11, 'r');
    SkipAlias(l, 12, 'c');
  }

  lemma DogeSearch(l: string)
    requires 'b' !in l && 'h' !in l && 'c' !in l && 'a' !in l && 'l' !in l && 'x' !in l && 'r' !in l
    requires Includes(l, "doge")
    ensures AliasSearch(CryptoMap, l, 0) == Some(13)
  {
    SkipBitcoinToEth(l);
    SkipBnbToCardano(l);
    SkipAdaToDogecoin(l);
    TableAliases();
  }

  /** A word at the front of a text occurs in it. */
  lemma IncludesPrefix(text: string, word: string)
    requires |word| <= |text| && text[..|word|] == word
    ensures Includes(text, word)
  {
    assert OccursAt(text, word, 0);
    IncludesIff(text, word);
  }

  lemma LowerLiteral(t: string, upper: string, lower: string)
    requires t == upper && |upper| == |lower|
    requires forall i :: 0 <= i < |upper| ==> ToLowerChar(upper[i]) == lower[i]
    ensures Lower(t) == lower
  {
  }

  /** The tickers of the table, entry by entry. */
  lemma TableTickers()
    ensures |CryptoMap| == 14
    ensures CryptoMap[0].1 == "BTCUSDT" && CryptoMap[1].1 == "BTCUSDT"
    ensures CryptoMap[2].1 == "ETHUSDT" && CryptoMap[3].1 == "ETHUSDT"
    ensures CryptoMap[4].1 == "BNBUSDT" && CryptoMap[5].1 == "BNBUSDT"
    ensures CryptoMap[6].1 == "ADAUSDT" && CryptoMap[7].1 == "ADAUSDT"
    ensures CryptoMap[8].1 == "SOLUSDT" && CryptoMap[9].1 == "SOLUSDT"
    ensures CryptoMap[10].1 == "XRPUSDT" && CryptoMap[11].1 == "XRPUSDT"
    ensures CryptoMap[12].1 == "DOGEUSDT" && CryptoMap[13].1 == "DOGEUSDT"
  {
  }

  /** Each ticker of the table resolves to itself. */
  lemma TableTickerFixed(i: nat)
    requires i < |CryptoMap|
    ensures SymbolOf(CryptoMap[i].1) == Some(CryptoMap[i].1)
  {
    var t := CryptoMap[i].1;
    TableTickers();
    if i < 2 {
      BtcFixed(t);
    } else if i < 4 {
      EthFixed(t);
    } else if i < 6 {
      BnbFixed(t);
    } else if i < 8 {
      AdaFixed(t);
    } else if i < 10 {
      SolFixed(t);
    } else if i < 12 {
      XrpFixed(t);
    } else {
      DogeFixed(t);
    }
  }

  lemma BtcFixed(t: string)
    requires t == "BTCUSDT"
    ensures SymbolOf(t) == Some(t)
  {
    LowerLiteral(t, "BTCUSDT", "btcusdt");
    BtcLetters(Lower(t));
    BtcSearch(Lower(t));
    TableTickers();
    TickerResolves(t, Lower(t), 1);
  }

  lemma BtcLetters(l: string)
    requires l == "btcusdt"
    ensures 'i' !in l
    ensures Includes(l, "btc")
  {
    IncludesPrefix(l, "btc");
  }

  lemma EthFixed(t: string)
    requires t == "ETHUSDT"
    ensures SymbolOf(t) == Some(t)
  {
    LowerLiteral(t, "ETHUSDT", "ethusdt");
    EthLetters(Lower(t));
    EthSearch(Lower(t));
    TableTickers();
    TickerResolves(t, Lower(t), 3);
  }

  lemma EthLetters(l: string)
    requires l == "ethusdt"
    ensures 'b' !in l && 'r' !in l
    ensures Includes(l, "eth")
  {
    IncludesPrefix(l, "eth");
  }

  lemma BnbFixed(t: string)
    requires t == "BNBUSDT"
    ensures SymbolOf(t) == Some(t)
  {
    LowerLiteral(t, "BNBUSDT", "bnbusdt");
    BnbLetters(Lower(t));
    BnbSearch(Lower(t));
    TableTickers();
    TickerResolves(t, Lower(t), 4);
  }

  lemma BnbLetters(l: string)
    requires l == "bnbusdt"
    ensures 'i' !in l && 'c' !in l && 'e' !in l
    ensures Includes(l, "bnb")
  {
    IncludesPrefix(l, "bnb");
  }

  lemma AdaFixed(t: string)
    requires t == "ADAUSDT"
    ensures SymbolOf(t) == Some(t)
  {
    LowerLiteral(t, "ADAUSDT", "adausdt");
    AdaLetters(Lower(t));
    AdaSearch(Lower(t));
    TableTickers();
    TickerResolves(t, Lower(t), 7);
  }

  lemma AdaLetters(l: string)
    requires l == "adausdt"
    ensures 'b' !in l && 'h' !in l && 'c' !in l
    ensures Includes(l, "ada")
  {
    IncludesPrefix(l, "ada");
  }

  lemma SolFixed(t: string)
    requires t == "SOLUSDT"
    ensures SymbolOf(t) == Some(t)
  {
    LowerLiteral(t, "SOLUSDT", "solusdt");
    SolLetters(Lower(t));
    SolSearch(Lower(t));
    TableTickers();
    TickerResolves(t, Lower(t), 9);
  }

  lemma SolLetters(l: string)
    requires l == "solusdt"
    ensures 'b' !in l && 'h' !in l && 'c' !in l && 'a' !in l
    ensures Includes(l, "sol")
  {
    IncludesPrefix(l, "sol");
  }

  lemma XrpFixed(t: string)
    requires t == "XRPUSDT"
    ensures SymbolOf(t) == Some(t)
  {
    LowerLiteral(t, "XRPUSDT", "xrpusdt");
    XrpLetters(Lower(t));
    XrpSearch(Lower(t));
    TableTickers();
    TickerResolves(t, Lower(t), 10);
  }

  lemma XrpLetters(l: string)
    requires l == "xrpusdt"
    ensures 'b' !in l && 'h' !in l && 'c' !in l && 'a' !in l && 'o' !in l
    ensures Includes(l, "xrp")
  {
    IncludesPrefix(l, "xrp");
  }

  lemma DogeFixed(t: string)
    requires t == "DOGEUSDT"
    ensures SymbolOf(t) == Some(t)
  {
    LowerLiteral(t, "DOGEUSDT", "dogeusdt");
    DogeLetters(Lower(t));
    DogeSearch(Lower(t));
    TableTickers();
    TickerResolves(t, Lower(t), 13);
  }

  lemma DogeLetters(l: string)
    requires l == "dogeusdt"
    ensures 'b' !in l && 'h' !in l && 'c' !in l && 'a' !in l && 'l' !in l && 'x' !in l && 'r' !in l
    ensures Includes(l, "doge")
  {
    IncludesPrefix(l, "doge");
  }

  /** Any non-null result is returned unchanged when fed back to `extractSymbol`. */
  lemma SymbolIdempotent(input: string)
    requires SymbolOf(input).Some?
    ensures SymbolOf(SymbolOf(input).value) == SymbolOf(input)
  {
    match AliasSearch(CryptoMap, Lower(input), 0)
    case Some(i) =>
      AliasTicker(CryptoMap, input, i);
      TableTickerFixed(i);
    case None =>
      AliasSearchNoneIff(CryptoMap, Lower(input));
      PatternTicker(CryptoMap, input);
      var (p, k) := Exec(input).value;
      PatternResultFixed(input, p, k, SymbolOf(input).value);
  }

  /** Changing the case of ASCII letters in the input does not change the result. */
  lemma SymbolCaseInsensitive(s: string, t: string)
    requires Lower(s) == Lower(t)
    ensures SymbolOf(s) == SymbolOf(t)
  {
    match AliasSearch(CryptoMap, Lower(s), 0)
    case Some(i) =>
      AliasTicker(CryptoMap, s, i);
      AliasTicker(CryptoMap, t, i);
    case None =>
      NoAliasSymbol(CryptoMap, s);
      NoAliasSymbol(CryptoMap, t);
      CaptureCaseInsensitive(s, t);
  }

  /** "btc and eth": two aliases occur, and the one earlier in the table decides. */
  lemma EarlierAliasExample(input: string)
    requires input == "btc and eth"
    ensures SymbolOf(input) == Some("BTCUSDT")
  {
    LowerLiteral(input, "btc and eth", "btc and eth");
    BtcAndEthLetters(Lower(input));
    BtcSearch(Lower(input));
    AliasTicker(CryptoMap, input, 1);
    TableTickers();
  }

  lemma BtcAndEthLetters(l: string)
    requires l == "btc and eth"
    ensures 'i' !in l
    ensures Includes(l, "btc")
  {
    IncludesPrefix(l, "btc");
  }

  /** "Ethereum volume": the entry "ethereum" is reached before "eth". */
  lemma LongerAliasExample(input: string)
    requires input == "Ethereum volume"
    ensures AliasSearch(CryptoMap, Lower(input), 0) == Some(2)
    ensures SymbolOf(input) == Some("ETHUSDT")
  {
    LowerLiteral(input, "Ethereum volume", "ethereum volume");
    var l := Lower(input);
    EthereumLetters(l);
    TableAliases();
    MissingChar(l, CryptoMap[0].0, 'b');
    MissingChar(l, CryptoMap[1].0, 'b');
    AliasSearchAt(CryptoMap, l, 2);
    AliasTicker(CryptoMap, input, 2);
    TableTickers();
  }

  lemma EthereumLetters(l: string)
    requires l == "ethereum volume"
    ensures 'b' !in l
    ensures Includes(l, "ethereum")
  {
    IncludesPrefix(l, "ethereum");
  }

  /** "PEPEUSDT": no alias occurs, and the pattern captures the whole input. */
  lemma PatternExample(input: string)
    requires input == "PEPEUSDT"
    ensures SymbolOf(input) == Some("PEPEUSDT")
  {
    LowerLiteral(input, "PEPEUSDT", "pepeusdt");
    PepeLetters(Lower(input));
    SkipWholeTable(Lower(input));
    NoAliasSymbol(CryptoMap, input);
    PepeCapture(input);
    PepeMatch(input);
    UpperOfUpper(input);
  }

  /** A text lacking these letters holds no alias of the table. */
  lemma SkipWholeTable(l: string)
    requires 'b' !in l && 'h' !in l && 'c' !in l && 'a' !in l
    requires 'l' !in l && 'x' !in l && 'r' !in l && 'g' !in l
    ensures AliasSearch(CryptoMap, l, 0).None?
  {
    SkipBitcoinToEth(l);
    SkipBnbToCardano(l);
    SkipAdaToDogecoin(l);
    TableAliases();
    SkipAlias(l, 13, 'g');
  }

  lemma PepeCapture(input: string)
    requires input == "PEPEUSDT"
    ensures Capture(input) == Some(input)
  {
    PepeMatch(input);
    ExecIsLeftmostLongest(input, 0, 4);
    assert input[0..8] == input;
  }

  lemma PepeLetters(l: string)
    requires l == "pepeusdt"
    ensures 'b' !in l && 'h' !in l && 'c' !in l && 'a' !in l
    ensures 'l' !in l && 'x' !in l && 'r' !in l && 'g' !in l
  {
  }

  lemma PepeMatch(input: string)
    requires input == "PEPEUSDT"
    ensures MatchAt(input, 0, 4)
    ensures forall k: nat :: 4 < k ==> !MatchAt(input, 0, k)
    ensures AllUpperLetters(input)
  {
    assert input[4..8] == "USDT";
    LowerLiteral(input[4..8], "USDT", "usdt");
  }
}
