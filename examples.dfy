/** The classifier on the tickers the fetcher asks for, and on a few tickers
    that show how the order of the rules plays out. */
module Examples {
  import opened Strings
  import opened Symbols

  /** The standard rule on a ticker with one '_', `first` before it. */
  lemma StandardFromPieces(symbol: String, first: String, tail: String)
    requires '_' !in first && '_' !in tail
    requires symbol == first + ['_'] + tail
    requires !Contains(first, "PERP") && Upper(first) == first
    ensures ParseSymbol(symbol) ==
      Parsed(first, ExchangeName(ExchangeCode(symbol)), MarginBySubstring(symbol))
  {
    SplitConcat(first, '_', tail);
    assert symbol[|first|] == '_';
    StandardResult(symbol, first);
    NotContainsExtension(first, "PERP", "PERPETUAL");
    ExchangeOfEveryRule(symbol);
  }

  /** Evidence, checked character by character, of the answer of the margin
      chain: a "USDT" can only start before index 3 when there is no 'T'
      from index 3 on, and likewise for "USDC" and 'C'. */
  predicate MarginWitness(text: String, margin: String)
  {
    3 <= |text| &&
    ((margin == "USDT" && Contains(text, "USDT")) ||
     (margin == "USDC" && 'T' !in text[3..] && OccursAt(text, "USDC", 3)) ||
     (margin == "BTC" && 'T' !in text[3..] && 'C' !in text[3..] && Contains(text, "USD")) ||
     (margin == "UNKNOWN" && 'U' !in text))
  }

  lemma MarginFromWitness(text: String, margin: String)
    requires MarginWitness(text, margin)
    ensures MarginBySubstring(text) == margin
  {
    if margin == "USDC" {
      ContainsAt(text, "USDC", 3);
      AbsentAtOffset(text, "USDT", 3);
    } else if margin == "BTC" {
      AbsentAtOffset(text, "USDT", 3);
      AbsentAtOffset(text, "USDC", 3);
    } else if margin == "UNKNOWN" {
      AbsentCharNotContained(text, "USD", 'U');
      MarginUnknownIff(text);
    }
  }

  /** With no 'U' after the first '_', every "USD" lies in the first piece. */
  lemma MarginOfFirstPiece(first: String, tail: String)
    requires 'U' !in tail
    ensures MarginBySubstring(first + ['_'] + tail) == MarginBySubstring(first)
  {
    ContainsBeforeSeparator(first, '_', tail, "USDT");
    ContainsBeforeSeparator(first, '_', tail, "USDC");
    ContainsBeforeSeparator(first, '_', tail, "USD");
  }

  /** A ticker "first_mid.code" with one '_', whose first piece is upper
      case and holds no "PERP" (the character of "PERP" at offset `k` does
      not occur in it from `k` on), goes to the standard rule and keeps
      `first` as its base, quote included. */
  lemma StandardTicker(symbol: String, first: String, mid: String, code: String,
                       name: String, margin: String, k: nat)
    requires '_' !in first && '_' !in mid && '_' !in code && '.' !in code
    requires symbol == first + ['_'] + mid + ['.'] + code
    requires k < 4 && k <= |first| && "PERP"[k] !in first[k..]
    requires forall i :: 0 <= i < |first| ==> !('a' <= first[i] <= 'z')
    requires ExchangeName(code) == name && MarginBySubstring(symbol) == margin
    ensures ParseSymbol(symbol) == Parsed(first, name, margin)
  {
    var tail := mid + ['.'] + code;
    var pre := first + ['_'] + mid;
    assert symbol == first + ['_'] + tail;
    assert symbol == pre + ['.'] + code;
    AbsentAtOffset(first, "PERP", k);
    UpperOfUpperCase(first);
    EndsWithCode(symbol, pre, code);
    StandardFromPieces(symbol, first, tail);
  }

  /** The same, with the margin read off the first piece alone. */
  lemma FirstPieceTicker(symbol: String, first: String, mid: String, code: String,
                         name: String, margin: String, k: nat)
    requires '_' !in first && '_' !in mid && '_' !in code && '.' !in code
    requires 'U' !in mid && 'U' !in code
    requires symbol == first + ['_'] + mid + ['.'] + code
    requires k < 4 && k <= |first| && "PERP"[k] !in first[k..]
    requires forall i :: 0 <= i < |first| ==> !('a' <= first[i] <= 'z')
    requires ExchangeName(code) == name && MarginWitness(first, margin)
    ensures ParseSymbol(symbol) == Parsed(first, name, margin)
  {
    assert symbol == first + ['_'] + (mid + ['.'] + code);
    MarginOfFirstPiece(first, mid + ['.'] + code);
    MarginFromWitness(first, margin);
    StandardTicker(symbol, first, mid, code, name, margin, k);
  }

  /** A WOO ticker "PERP_b_q.code" with upper-case `b` and quote `q`. */
  lemma WooTicker(symbol: String, b: String, q: String, code: String, name: String, sym: String)
    requires '_' !in b && '_' !in q && '.' !in q && '_' !in code && '.' !in code
    requires symbol == "PERP" + ['_'] + b + ['_'] + q + ['.'] + code
    requires forall j :: 0 <= j < |b| ==> !('a' <= b[j] <= 'z')
    requires forall j :: 0 <= j < |q| ==> !('a' <= q[j] <= 'z')
    requires ExchangeName(code) == name && sym == b + q
    ensures ParseSymbol(symbol) == Parsed(sym, name, q)
  {
    var rest := q + ['.'] + code;
    var pre := "PERP" + ['_'] + b + ['_'] + q;
    assert symbol == "PERP" + ['_'] + b + ['_'] + rest;
    assert symbol == pre + ['.'] + code;
    assert OccursAt(symbol, "PERP_", 0);
    ContainsAt(symbol, "PERP_", 0);
    assert q <= rest && rest[|q|] == '.';
    UpperOfUpperCase(b);
    UpperOfUpperCase(q);
    SplitThree("PERP", b, rest, '_');
    WooFromParts(symbol, "PERP", b, rest, q);
    EndsWithCode(symbol, pre, code);
    ExchangeOfEveryRule(symbol);
  }

  /** A Bybit ticker "baseQuote.….6" without '_'. */
  lemma BybitTicker(symbol: String, baseQuote: String, margin: String)
    requires '_' !in symbol
    requires |symbol| >= 2 && symbol[|symbol| - 2..] == ['.', '6']
    requires baseQuote <= symbol && '.' !in baseQuote
    requires |baseQuote| < |symbol| && symbol[|baseQuote|] == '.'
    requires MarginWitness(baseQuote, margin) && margin != "UNKNOWN"
    ensures ParseSymbol(symbol) == Parsed("BTCUSD", "bybit", margin)
  {
    MarginFromWitness(baseQuote, margin);
    MarginUnknownIff(baseQuote);
    BybitResult(symbol, baseQuote);
  }

  // The tickers the fetcher requests, in the order of its list; the last
  // one, the Hyperliquid literal "BTC.H", is Symbols.HyperliquidLiteral.

  lemma BinanceUsdt()
    ensures ParseSymbol("BTCUSDT_PERP.A") == Parsed("BTCUSDT", "binance", "USDT")
  {
    FirstPieceTicker("BTCUSDT_PERP.A", "BTCUSDT", "PERP", "A", "binance", "USDT", 1);
  }

  lemma BinanceUsdc()
    ensures ParseSymbol("BTCUSDC_PERP.A") == Parsed("BTCUSDC", "binance", "USDC")
  {
    FirstPieceTicker("BTCUSDC_PERP.A", "BTCUSDC", "PERP", "A", "binance", "USDC", 1);
  }

  lemma BitmexInverse()
    ensures ParseSymbol("BTCUSD_PERP.0") == Parsed("BTCUSD", "bitmex", "BTC")
  {
    FirstPieceTicker("BTCUSD_PERP.0", "BTCUSD", "PERP", "0", "bitmex", "BTC", 1);
  }

  lemma BitmexUsdt()
    ensures ParseSymbol("BTCUSDT_PERP.0") == Parsed("BTCUSDT", "bitmex", "USDT")
  {
    FirstPieceTicker("BTCUSDT_PERP.0", "BTCUSDT", "PERP", "0", "bitmex", "USDT", 1);
  }

  lemma BitfinexUsdt()
    ensures ParseSymbol("BTCUSDT_PERP.F") == Parsed("BTCUSDT", "bitfinex", "USDT")
  {
    FirstPieceTicker("BTCUSDT_PERP.F", "BTCUSDT", "PERP", "F", "bitfinex", "USDT", 1);
  }

  lemma BitfinexInverse()
    ensures ParseSymbol("BTCUSD_PERP.F") == Parsed("BTCUSD", "bitfinex", "BTC")
  {
    FirstPieceTicker("BTCUSD_PERP.F", "BTCUSD", "PERP", "F", "bitfinex", "BTC", 1);
  }

  lemma BybitUsdt()
    ensures ParseSymbol("BTCUSDT.6") == Parsed("BTCUSD", "bybit", "USDT")
  {
    BybitTicker("BTCUSDT.6", "BTCUSDT", "USDT");
  }

  lemma BybitInverse()
    ensures ParseSymbol("BTCUSD.6") == Parsed("BTCUSD", "bybit", "BTC")
  {
    BybitTicker("BTCUSD.6", "BTCUSD", "BTC");
  }

  lemma HuobiUsdt()
    ensures ParseSymbol("BTCUSDT_PERP.4") == Parsed("BTCUSDT", "huobi", "USDT")
  {
    FirstPieceTicker("BTCUSDT_PERP.4", "BTCUSDT", "PERP", "4", "huobi", "USDT", 1);
  }

  lemma HuobiInverse()
    ensures ParseSymbol("BTCUSD_PERP.4") == Parsed("BTCUSD", "huobi", "BTC")
  {
    FirstPieceTicker("BTCUSD_PERP.4", "BTCUSD", "PERP", "4", "huobi", "BTC", 1);
  }

  lemma OkxUsdt()
    ensures ParseSymbol("BTCUSDT_PERP.3") == Parsed("BTCUSDT", "okx", "USDT")
  {
    FirstPieceTicker("BTCUSDT_PERP.3", "BTCUSDT", "PERP", "3", "okx", "USDT", 1);
  }

  lemma OkxUsdc()
    ensures ParseSymbol("BTCUSDC_PERP.3") == Parsed("BTCUSDC", "okx", "USDC")
  {
    FirstPieceTicker("BTCUSDC_PERP.3", "BTCUSDC", "PERP", "3", "okx", "USDC", 1);
  }

  lemma OkxInverse()
    ensures ParseSymbol("BTCUSD_PERP.3") == Parsed("BTCUSD", "okx", "BTC")
  {
    FirstPieceTicker("BTCUSD_PERP.3", "BTCUSD", "PERP", "3", "okx", "BTC", 1);
  }

  lemma WooUsdt()
    ensures ParseSymbol("PERP_BTC_USDT.W") == Parsed("BTCUSDT", "woo", "USDT")
  {
    WooTicker("PERP_BTC_USDT.W", "BTC", "USDT", "W", "woo", "BTCUSDT");
  }

  lemma GateioUsdt()
    ensures ParseSymbol("BTC_USDT.Y") == Parsed("BTC", "gateio", "USDT")
  {
    StandardTicker("BTC_USDT.Y", "BTC", "USDT", "Y", "gateio", "USDT", 1);
  }

  // Tickers outside the list.

  /** An unknown code passes through, and no "USD" means "UNKNOWN". */
  lemma UnknownExchange()
    ensures ParseSymbol("XYZ_PERP.Z") == Parsed("XYZ", "Z", "UNKNOWN")
  {
    FirstPieceTicker("XYZ_PERP.Z", "XYZ", "PERP", "Z", "Z", "UNKNOWN", 0);
  }

  // How the order of the rules plays out.

  /** The Hyperliquid triple is not reserved to the literal: a WOO ticker
      with code "H" produces it too. */
  lemma HyperliquidTripleFromWoo()
    ensures ParseSymbol("PERP_BTC_USD.H") == Parsed("BTCUSD", "hyperliquid", "USD")
  {
    WooTicker("PERP_BTC_USD.H", "BTC", "USD", "H", "hyperliquid", "BTCUSD");
  }

  /** Holding "USDT" does not keep the WOO rule from reporting "BTC". */
  lemma WooUsdtTickerWithBtcMargin()
    ensures ParseSymbol("PERP_USDT_BTC.W") == Parsed("USDTBTC", "woo", "BTC")
  {
    WooTicker("PERP_USDT_BTC.W", "USDT", "BTC", "W", "woo", "USDTBTC");
  }

  /** Nor does it keep the Bybit rule, which looks only before the first '.'. */
  lemma BybitUsdtTickerWithBtcMargin()
    ensures ParseSymbol("BTCUSD.USDT.6") == Parsed("BTCUSD", "bybit", "BTC")
  {
    BybitTicker("BTCUSD.USDT.6", "BTCUSD", "BTC");
  }

  /** Replacing a string that is exactly the pattern. */
  lemma ReplaceWhole(pat: String, rep: String)
    requires pat != []
    ensures Replace(pat, pat, rep) == rep
  {
    assert pat[|pat|..] == [];
  }

  /** A ticker "PERP_b_c_d" holds "PERP_" but splits into four parts, so it
      is not WOO; the standard rule strips its first piece "PERP" to the
      empty base. */
  lemma FourPartPerpTicker(symbol: String, b: String, c: String, d: String)
    requires '_' !in b && '_' !in c && '_' !in d
    requires symbol == "PERP" + ['_'] + b + ['_'] + c + ['_'] + d
    ensures ParseSymbol(symbol) ==
      Parsed("", ExchangeName(ExchangeCode(symbol)), MarginBySubstring(symbol))
  {
    var tail := b + ['_'] + c + ['_'] + d;
    assert symbol == "PERP" + ['_'] + tail;
    assert OccursAt(symbol, "PERP_", 0);
    ContainsAt(symbol, "PERP_", 0);
    SplitThree(b, c, d, '_');
    SplitConcat("PERP", '_', tail);
    WooFallThrough(symbol);
    ReplaceWhole("PERP", "");
  }
}
