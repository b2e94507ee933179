/** The ticker classifier of the funding-history fetcher: the exchange-code
    table and `parse_symbol`, which turns an exchange ticker such as
    "BTCUSDT_PERP.A" into a (symbol, exchange, margin) triple by four rules
    tried in order, the first that applies winning. */
module Symbols {
  import opened Strings

  datatype Option<T> = None | Some(value: T)

  /** What `parse_symbol` returns: the normalised symbol, the exchange name
      and the margin currency. */
  datatype Parsed = Parsed(sym: String, exchange: String, margin: String)

  /** The table of supported exchanges, keyed by the code after the final '.'. */
  const ExchangeCodes: map<String, String> := map[
    "A" := "binance",
    "B" := "bitstamp",
    "C" := "coinbase",
    "D" := "bitforex",
    "E" := "mercadobitcoin",
    "F" := "bitfinex",
    "G" := "gemini",
    "H" := "hyperliquid",
    "I" := "bit2c",
    "J" := "luno",
    "K" := "kraken",
    "L" := "bitflyer",
    "M" := "btcmarkets",
    "N" := "independentreserve",
    "P" := "poloniex",
    "U" := "bithumb",
    "V" := "vertex",
    "W" := "woo",
    "Y" := "gateio",
    "0" := "bitmex",
    "2" := "deribit",
    "3" := "okx",
    "4" := "huobi",
    "6" := "bybit",
    "7" := "phemex",
    "8" := "dydx"
  ]

  /** `EXCHANGE_CODES.get(code, code)`: an unknown code passes through. */
  function ExchangeName(code: String): String
  {
    if code in ExchangeCodes then ExchangeCodes[code] else code
  }

  /** `symbol.split(".")[-1]`. */
  function ExchangeCode(symbol: String): String
  {
    var parts := Split(symbol, '.');
    parts[|parts| - 1]
  }

  /** `text.split(".")[0]`. */
  function BeforeDot(text: String): String
  {
    Split(text, '.')[0]
  }

  /** The margin chain shared by the Bybit and the standard rule: "USDT",
      else "USDC", else "BTC" for a bare "USD", else "UNKNOWN". */
  function MarginBySubstring(text: String): String
  {
    if Contains(text, "USDT") then "USDT"
    else if Contains(text, "USDC") then "USDC"
    else if Contains(text, "USD") then "BTC"
    else "UNKNOWN"
  }

  /** The WOO layout "PERP_BTC_USDT.W": it applies when the ticker holds
      "PERP_" and splits on '_' into exactly three parts. */
  function WooRule(symbol: String, exchange: String): Option<Parsed>
  {
    if Contains(symbol, "PERP_") && Contains(symbol, "_") then
      var parts := Split(symbol, '_');
      if |parts| == 3 then
        var base := Upper(parts[1]);
        var quote := Upper(BeforeDot(parts[2]));
        Some(Parsed(base + quote, exchange, quote))
      else None
    else None
  }

  /** The Bybit layout "BTCUSDT.6": code "6", a '.', no '_', and "USD" in the
      text before the first '.'. The symbol is then fixed to "BTCUSD", except
      on the arm where no margin matched, which keeps the text. */
  function BybitRule(symbol: String, code: String, exchange: String): Option<Parsed>
  {
    if code == "6" && Contains(symbol, ".") && !Contains(symbol, "_") then
      var baseQuote := BeforeDot(symbol);
      if Contains(baseQuote, "USD") then
        var margin := MarginBySubstring(baseQuote);
        Some(Parsed(if margin == "UNKNOWN" then baseQuote else "BTCUSD", exchange, margin))
      else None
    else None
  }

  /** The base of the standard rule: the first '_'-piece with "PERP", then
      "PERPETUAL" removed, then upper-cased. */
  function StandardBase(symbol: String): String
  {
    Upper(Replace(Replace(Split(symbol, '_')[0], "PERP", ""), "PERPETUAL", ""))
  }

  /** The standard rule, tried last; it always applies. */
  function StandardRule(symbol: String, exchange: String): Parsed
  {
    Parsed(StandardBase(symbol), exchange, MarginBySubstring(symbol))
  }

  /** `parse_symbol`: the Hyperliquid literal, then WOO, then Bybit, then the
      standard rule. */
  function ParseSymbol(symbol: String): Parsed
  {
    var code := ExchangeCode(symbol);
    var exchange := ExchangeName(code);
    if symbol == "BTC.H" then Parsed("BTCUSD", exchange, "USD")
    else
      var woo := WooRule(symbol, exchange);
      if woo.Some? then woo.value
      else
        var bybit := BybitRule(symbol, code, exchange);
        if bybit.Some? then bybit.value
        else StandardRule(symbol, exchange)
  }

  // ---------------------------------------------------------------------
  // The exchange

  /** Every rule reports the same exchange. */
  lemma ExchangeOfEveryRule(symbol: String)
    ensures ParseSymbol(symbol).exchange == ExchangeName(ExchangeCode(symbol))
  {
  }

  /** Every rule reports the exchange the code after the last '.' names,
      or that code itself when the table does not know it. */
  lemma ExchangeAfterLastDot(pre: String, code: String)
    requires '.' !in code
    ensures code in ExchangeCodes ==> ParseSymbol(pre + "." + code).exchange == ExchangeCodes[code]
    ensures code !in ExchangeCodes ==> ParseSymbol(pre + "." + code).exchange == code
  {
    var symbol := pre + "." + code;
    EndsWithCode(symbol, pre, code);
    ExchangeOfEveryRule(symbol);
  }

  /** A ticker "pre.code" whose code holds no '.' carries that code. */
  lemma EndsWithCode(symbol: String, pre: String, code: String)
    requires symbol == pre + ['.'] + code && '.' !in code
    ensures ExchangeCode(symbol) == code
  {
    LastPieceAfter(pre, '.', code);
  }

  /** Without any '.', the whole ticker is the code. */
  lemma ExchangeWithoutDot(symbol: String)
    requires '.' !in symbol
    ensures symbol in ExchangeCodes ==> ParseSymbol(symbol).exchange == ExchangeCodes[symbol]
    ensures symbol !in ExchangeCodes ==> ParseSymbol(symbol).exchange == symbol
  {
  }

  /** Only one-character codes are in the table: any longer or empty code
      passes through. */
  lemma ExchangeCodesAreSingleChars(code: String)
    requires |code| != 1
    ensures ExchangeName(code) == code
  {
    assert code !in ExchangeCodes;
  }

  // ---------------------------------------------------------------------
  // Rule 1: the Hyperliquid literal

  lemma HyperliquidLiteral()
    ensures ParseSymbol("BTC.H") == Parsed("BTCUSD", "hyperliquid", "USD")
  {
    HyperliquidCode("BTC.H");
  }

  /** The literal carries the code "H". */
  lemma HyperliquidCode(symbol: String)
    ensures symbol == "BTC.H" ==> ExchangeCode(symbol) == "H"
  {
    if symbol == "BTC.H" {
      EndsWithCode(symbol, "BTC", "H");
    }
  }

  // ---------------------------------------------------------------------
  // Rule 2: WOO

  /** Exactly two underscores and a "PERP_": the WOO rule applies. */
  predicate WooLayout(symbol: String)
  {
    Contains(symbol, "PERP_") && Count(symbol, '_') == 2
  }

  /** The WOO rule applies exactly on the WOO layout. */
  lemma WooRuleAppliesIff(symbol: String, exchange: String)
    ensures WooRule(symbol, exchange).Some? <==> WooLayout(symbol)
  {
    if Contains(symbol, "PERP_") {
      CharOfContained(symbol, "PERP_", '_');
      ContainsChar(symbol, '_');
    }
  }

  /** "PERP_" is not part of the Hyperliquid literal. */
  lemma NotHyperliquid(symbol: String)
    requires '_' in symbol
    ensures symbol != "BTC.H"
  {
    assert '_' !in "BTC.H";
  }

  /** On the WOO layout the WOO rule decides. */
  lemma ParseWoo(symbol: String)
    requires WooLayout(symbol)
    ensures var parts := Split(symbol, '_'); var quote := Upper(BeforeDot(parts[2]));
      ParseSymbol(symbol).sym == Upper(parts[1]) + quote &&
      ParseSymbol(symbol).margin == quote
  {
    CharOfContained(symbol, "PERP_", '_');
    NotHyperliquid(symbol);
    WooRuleAppliesIff(symbol, ExchangeName(ExchangeCode(symbol)));
  }

  /** The WOO result from the three '_'-parts of the ticker. */
  lemma WooFromParts(symbol: String, a: String, b: String, rest: String, q: String)
    requires Contains(symbol, "PERP_")
    requires Split(symbol, '_') == [a, b, rest]
    requires q <= rest && '.' !in q && (|q| < |rest| ==> rest[|q|] == '.')
    ensures ParseSymbol(symbol).sym == Upper(b) + Upper(q)
    ensures ParseSymbol(symbol).margin == Upper(q)
  {
    assert WooLayout(symbol);
    ParseWoo(symbol);
    FirstPieceIs(rest, '.', q);
  }

  /** The WOO result for "a_b_rest" with `q` the text of `rest` before its
      first '.': the upper-cased middle part followed by the upper-cased
      quote, and the quote as margin. */
  lemma WooResult(a: String, b: String, rest: String, q: String)
    requires '_' !in a && '_' !in b && '_' !in rest
    requires Contains(a + "_" + b + "_" + rest, "PERP_")
    requires q <= rest && '.' !in q && (|q| < |rest| ==> rest[|q|] == '.')
    ensures ParseSymbol(a + "_" + b + "_" + rest).sym == Upper(b) + Upper(q)
    ensures ParseSymbol(a + "_" + b + "_" + rest).margin == Upper(q)
  {
    SplitThree(a, b, rest, '_');
    WooFromParts(a + "_" + b + "_" + rest, a, b, rest, q);
  }

  /** On the WOO layout the symbol ends with the margin, and the margin holds
      neither '_' nor '.'. */
  lemma WooMarginShape(symbol: String)
    requires WooLayout(symbol)
    ensures var r := ParseSymbol(symbol);
      |r.margin| <= |r.sym| && r.sym[|r.sym| - |r.margin|..] == r.margin &&
      '_' !in r.margin && '.' !in r.margin
  {
    var parts := Split(symbol, '_');
    CharOfContained(symbol, "PERP_", '_');
    NotHyperliquid(symbol);
    WooRuleAppliesIff(symbol, ExchangeName(ExchangeCode(symbol)));
    var q := BeforeDot(parts[2]);
    FirstPiece(parts[2], '.');
    forall k | 0 <= k < |q|
      ensures q[k] != '_'
    {
      assert q[k] == parts[2][k];
    }
    UpperKeepsAbsent(q, '_');
    UpperKeepsAbsent(q, '.');
  }

  /** A "PERP_" ticker with any other number of parts falls past the WOO
      rule, and past the Bybit rule (it holds '_'), to the standard rule. */
  lemma WooFallThrough(symbol: String)
    requires Contains(symbol, "PERP_") && Count(symbol, '_') != 2
    ensures ParseSymbol(symbol) == StandardRule(symbol, ExchangeName(ExchangeCode(symbol)))
  {
    CharOfContained(symbol, "PERP_", '_');
    NotHyperliquid(symbol);
    ContainsChar(symbol, '_');
  }

  // ---------------------------------------------------------------------
  // Rule 3: Bybit

  /** The Bybit rule never takes its "UNKNOWN" arm, and always yields the
      symbol "BTCUSD". */
  lemma BybitSymbolFixed(symbol: String, code: String, exchange: String)
    requires BybitRule(symbol, code, exchange).Some?
    ensures BybitRule(symbol, code, exchange).value.sym == "BTCUSD"
    ensures BybitRule(symbol, code, exchange).value.margin != "UNKNOWN"
  {
    MarginUnknownIff(BeforeDot(symbol));
  }

  /** On the Bybit layout the Bybit rule decides. */
  lemma ParseBybit(symbol: String)
    requires ExchangeCode(symbol) == "6" && '.' in symbol && '_' !in symbol
    requires Contains(BeforeDot(symbol), "USD")
    ensures ParseSymbol(symbol) == Parsed("BTCUSD", "bybit", MarginBySubstring(BeforeDot(symbol)))
  {
    HyperliquidCode(symbol);
    AbsentCharNotContained(symbol, "PERP_", '_');
    ContainsChar(symbol, '.');
    ContainsChar(symbol, '_');
    MarginUnknownIff(BeforeDot(symbol));
  }

  /** The Bybit result for a ticker ending in ".6" with no '_', whose text
      `baseQuote` before the first '.' holds "USD". */
  lemma BybitResult(symbol: String, baseQuote: String)
    requires '_' !in symbol
    requires |symbol| >= 2 && symbol[|symbol| - 2..] == ['.', '6']
    requires baseQuote <= symbol && '.' !in baseQuote
    requires |baseQuote| < |symbol| && symbol[|baseQuote|] == '.'
    requires Contains(baseQuote, "USD")
    ensures ParseSymbol(symbol) == Parsed("BTCUSD", "bybit",
      if Contains(baseQuote, "USDT") then "USDT"
      else if Contains(baseQuote, "USDC") then "USDC"
      else "BTC")
  {
    BybitLayout(symbol, baseQuote);
    ParseBybit(symbol);
  }

  /** A ticker "<baseQuote>.6" has code "6" and `baseQuote` before its first
      '.'. */
  lemma BybitLayout(symbol: String, baseQuote: String)
    requires |symbol| >= 2 && symbol[|symbol| - 2..] == ['.', '6']
    requires baseQuote <= symbol && '.' !in baseQuote
    requires |baseQuote| < |symbol| && symbol[|baseQuote|] == '.'
    ensures ExchangeCode(symbol) == "6" && BeforeDot(symbol) == baseQuote && '.' in symbol
  {
    var pre := symbol[..|symbol| - 2];
    assert symbol == pre + ['.'] + "6";
    EndsWithCode(symbol, pre, "6");
    FirstPieceIs(symbol, '.', baseQuote);
    assert symbol[|baseQuote|] == '.';
  }

  /** A code-"6" ticker without '_' whose text before the first '.' lacks
      "USD" falls through to the standard rule. */
  lemma BybitFallThrough(symbol: String)
    requires ExchangeCode(symbol) == "6" && '_' !in symbol
    requires !Contains(BeforeDot(symbol), "USD")
    ensures ParseSymbol(symbol) == StandardRule(symbol, "bybit")
  {
    HyperliquidCode(symbol);
    AbsentCharNotContained(symbol, "PERP_", '_');
    ContainsChar(symbol, '_');
  }

  // ---------------------------------------------------------------------
  // Rule 4: the standard rule

  /** The margin chain yields "UNKNOWN" exactly when "USD" does not occur. */
  lemma MarginUnknownIff(text: String)
    ensures MarginBySubstring(text) == "UNKNOWN" <==> !Contains(text, "USD")
  {
    if Contains(text, "USDT") {
      ContainsPrefix(text, "USDT", "USD");
    } else if Contains(text, "USDC") {
      ContainsPrefix(text, "USDC", "USD");
    }
  }

  /** The margin chain yields "BTC" exactly for a "USD" that is neither
      "USDT" nor "USDC". */
  lemma MarginBtcIff(text: String)
    ensures MarginBySubstring(text) == "BTC" <==>
      Contains(text, "USD") && !Contains(text, "USDT") && !Contains(text, "USDC")
  {
  }

  /** When no earlier rule applies, the base is the first '_'-piece `first`
      with "PERP" and then "PERPETUAL" removed and upper-cased, and the
      margin is chosen on the whole ticker, "USDT" first. */
  lemma StandardResult(symbol: String, first: String)
    requires symbol != "BTC.H" && !WooLayout(symbol)
    requires !(ExchangeCode(symbol) == "6" && '.' in symbol && '_' !in symbol &&
               Contains(BeforeDot(symbol), "USD"))
    requires first <= symbol && '_' !in first
    requires |first| < |symbol| ==> symbol[|first|] == '_'
    ensures ParseSymbol(symbol).sym == Upper(Replace(Replace(first, "PERP", ""), "PERPETUAL", ""))
    ensures ParseSymbol(symbol).margin ==
      if Contains(symbol, "USDT") then "USDT"
      else if Contains(symbol, "USDC") then "USDC"
      else if Contains(symbol, "USD") then "BTC"
      else "UNKNOWN"
  {
    WooRuleAppliesIff(symbol, ExchangeName(ExchangeCode(symbol)));
    ContainsChar(symbol, '.');
    ContainsChar(symbol, '_');
    FirstPieceIs(symbol, '_', first);
  }

  // ---------------------------------------------------------------------
  // The margin over all rules

  /** Outside the WOO layout the margin is one of five fixed names, and
      "USD" comes only from the Hyperliquid literal. */
  lemma MarginRange(symbol: String)
    requires !WooLayout(symbol)
    ensures ParseSymbol(symbol).margin in {"USD", "USDT", "USDC", "BTC", "UNKNOWN"}
    ensures ParseSymbol(symbol).margin == "USD" ==> symbol == "BTC.H"
  {
    var code := ExchangeCode(symbol);
    var exchange := ExchangeName(code);
    WooRuleAppliesIff(symbol, exchange);
    if symbol != "BTC.H" {
      var bybit := BybitRule(symbol, code, exchange);
      if bybit.Some? {
        assert ParseSymbol(symbol) == bybit.value;
        SubstringMarginRange(BeforeDot(symbol));
      } else {
        assert ParseSymbol(symbol) == StandardRule(symbol, exchange);
        SubstringMarginRange(symbol);
      }
    }
  }

  /** The margin chain never yields "USD". */
  lemma SubstringMarginRange(text: String)
    ensures MarginBySubstring(text) in {"USDT", "USDC", "BTC", "UNKNOWN"}
  {
  }
}
