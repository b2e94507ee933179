# Coinalyze predicted-funding fetcher: ticker classifier and CSV export

This project models the logic of `Fetch_Predicted_Funding_History.py`.
That script downloads predicted funding-rate histories of BTC perpetual
futures from the Coinalyze API and writes them to a CSV file. The model has
three parts:

- **`Symbols`** (symbols.dfy) holds the `EXCHANGE_CODES` table and
  `parse_symbol`, as the pure function `ParseSymbol`. It turns an exchange
  ticker (`"BTCUSDT_PERP.A"`) into a `(sym, exchange, margin)` triple by
  four rules tried in order, and the first rule that applies wins:
  - the Hyperliquid literal `"BTC.H"`;
  - the WOO layout `PERP_<base>_<quote>.<code>`;
  - the Bybit layout: code `6`, no `_`, and `"USD"` before the first `.`;
  - the standard rule: the first `_`-piece with `"PERP"` and then
    `"PERPETUAL"` removed, upper-cased, with the margin picked by substring
    priority (`USDT`, then `USDC`, then `USD` ↦ `BTC`, else `UNKNOWN`).

  The exchange is always the table entry for the text after the last `.`,
  or that text itself when the table does not know it.
- **`Strings`** (strings.dfy) holds the Python `str` operations the
  classifier uses, over `seq<char>`:
  - `t in s`;
  - `split` on one character;
  - left-to-right non-overlapping `replace`;
  - ASCII `upper`.

  Each comes with the lemmas the classifier's proofs need.
- **`Export`** (export.dfy) holds the main block's export. `CsvFile` is a
  class whose `rows` field is the sequence of rows written so far.
  `WriteTable` is the two nested loops; it writes the header and then one
  row per history point of every market, and it classifies each market's
  ticker once. It is proved against the specification function `Table`, for
  any classifier. `WriteFundingHistory` runs it with `ParseSymbol`, as the
  script does.
- **`Examples`** (examples.dfy) states the classifier's answer on fifteen of
  the sixteen tickers in the script's list, plus a few tickers that show how
  the rule order plays out. The sixteenth, the literal `"BTC.H"`, is
  `Symbols.HyperliquidLiteral` in symbols.dfy.

`ParseSymbol` has no precondition, so the classifier is total and never
indexes out of range. The code is followed literally; three consequences:
- the standard rule keeps the quote in the base (`"BTCUSDT_PERP.A"` gives
  `"BTCUSDT"`, not `"BTC"`);
- the margin can also be `"USD"` (the Hyperliquid triple) or any upper-cased
  WOO quote, not only the four names of the substring chain;
- the `UNKNOWN` arm inside the Bybit rule can never be taken.

## Model

| member | source | states |
|---|---|---|
| Symbols.ExchangeCodes | Fetch_Predicted_Funding_History.py:17-44 | the 26 codes of the supported-exchange table and their names |
| Symbols.ExchangeCode | Fetch_Predicted_Funding_History.py:72 | the last '.'-piece of the ticker, the whole ticker when it has no '.'; stated by EndsWithCode and ExchangeWithoutDot |
| Symbols.ExchangeName | Fetch_Predicted_Funding_History.py:73 | the table entry for a code, or the code itself when it is not in the table |
| Symbols.WooRule | Fetch_Predicted_Funding_History.py:80-87 | the WOO rule, None where it does not apply; stated by WooRuleAppliesIff and ParseWoo |
| Symbols.BybitRule | Fetch_Predicted_Funding_History.py:90-106 | the Bybit rule, None where it does not apply; stated by BybitSymbolFixed and ParseBybit |
| Symbols.MarginBySubstring | Fetch_Predicted_Funding_History.py:111-118 | the margin chain "USDT", "USDC", "USD" as "BTC", else "UNKNOWN", shared with the Bybit arms at 94-105; stated by MarginUnknownIff and MarginBtcIff |
| Symbols.StandardBase | Fetch_Predicted_Funding_History.py:109 | the first '_'-piece with "PERP" then "PERPETUAL" replaced by "" and upper-cased |
| Symbols.StandardRule | Fetch_Predicted_Funding_History.py:108-120 | the standard rule's triple; stated by StandardResult |
| Symbols.ParseSymbol | Fetch_Predicted_Funding_History.py:71-120 | parse_symbol: no precondition, so defined on every string, with the four rules tried in the source's order and the first that applies deciding |
| Symbols.ExchangeOfEveryRule | Fetch_Predicted_Funding_History.py:72-73 | whichever rule decides, the exchange is the table lookup, with pass-through, of the text after the last '.' |
| Symbols.ExchangeAfterLastDot | Fetch_Predicted_Funding_History.py:72-73 | for a ticker "pre.code" with no '.' in code, the exchange is the table entry for code if there is one, else code itself |
| Symbols.ExchangeWithoutDot | Fetch_Predicted_Funding_History.py:72-73 | a ticker without '.' is its own code, so it maps to its table entry or passes through unchanged |
| Symbols.EndsWithCode | Fetch_Predicted_Funding_History.py:72 | a ticker "pre.code" whose code holds no '.' has that code |
| Symbols.ExchangeCodesAreSingleChars | Fetch_Predicted_Funding_History.py:17-44 | the table holds only one-character codes, so any other code passes through as its own name |
| Symbols.HyperliquidLiteral | Fetch_Predicted_Funding_History.py:76-77 | "BTC.H" gives ("BTCUSD", "hyperliquid", "USD") |
| Symbols.HyperliquidCode | Fetch_Predicted_Funding_History.py:72-77 | the literal carries exchange code "H" |
| Symbols.WooRuleAppliesIff | Fetch_Predicted_Funding_History.py:80-82 | the WOO rule applies exactly when the ticker holds "PERP_" and has exactly two '_' (three parts) |
| Symbols.ParseWoo | Fetch_Predicted_Funding_History.py:80-87 | on that layout the result is upper(part 1) + upper(part 2 before its '.'), and the margin is that upper-cased quote |
| Symbols.WooFromParts | Fetch_Predicted_Funding_History.py:80-87 | the same result, stated from given parts and the quote prefix of the last part |
| Symbols.WooResult | Fetch_Predicted_Funding_History.py:80-87 | for "a_b_rest" with '_'-free parts, sym is upper(b)+upper(q) and margin is upper(q), q being rest before its first '.' |
| Symbols.WooMarginShape | Fetch_Predicted_Funding_History.py:83-87 | on the WOO layout sym ends with margin, and margin holds neither '_' nor '.' |
| Symbols.WooFallThrough | Fetch_Predicted_Funding_History.py:80-120 | a "PERP_" ticker with any other number of parts skips the WOO and Bybit rules and gets the standard rule |
| Symbols.BybitSymbolFixed | Fetch_Predicted_Funding_History.py:92-106 | whenever the Bybit rule applies, sym is "BTCUSD" and the "UNKNOWN" arm is not taken |
| Symbols.ParseBybit | Fetch_Predicted_Funding_History.py:90-106 | code "6", a '.', no '_' and "USD" before the first '.' give ("BTCUSD", "bybit", margin chain of that text) |
| Symbols.BybitResult | Fetch_Predicted_Funding_History.py:90-106 | for "baseQuote.….6" with "USD" in baseQuote, the margin is USDT, else USDC, else BTC, judged on baseQuote only |
| Symbols.BybitLayout | Fetch_Predicted_Funding_History.py:90-91 | a ticker ending in ".6" with baseQuote before its first '.' has code "6", a '.' and base_quote equal to baseQuote |
| Symbols.BybitFallThrough | Fetch_Predicted_Funding_History.py:90-120 | a code-"6" ticker without '_' and without "USD" before its first '.' falls through to the standard rule |
| Symbols.MarginUnknownIff | Fetch_Predicted_Funding_History.py:111-118 | the margin chain yields "UNKNOWN" exactly when "USD" does not occur |
| Symbols.MarginBtcIff | Fetch_Predicted_Funding_History.py:111-118 | the chain yields "BTC" exactly when "USD" occurs but neither "USDT" nor "USDC" does |
| Symbols.StandardResult | Fetch_Predicted_Funding_History.py:108-120 | when no earlier rule applies, the base is the first '_'-piece with "PERP" then "PERPETUAL" replaced away and upper-cased, and the margin is chosen on the whole ticker with "USDT" first |
| Symbols.MarginRange | Fetch_Predicted_Funding_History.py:71-120 | outside the WOO layout the margin is one of USD, USDT, USDC, BTC, UNKNOWN, and "USD" only for the literal "BTC.H" |
| Strings.Contains | Fetch_Predicted_Funding_History.py:80-118 | Python's `t in s`: t is a prefix of s or of some suffix of s; its meaning is stated by ContainsIff |
| Strings.ContainsIff | Fetch_Predicted_Funding_History.py:80 | `t in s` holds exactly when t occurs at some index of s |
| Strings.ContainsPrefix | Fetch_Predicted_Funding_History.py:111-116 | a string holding t holds every prefix of t, so "USDT" implies "USD" |
| Strings.ContainsBeforeSeparator | Fetch_Predicted_Funding_History.py:111-116 | a pattern whose first character is absent after a separator it lacks occurs in "a<sep>b" exactly when it occurs in a |
| Strings.Count | Fetch_Predicted_Funding_History.py:81-82 | the number of occurrences of a character is zero exactly when it is absent, and at most the length |
| Strings.Split | Fetch_Predicted_Funding_History.py:72-109 | split yields one more piece than there are separators, no piece holds the separator, and a string without it splits to itself |
| Strings.JoinSplit | Fetch_Predicted_Funding_History.py:72-81 | joining the pieces of a split with the separator gives the string back |
| Strings.SplitJoin | Fetch_Predicted_Funding_History.py:81 | splitting a join of separator-free pieces gives the pieces back |
| Strings.SplitConcat | Fetch_Predicted_Funding_History.py:81-109 | a separator-free first piece is split off first |
| Strings.SplitThree | Fetch_Predicted_Funding_History.py:81-82 | "a_b_rest" with '_'-free parts splits into exactly [a, b, rest] |
| Strings.FirstPiece | Fetch_Predicted_Funding_History.py:84-109 | the first piece is a prefix of the string, followed by the separator when the separator occurs |
| Strings.FirstPieceIs | Fetch_Predicted_Funding_History.py:84-109 | a separator-free prefix ending at a separator, or at the end, is the first piece |
| Strings.LastPieceAfter | Fetch_Predicted_Funding_History.py:72 | the last piece of "pre.code" is code when code holds no '.' |
| Strings.Replace | Fetch_Predicted_Funding_History.py:109 | replace leaves a string without the pattern unchanged, and replacing with "" never lengthens it and shortens it when the pattern occurs |
| Strings.ReplaceBySelf | Fetch_Predicted_Funding_History.py:109 | replacing a pattern by itself changes nothing |
| Strings.Upper | Fetch_Predicted_Funding_History.py:83-109 | upper keeps the length, maps each character, and leaves no ASCII lower-case letter |
| Strings.UpperOfUpperCase | Fetch_Predicted_Funding_History.py:83-109 | upper leaves a string with no lower-case letter unchanged |
| Strings.UpperIdempotent | Fetch_Predicted_Funding_History.py:83-109 | upper applied twice is upper applied once |
| Strings.UpperKeepsAbsent | Fetch_Predicted_Funding_History.py:83-84 | upper introduces no character other than an upper-case letter |
| Examples.StandardFromPieces | Fetch_Predicted_Funding_History.py:108-120 | a one-'_' ticker whose upper-case first piece lacks "PERP" keeps that piece as base |
| Examples.MarginFromWitness | Fetch_Predicted_Funding_History.py:111-118 | a character-level witness decides the margin chain's answer |
| Examples.MarginOfFirstPiece | Fetch_Predicted_Funding_History.py:111-118 | with no 'U' after the first '_', the margin of the ticker is the margin of its first piece |
| Examples.StandardTicker | Fetch_Predicted_Funding_History.py:108-120 | "first_mid.code" with upper-case, PERP-free first piece gives (first, name of code, margin chain of the ticker) |
| Examples.FirstPieceTicker | Fetch_Predicted_Funding_History.py:108-120 | the same, with the margin read off the first piece |
| Examples.WooTicker | Fetch_Predicted_Funding_History.py:80-87 | "PERP_b_q.code" with upper-case b and q gives (b+q, name of code, q) |
| Examples.BybitTicker | Fetch_Predicted_Funding_History.py:90-106 | a Bybit ticker with a witnessed margin gives ("BTCUSD", "bybit", margin) |
| Examples.BinanceUsdt | Fetch_Predicted_Funding_History.py:48 | "BTCUSDT_PERP.A" gives ("BTCUSDT", "binance", "USDT"), the base keeping its quote |
| Examples.BinanceUsdc | Fetch_Predicted_Funding_History.py:49 | "BTCUSDC_PERP.A" gives ("BTCUSDC", "binance", "USDC") |
| Examples.BitmexInverse | Fetch_Predicted_Funding_History.py:50 | "BTCUSD_PERP.0" gives ("BTCUSD", "bitmex", "BTC") |
| Examples.BitmexUsdt | Fetch_Predicted_Funding_History.py:51 | "BTCUSDT_PERP.0" gives ("BTCUSDT", "bitmex", "USDT") |
| Examples.BitfinexUsdt | Fetch_Predicted_Funding_History.py:52 | "BTCUSDT_PERP.F" gives ("BTCUSDT", "bitfinex", "USDT") |
| Examples.BitfinexInverse | Fetch_Predicted_Funding_History.py:53 | "BTCUSD_PERP.F" gives ("BTCUSD", "bitfinex", "BTC") |
| Examples.BybitUsdt | Fetch_Predicted_Funding_History.py:54 | "BTCUSDT.6" gives ("BTCUSD", "bybit", "USDT") |
| Examples.BybitInverse | Fetch_Predicted_Funding_History.py:55 | "BTCUSD.6" gives ("BTCUSD", "bybit", "BTC") |
| Examples.HuobiUsdt | Fetch_Predicted_Funding_History.py:56 | "BTCUSDT_PERP.4" gives ("BTCUSDT", "huobi", "USDT") |
| Examples.HuobiInverse | Fetch_Predicted_Funding_History.py:57 | "BTCUSD_PERP.4" gives ("BTCUSD", "huobi", "BTC") |
| Examples.OkxUsdt | Fetch_Predicted_Funding_History.py:58 | "BTCUSDT_PERP.3" gives ("BTCUSDT", "okx", "USDT") |
| Examples.OkxUsdc | Fetch_Predicted_Funding_History.py:59 | "BTCUSDC_PERP.3" gives ("BTCUSDC", "okx", "USDC") |
| Examples.OkxInverse | Fetch_Predicted_Funding_History.py:60 | "BTCUSD_PERP.3" gives ("BTCUSD", "okx", "BTC") |
| Examples.WooUsdt | Fetch_Predicted_Funding_History.py:61 | "PERP_BTC_USDT.W" gives ("BTCUSDT", "woo", "USDT") |
| Examples.GateioUsdt | Fetch_Predicted_Funding_History.py:62 | "BTC_USDT.Y" gives ("BTC", "gateio", "USDT") |
| Examples.UnknownExchange | Fetch_Predicted_Funding_History.py:73-120 | "XYZ_PERP.Z" gives ("XYZ", "Z", "UNKNOWN"): the unknown code passes through |
| Examples.HyperliquidTripleFromWoo | Fetch_Predicted_Funding_History.py:76-87 | "PERP_BTC_USD.H" also gives ("BTCUSD", "hyperliquid", "USD"), so the literal is not the only way to that triple |
| Examples.WooUsdtTickerWithBtcMargin | Fetch_Predicted_Funding_History.py:80-87 | "PERP_USDT_BTC.W" gives margin "BTC" although it holds "USDT" |
| Examples.BybitUsdtTickerWithBtcMargin | Fetch_Predicted_Funding_History.py:90-106 | "BTCUSD.USDT.6" gives margin "BTC": the Bybit rule looks only before the first '.' |
| Examples.ReplaceWhole | Fetch_Predicted_Funding_History.py:109 | replacing a whole string that equals the pattern gives the replacement |
| Examples.FourPartPerpTicker | Fetch_Predicted_Funding_History.py:80-120 | "PERP_b_c_d" is not WOO; the standard rule gives the empty base |
| Export.Header | Fetch_Predicted_Funding_History.py:147 | the nine column names date, sym, ecn, margin, open, high, low, close, raw_symbol |
| Export.PointRow | Fetch_Predicted_Funding_History.py:153-154 | the row of one history point: date, the market's classification, the four numbers and the raw ticker |
| Export.MarketRows | Fetch_Predicted_Funding_History.py:150-154 | the rows of one market's points in order, its ticker classified once |
| Export.DataRows | Fetch_Predicted_Funding_History.py:149-154 | the rows of all markets in order |
| Export.Table | Fetch_Predicted_Funding_History.py:145-154 | the whole file: the header, then the data rows |
| Export.TableSize | Fetch_Predicted_Funding_History.py:147-154 | the file has one row more than there are history points over all markets |
| Export.DataRowsSize | Fetch_Predicted_Funding_History.py:149-154 | the data rows number the history points over all markets |
| Export.RowAt | Fetch_Predicted_Funding_History.py:149-154 | point j of market i is written right after the header and the points of markets 0..i-1, as [date(t), sym, ecn, margin, o, h, l, c, raw_symbol] with the market's classification |
| Export.DataRowAt | Fetch_Predicted_Funding_History.py:149-154 | the same position statement for the data rows alone |
| Export.TableRowsConsistent | Fetch_Predicted_Funding_History.py:151-154 | every data row has nine cells, the classification of its own last cell in cells 1-3 and numbers in cells 4-7 |
| Export.DataRowsConsistent | Fetch_Predicted_Funding_History.py:151-154 | the same for the data rows alone |
| Export.MarketRowsPrefix | Fetch_Predicted_Funding_History.py:152-154 | the rows of a market's first j+1 points extend those of its first j by point j's row |
| Export.DataRowsPrefix | Fetch_Predicted_Funding_History.py:149-154 | the rows of the first i+1 markets extend those of the first i by market i's rows |
| Export.CsvFile.constructor | Fetch_Predicted_Funding_History.py:145-146 | a new writer holds no rows |
| Export.CsvFile.Open | Fetch_Predicted_Funding_History.py:145 | opening with mode "w" empties the file |
| Export.CsvFile.WriteRow | Fetch_Predicted_Funding_History.py:147-154 | writerow appends exactly one row |
| Export.WriteTable | Fetch_Predicted_Funding_History.py:145-154 | whatever the file held, afterwards it holds exactly the header followed by the rows of every market's points, in order |
| Export.WriteFundingHistory | Fetch_Predicted_Funding_History.py:145-154 | the export with ParseSymbol as classifier leaves exactly Table(ParseSymbol, data, date) in the file |

## Left out

- The HTTP request (`get_predicted_funding_rate_history`, lines 123-133): it
  is network I/O. Its result is the market sequence given to the export.
- `to_unix` (lines 67-68) and the `strftime`/`localtime` formatting of line
  153: they depend on the local time zone and the clock. The date
  formatting is the function parameter `date`.
- The CSV format itself (quoting, separators, line ends) and the file
  system: the file is modelled as the sequence of rows written.
- The API key, the base URL, the interval and range constants, and the
  `print` messages: none of them affects how a response becomes rows (the
  interval and the time range only decide which points the API returns).
- Records that lack a `symbol` or `history` key, or a point that lacks a
  field: the script does not handle these, and the model takes well-formed
  records as given. `o`, `h`, `l` and `c` are modelled as `real`, and `t` as
  `int`.
- Strings.Upper: covers only ASCII letters, while Python's `upper` also
  maps non-ASCII letters and can change the length ('ß' becomes "SS"). The
  exchange tickers are ASCII, where the two agree.
- `Fetch_Symbols.py` is not part of this model. It is an HTTP fetch plus a
  printing loop.
