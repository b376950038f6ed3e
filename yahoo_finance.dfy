/**
 * The pure part of scripts/utils/yahoo_finance_stock_info.py: ticker
 * sanitisation and the allow-list decision of `is_valid_ticker` over the
 * quote the market-data provider returned (the provider call itself is a
 * parameter).
 */
module YahooFinance {
  import opened Text
  import opened Wrappers

  /** The characters `sanitize_ticker` keeps: `[A-Z0-9.-]`. */
  predicate IsTickerChar(c: char) {
    ('A' <= c <= 'Z') || ('0' <= c <= '9') || c == '.' || c == '-'
  }

  predicate IsTickerText(s: string) {
    forall i :: 0 <= i < |s| ==> IsTickerChar(s[i])
  }

  /** `re.sub(r'[^A-Z0-9\.-]', '', s)`: deletes every other character. */
  function KeepTickerChars(s: string): (r: string)
    ensures IsTickerText(r)
    ensures |r| <= |s|
    ensures forall c :: c in r <==> c in s && IsTickerChar(c)
  {
    if s == [] then []
    else (if IsTickerChar(s[0]) then [s[0]] else []) + KeepTickerChars(s[1..])
  }

  lemma {:induction false} KeepTickerCharsAppend(a: string, b: string)
    ensures KeepTickerChars(a + b) == KeepTickerChars(a) + KeepTickerChars(b)
  {
    if a == [] {
      assert a + b == b;
    } else {
      assert (a + b)[1..] == a[1..] + b;
      KeepTickerCharsAppend(a[1..], b);
    }
  }

  lemma {:induction false} KeepTickerCharsOfTickerText(s: string)
    requires IsTickerText(s)
    ensures KeepTickerChars(s) == s
  {
    if s != [] {
      KeepTickerCharsOfTickerText(s[1..]);
    }
  }

  /** `sanitize_ticker`: upper-case, then drop everything outside `[A-Z0-9.-]`. */
  function SanitizeTicker(ticker: string): (r: string)
    ensures IsTickerText(r)
    ensures forall c :: c in r <==> c in Upper(ticker) && IsTickerChar(c)
  {
    KeepTickerChars(Upper(ticker))
  }

  /** A sanitised ticker holds no white space, so surrounding spaces go. */
  lemma SanitizedHasNoSpace(ticker: string)
    ensures forall i :: 0 <= i < |SanitizeTicker(ticker)| ==> !IsSpace(SanitizeTicker(ticker)[i])
  {
  }

  /** Sanitising distributes over concatenation: it works character by character. */
  lemma SanitizeAppend(a: string, b: string)
    ensures SanitizeTicker(a + b) == SanitizeTicker(a) + SanitizeTicker(b)
  {
    UpperAppend(a, b);
    KeepTickerCharsAppend(Upper(a), Upper(b));
  }

  /** A ticker already made of `[A-Z0-9.-]` is left as it is. */
  lemma SanitizeOfTickerText(s: string)
    requires IsTickerText(s)
    ensures SanitizeTicker(s) == s
  {
    UpperOfUpper(s);
    KeepTickerCharsOfTickerText(s);
  }

  lemma SanitizeIdempotent(ticker: string)
    ensures SanitizeTicker(SanitizeTicker(ticker)) == SanitizeTicker(ticker)
  {
    SanitizeOfTickerText(SanitizeTicker(ticker));
  }

  /** The dollar sign the model sometimes prefixes is dropped. */
  lemma SanitizeDropsDollar()
    ensures SanitizeTicker("$NKLA") == "NKLA"
  {
    var u := Upper("$NKLA");
    assert u == "$NKLA";
    assert u[1..] == "NKLA";
    KeepTickerCharsOfTickerText("NKLA");
  }

  lemma SanitizeUpperCases()
    ensures SanitizeTicker("aapl.b") == "AAPL.B"
  {
    assert Upper("aapl.b") == "AAPL.B";
    KeepTickerCharsOfTickerText("AAPL.B");
  }

  lemma SanitizeSpace()
    ensures SanitizeTicker(" ") == ""
  {
    assert Upper(" ") == " ";
    assert " "[1..] == [];
  }

  lemma SanitizeMsft()
    ensures SanitizeTicker("msft") == "MSFT"
  {
    assert Upper("msft") == "MSFT";
    KeepTickerCharsOfTickerText("MSFT");
  }

  lemma SanitizeDropsSpaces()
    ensures SanitizeTicker(" msft ") == "MSFT"
  {
    assert " msft " == " " + "msft" + " ";
    SanitizeAppend(" " + "msft", " ");
    SanitizeAppend(" ", "msft");
    SanitizeSpace();
    SanitizeMsft();
  }

  /** The slice of provider data `is_valid_ticker` looks at. */
  datatype Quote = Quote(currentPrice: Option<real>, exchange: Option<string>)

  /** What looking a ticker up produced: the provider raised, or a quote. */
  datatype Lookup = Unavailable | Fetched(quote: Quote)

  const AllowedExchanges: seq<string> := ["NASDAQ", "NMS", "NYSE", "AMEX"]

  /** `str(data.get("exchange", ""))`: a missing exchange prints as "None". */
  function ExchangeText(exchange: Option<string>): string {
    match exchange
    case Some(e) => e
    case None => "None"
  }

  /** The decision `is_valid_ticker` takes on what the lookup produced. */
  predicate QuoteAccepted(l: Lookup) {
    match l
    case Unavailable => false
    case Fetched(q) => q.currentPrice.Some? && Upper(ExchangeText(q.exchange)) in AllowedExchanges
  }

  /** `is_valid_ticker(ticker)`: the fetcher sanitises the ticker, asks the
      provider (`lookup`), and accepts a priced quote from an allowed exchange. */
  predicate IsValidTicker(ticker: string, lookup: string -> Lookup) {
    QuoteAccepted(lookup(SanitizeTicker(ticker)))
  }

  /** Fail-closed: a lookup that raised never validates. */
  lemma LookupFailureRejects(ticker: string, lookup: string -> Lookup)
    requires lookup(SanitizeTicker(ticker)) == Unavailable
    ensures !IsValidTicker(ticker, lookup)
  {
  }

  /** The exchange is compared case-insensitively, and a quote without a
      price or without an exchange is rejected. */
  lemma QuoteAcceptedCases(price: Option<real>, exchange: string)
    ensures QuoteAccepted(Fetched(Quote(price, Some(exchange))))
        == QuoteAccepted(Fetched(Quote(price, Some(Upper(exchange)))))
    ensures !QuoteAccepted(Fetched(Quote(None, Some(exchange))))
    ensures !QuoteAccepted(Fetched(Quote(price, None)))
  {
    UpperIdempotent(exchange);
    assert Upper("None") == "NONE";
  }

  lemma QuoteAcceptedExamples(p: real)
    ensures QuoteAccepted(Fetched(Quote(Some(p), Some("nms"))))
    ensures QuoteAccepted(Fetched(Quote(Some(p), Some("NYSE"))))
    ensures !QuoteAccepted(Fetched(Quote(Some(p), Some("OTC"))))
  {
    assert Upper("nms") == "NMS";
    assert Upper("NYSE") == "NYSE";
    assert Upper("OTC") == "OTC";
  }

  /** Sanitising before the call changes nothing, since the fetcher
      sanitises again. */
  lemma ValidityOfSanitized(ticker: string, lookup: string -> Lookup)
    ensures IsValidTicker(SanitizeTicker(ticker), lookup) == IsValidTicker(ticker, lookup)
  {
    SanitizeIdempotent(ticker);
  }
}
