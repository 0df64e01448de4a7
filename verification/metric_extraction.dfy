/**
 * How ScreenerScraper assembles the metric dictionary of one company page
 * (scrape_company_data) and the complete lookup get_stock_data.
 *
 * The HTML page is abstracted: its <h1> text, the text of the price element, the cell
 * texts of every table row, and the two DOM searches extract_from_key_metrics and
 * extract_value as given functions from a term to an optional text.
 */
module MetricExtraction {
  import opened Wrappers
  import opened Text
  import opened OrderedMaps
  import opened StockIndex

  /** What the scraper can see of a fetched company page. */
  datatype Page = Page(
    heading: Option<string>,               // text of the first <h1>, if there is one
    priceText: Option<string>,             // text of the price element, if one was located
    tableRows: seq<seq<string>>,           // stripped texts of the <td> cells of each <tr>
    keyMetric: string -> Option<string>,   // extract_from_key_metrics(soup, term)
    spanValue: string -> Option<string>)   // extract_value(soup, term)

  /** The metric dictionary: metric name -> text, in insertion order. */
  type Metrics = OrderedMap<string>

  /** Python truthiness of an optional text: None and "" are false. */
  predicate Truthy(v: Option<string>)
  {
    v.Some? && v.value != ""
  }

  /** A table row extract_from_table stops at: two cells or more, and the first cell
      contains the term, ignoring case. */
  predicate Qualifies(row: seq<string>, term: string)
  {
    |row| >= 2 && Contains(Lower(row[0]), Lower(term))
  }

  /** extract_from_table: the second cell of the first qualifying row, None when that cell
      is empty or no row qualifies. */
  function ExtractFromTable(rows: seq<seq<string>>, term: string): Option<string>
  {
    if rows == [] then None
    else if Qualifies(rows[0], term) then (if rows[0][1] != "" then Some(rows[0][1]) else None)
    else ExtractFromTable(rows[1..], term)
  }

  /** The answer is decided by the first qualifying row alone; with none it is None. */
  lemma {:induction false} ExtractFromTableFirstRow(rows: seq<seq<string>>, term: string)
    ensures forall i :: 0 <= i < |rows| && Qualifies(rows[i], term)
                        && (forall j :: 0 <= j < i ==> !Qualifies(rows[j], term))
                        ==> ExtractFromTable(rows, term)
                            == if rows[i][1] != "" then Some(rows[i][1]) else None
    ensures (forall i :: 0 <= i < |rows| ==> !Qualifies(rows[i], term))
            ==> ExtractFromTable(rows, term) == None
  {
    if rows != [] {
      ExtractFromTableFirstRow(rows[1..], term);
      forall i | 0 < i < |rows| && Qualifies(rows[i], term)
                 && (forall j :: 0 <= j < i ==> !Qualifies(rows[j], term))
        ensures ExtractFromTable(rows, term)
                == if rows[i][1] != "" then Some(rows[i][1]) else None
      {
        assert !Qualifies(rows[0], term);
        assert rows[1..][i - 1] == rows[i];
        assert forall j :: 0 <= j < i - 1 ==> rows[1..][j] == rows[j + 1];
      }
    }
  }

  /** Rows after a qualifying one are never looked at. */
  lemma {:induction false} ExtractFromTableIgnoresLaterRows(rows: seq<seq<string>>, later: seq<seq<string>>, term: string)
    requires exists i :: 0 <= i < |rows| && Qualifies(rows[i], term)
    ensures ExtractFromTable(rows + later, term) == ExtractFromTable(rows, term)
  {
    if !Qualifies(rows[0], term) {
      var i :| 0 <= i < |rows| && Qualifies(rows[i], term);
      assert rows[1..][i - 1] == rows[i];
      assert (rows + later)[1..] == rows[1..] + later;
      ExtractFromTableIgnoresLaterRows(rows[1..], later, term);
    }
  }

  /** The three ways of finding a metric by term. */
  datatype Strategy = KeyMetrics | SpanLabel | TableRow

  function Apply(page: Page, s: Strategy, term: string): Option<string>
  {
    match s
    case KeyMetrics => page.keyMetric(term)
    case SpanLabel => page.spanValue(term)
    case TableRow => ExtractFromTable(page.tableRows, term)
  }

  /** The order scrape_company_data tries the strategies in for a metric synonym. */
  const MetricChain: seq<Strategy> := [KeyMetrics, SpanLabel, TableRow]
  /** The order used for the separate High and Low lookups. */
  const SideChain: seq<Strategy> := [TableRow, SpanLabel]

  /** Python's `a or b or ...` over the strategies: the first truthy result, or else the
      last result. */
  function OrChain(page: Page, chain: seq<Strategy>, term: string): Option<string>
    requires chain != []
  {
    var v := Apply(page, chain[0], term);
    if |chain| == 1 || Truthy(v) then v else OrChain(page, chain[1..], term)
  }

  /** The chain is truthy exactly when some strategy is, and then it is the result of the
      first truthy strategy. */
  lemma {:induction false} OrChainFirstTruthy(page: Page, chain: seq<Strategy>, term: string)
    requires chain != []
    ensures forall i :: 0 <= i < |chain| && Truthy(Apply(page, chain[i], term))
                        && (forall j :: 0 <= j < i ==> !Truthy(Apply(page, chain[j], term)))
                        ==> OrChain(page, chain, term) == Apply(page, chain[i], term)
    ensures (forall i :: 0 <= i < |chain| ==> !Truthy(Apply(page, chain[i], term)))
            <==> !Truthy(OrChain(page, chain, term))
  {
    if |chain| > 1 {
      OrChainFirstTruthy(page, chain[1..], term);
      forall i | 0 < i < |chain| ensures chain[1..][i - 1] == chain[i] { }
      if !Truthy(OrChain(page, chain, term)) {
        assert !Truthy(Apply(page, chain[0], term));
        forall i | 0 < i < |chain| ensures !Truthy(Apply(page, chain[i], term)) {
          assert chain[1..][i - 1] == chain[i];
        }
      }
    }
  }

  /** The inner synonym loop of scrape_company_data: the first truthy chain result over
      the synonyms, in list order; None when none is truthy. */
  function FirstAcross(page: Page, chain: seq<Strategy>, terms: seq<string>): Option<string>
    requires chain != []
  {
    if terms == [] then None
    else
      var v := OrChain(page, chain, terms[0]);
      if Truthy(v) then v else FirstAcross(page, chain, terms[1..])
  }

  /** The synonym search yields the result of the first synonym whose chain is truthy, and
      None exactly when no synonym's chain is truthy; it never yields an empty text. */
  lemma {:induction false} FirstAcrossFirstTruthy(page: Page, chain: seq<Strategy>, terms: seq<string>)
    requires chain != []
    ensures var r := FirstAcross(page, chain, terms);
      && (r.Some? ==> r.value != "")
      && (r.None? <==> forall i :: 0 <= i < |terms| ==> !Truthy(OrChain(page, chain, terms[i])))
      && forall i :: 0 <= i < |terms| && Truthy(OrChain(page, chain, terms[i]))
                     && (forall j :: 0 <= j < i ==> !Truthy(OrChain(page, chain, terms[j])))
                     ==> r == OrChain(page, chain, terms[i])
  {
    if terms != [] {
      FirstAcrossFirstTruthy(page, chain, terms[1..]);
      forall i | 0 < i < |terms| ensures terms[1..][i - 1] == terms[i] { }
    }
  }

  /** for term in terms: value = <chain>; if value: break  -- the value left afterwards. */
  method ResolveTerms(page: Page, chain: seq<Strategy>, terms: seq<string>) returns (value: Option<string>)
    requires chain != []
    ensures Truthy(value) <==> FirstAcross(page, chain, terms).Some?
    ensures Truthy(value) ==> value == FirstAcross(page, chain, terms)
  {
    value := None;
    for t := 0 to |terms|
      invariant !Truthy(value)
      invariant FirstAcross(page, chain, terms) == FirstAcross(page, chain, terms[t..])
    {
      assert terms[t..][1..] == terms[t + 1..];
      value := OrChain(page, chain, terms[t]);
      if Truthy(value) {
        return;
      }
    }
  }

  /** The characters re.sub(r'[^\d.,]', '', ...) keeps. */
  predicate IsPriceChar(c: char)
  {
    ('0' <= c <= '9') || c == '.' || c == ','
  }

  /** The price text with everything but digits, '.' and ',' removed. */
  function CleanPrice(s: string): (r: string)
    ensures forall i :: 0 <= i < |r| ==> IsPriceChar(r[i])
  {
    if s == [] then []
    else (if IsPriceChar(s[0]) then [s[0]] else []) + CleanPrice(s[1..])
  }

  /** Cleaning keeps every price character and only those, in order: it distributes over
      concatenation and leaves an already clean text unchanged. */
  lemma {:induction false} CleanPriceConcat(a: string, b: string)
    ensures CleanPrice(a + b) == CleanPrice(a) + CleanPrice(b)
  {
    if a != [] {
      assert (a + b)[1..] == a[1..] + b;
      CleanPriceConcat(a[1..], b);
    } else {
      assert a + b == b;
    }
  }

  lemma {:induction false} CleanPriceOfCleanText(s: string)
    requires forall i :: 0 <= i < |s| ==> IsPriceChar(s[i])
    ensures CleanPrice(s) == s
  {
    if s != [] {
      CleanPriceOfCleanText(s[1..]);
    }
  }

  /** A single character is kept exactly when it is a price character: with
      CleanPriceConcat, every other character is dropped. */
  lemma CleanPriceOfOneChar(c: char)
    ensures CleanPrice([c]) == if IsPriceChar(c) then [c] else []
  {
    assert [c][1..] == [];
  }

  const Rupee: char := '\U{20B9}'

  /** The "Current Price" entry the page yields, if any. */
  function PriceValue(page: Page): Option<string>
  {
    match page.priceText
    case None => None
    case Some(text) =>
      var cleaned := CleanPrice(text);
      if cleaned == "" then None
      else Some(if StartsWith(cleaned, [Rupee]) then cleaned else [Rupee] + cleaned)
  }

  /** A stored price is the rupee sign followed by a non-empty run of digits, '.' and ','
      (the branch that keeps an existing rupee sign can never be taken); nothing is stored
      when cleaning leaves nothing. */
  lemma PriceFormat(page: Page)
    ensures PriceValue(page).Some? <==> page.priceText.Some? && CleanPrice(page.priceText.value) != ""
    ensures PriceValue(page).Some? ==>
              var p := PriceValue(page).value;
              && |p| >= 2 && p[0] == Rupee
              && p[1..] == CleanPrice(page.priceText.value)
              && forall i :: 1 <= i < |p| ==> IsPriceChar(p[i])
  {
    if PriceValue(page).Some? {
      var cleaned := CleanPrice(page.priceText.value);
      assert !IsPriceChar(Rupee);
      assert !StartsWith(cleaned, [Rupee]) by {
        assert IsPriceChar(cleaned[0]);
      }
      assert PriceValue(page).value[1..] == cleaned;
    }
  }

  /** The metrics scrape_company_data looks for: stored name and synonyms in search order. */
  const MetricTable: seq<(string, seq<string>)> := [
    ("Market Cap", ["Market Cap", "Market capitalization"]),
    ("P/E", ["P/E", "PE", "Price to Earnings"]),
    ("ROCE", ["ROCE", "Return on Capital Employed"]),
    ("ROE", ["ROE", "Return on Equity"]),
    ("Debt", ["Debt", "Total Debt"]),
    ("High / Low", ["High / Low", "52W High / Low"]),
    ("Profit Growth", ["Profit Growth", "Net Profit Growth"]),
    ("Sales Growth", ["Sales Growth", "Revenue Growth"]),
    ("Cash Flows", ["Cash", "Cash Flow", "Operating Cash Flow"])
  ]

  const HighTerms: seq<string> := ["High", "52W High"]
  const LowTerms: seq<string> := ["Low", "52W Low"]

  /** The metric loop: each metric found is assigned, in table order. */
  function StoreMetrics(data: Metrics, page: Page, table: seq<(string, seq<string>)>): Metrics
  {
    if table == [] then data
    else
      var before := StoreMetrics(data, page, table[..|table| - 1]);
      var entry := table[|table| - 1];
      match FirstAcross(page, MetricChain, entry.1)
      case None => before
      case Some(v) => Put(before, entry.0, v)
  }

  /** The separately resolved "high / low" text, when both sides resolve. */
  function HighLowFallback(page: Page): Option<string>
  {
    var high := FirstAcross(page, SideChain, HighTerms);
    var low := FirstAcross(page, SideChain, LowTerms);
    if high.Some? && low.Some? then Some(high.value + " / " + low.value) else None
  }

  /** The dictionary after the name and price steps. */
  function Priced(page: Page): Metrics
  {
    var named := if page.heading.Some? then Put([], "Company Name", page.heading.value) else [];
    match PriceValue(page) case None => named case Some(p) => Put(named, "Current Price", p)
  }

  /** The dictionary after the metric loop. */
  function Measured(page: Page): Metrics
  {
    StoreMetrics(Priced(page), page, MetricTable)
  }

  /** The dictionary scrape_company_data returns for a fetch that produced this page, or
      for a failed fetch. */
  function ScrapedData(fetched: Option<Page>): Metrics
  {
    match fetched
    case None => []
    case Some(page) =>
      if Truthy(Get(Measured(page), "High / Low")) then Measured(page)
      else match HighLowFallback(page)
           case None => Measured(page)
           case Some(hl) => Put(Measured(page), "High / Low", hl)
  }

  /** scrape_company_data, on the page the fetch produced (None: the fetch failed). */
  method ScrapeCompanyData(fetched: Option<Page>) returns (data: Metrics)
    ensures data == ScrapedData(fetched)
    ensures Valid(data)
  {
    if fetched.None? {
      return [];
    }
    var page := fetched.value;
    data := [];
    if page.heading.Some? {
      data := Put(data, "Company Name", page.heading.value);
    }
    if page.priceText.Some? {
      var priceText := CleanPrice(page.priceText.value);
      if priceText != "" {
        data := Put(data, "Current Price", if StartsWith(priceText, [Rupee]) then priceText else [Rupee] + priceText);
      }
    }
    assert data == Priced(page);
    data := StoreFoundMetrics(data, page);
    var current := Get(data, "High / Low");
    if !Truthy(current) {
      var high := ResolveTerms(page, SideChain, HighTerms);
      var low := ResolveTerms(page, SideChain, LowTerms);
      if Truthy(high) && Truthy(low) {
        data := Put(data, "High / Low", high.value + " / " + low.value);
      }
    }
    ScrapedDataValid(page);
  }

  /** The metric loop of scrape_company_data: every metric of the table, in order, is
      stored under its name when one of its synonyms yields a truthy value. */
  method StoreFoundMetrics(data0: Metrics, page: Page) returns (data: Metrics)
    ensures data == StoreMetrics(data0, page, MetricTable)
  {
    data := data0;
    for m := 0 to |MetricTable|
      invariant data == StoreMetrics(data0, page, MetricTable[..m])
    {
      assert MetricTable[..m + 1][..m] == MetricTable[..m];
      var value := ResolveTerms(page, MetricChain, MetricTable[m].1);
      if Truthy(value) {
        data := Put(data, MetricTable[m].0, value.value);
      }
    }
    assert MetricTable[..|MetricTable|] == MetricTable;
  }

  /** Each metric name is assigned at most once, so the dictionary has no duplicate key. */
  lemma ScrapedDataValid(page: Page)
    ensures Valid(ScrapedData(Some(page)))
  {
    var named := if page.heading.Some? then Put([], "Company Name", page.heading.value) else [];
    if page.heading.Some? {
      PutKeys([], "Company Name", page.heading.value);
    }
    if PriceValue(page).Some? {
      PutKeys(named, "Current Price", PriceValue(page).value);
    }
    StoreMetricsValid(Priced(page), page, MetricTable);
    if HighLowFallback(page).Some? {
      PutKeys(Measured(page), "High / Low", HighLowFallback(page).value);
    }
  }

  lemma {:induction false} StoreMetricsValid(data: Metrics, page: Page, table: seq<(string, seq<string>)>)
    requires Valid(data)
    ensures Valid(StoreMetrics(data, page, table))
  {
    if table != [] {
      var init := table[..|table| - 1];
      StoreMetricsValid(data, page, init);
      var v := FirstAcross(page, MetricChain, table[|table| - 1].1);
      if v.Some? {
        PutKeys(StoreMetrics(data, page, init), table[|table| - 1].0, v.value);
      }
    }
  }

  /** What the metric loop leaves under one key: the value found for the last table entry
      with that name, or what was there before when nothing was found for it. */
  lemma {:induction false} StoreMetricsGet(data: Metrics, page: Page, table: seq<(string, seq<string>)>, i: nat)
    requires i < |table|
    requires forall j :: 0 <= j < |table| && j != i ==> table[j].0 != table[i].0
    ensures Get(StoreMetrics(data, page, table), table[i].0)
            == match FirstAcross(page, MetricChain, table[i].1)
               case Some(v) => Some(v)
               case None => Get(data, table[i].0)
  {
    var init := table[..|table| - 1];
    var last := table[|table| - 1];
    var before := StoreMetrics(data, page, init);
    var v := FirstAcross(page, MetricChain, last.1);
    if v.Some? {
      PutGet(before, last.0, v.value, table[i].0);
    }
    if i < |table| - 1 {
      StoreMetricsGet(data, page, init, i);
    } else {
      StoreMetricsUntouched(data, page, init, last.0);
    }
  }

  /** A name no table entry carries is not touched by the metric loop. */
  lemma {:induction false} StoreMetricsUntouched(data: Metrics, page: Page, table: seq<(string, seq<string>)>, k: string)
    requires forall j :: 0 <= j < |table| ==> table[j].0 != k
    ensures Get(StoreMetrics(data, page, table), k) == Get(data, k)
  {
    if table != [] {
      var init := table[..|table| - 1];
      var last := table[|table| - 1];
      StoreMetricsUntouched(data, page, init, k);
      var v := FirstAcross(page, MetricChain, last.1);
      if v.Some? {
        PutGet(StoreMetrics(data, page, init), last.0, v.value, k);
      }
    }
  }

  /** Indices of the metric table in order: the names are pairwise distinct. */
  lemma MetricNamesDistinct(i: nat, j: nat)
    requires i < |MetricTable| && j < |MetricTable| && i != j
    ensures MetricTable[i].0 != MetricTable[j].0
    ensures MetricTable[i].0 != "Company Name" && MetricTable[i].0 != "Current Price"
  {
  }

  /** Every name scrape_company_data can store. */
  const ScrapedNames: seq<string> := [
    "Company Name", "Current Price", "Market Cap", "P/E", "ROCE", "ROE", "Debt", "High / Low",
    "Profit Growth", "Sales Growth", "Cash Flows"
  ]

  /** After the name and the price come the metric names, in table order. */
  lemma ScrapedNamesListMetrics()
    ensures |ScrapedNames| == |MetricTable| + 2
    ensures forall i :: 0 <= i < |MetricTable| ==> ScrapedNames[i + 2] == MetricTable[i].0
  {
  }

  /** After the metric loop a metric name holds the first truthy synonym result. */
  lemma MeasuredMetric(page: Page, i: nat)
    requires i < |MetricTable|
    ensures Get(Measured(page), MetricTable[i].0) == FirstAcross(page, MetricChain, MetricTable[i].1)
  {
    forall j | 0 <= j < |MetricTable| && j != i ensures MetricTable[j].0 != MetricTable[i].0 {
      MetricNamesDistinct(i, j);
    }
    MetricNamesDistinct(i, if i == 0 then 1 else 0);
    StoreMetricsGet(Priced(page), page, MetricTable, i);
    PricedContents(page);
  }

  /** The name and the price are no metric names. */
  lemma MetricNamesAfterNameAndPrice()
    ensures forall j :: 0 <= j < |MetricTable| ==>
              MetricTable[j].0 != "Company Name" && MetricTable[j].0 != "Current Price"
  {
    forall j | 0 <= j < |MetricTable|
      ensures MetricTable[j].0 != "Company Name" && MetricTable[j].0 != "Current Price"
    {
      MetricNamesDistinct(j, if j == 0 then 1 else 0);
    }
  }

  /** Only the "High / Low" entry can differ between the scraped and the measured
      dictionary: it takes the fallback when the metric loop found no truthy value and the
      fallback exists. */
  lemma ScrapedGet(page: Page, k: string)
    ensures Get(ScrapedData(Some(page)), k)
            == if k == "High / Low" && !Truthy(Get(Measured(page), k)) && HighLowFallback(page).Some?
               then HighLowFallback(page)
               else Get(Measured(page), k)
  {
    var measured := Measured(page);
    if !Truthy(Get(measured, "High / Low")) && HighLowFallback(page).Some? {
      PutGet(measured, "High / Low", HighLowFallback(page).value, k);
    }
  }

  /** The scraped dictionary holds the <h1> text under "Company Name" and the formatted price
      under "Current Price". */
  lemma ScrapedNameAndPrice(page: Page)
    ensures Get(ScrapedData(Some(page)), "Company Name") == page.heading
    ensures Get(ScrapedData(Some(page)), "Current Price") == PriceValue(page)
  {
    ScrapedGet(page, "Company Name");
    ScrapedGet(page, "Current Price");
    MetricNamesAfterNameAndPrice();
    StoreMetricsUntouched(Priced(page), page, MetricTable, "Company Name");
    StoreMetricsUntouched(Priced(page), page, MetricTable, "Current Price");
    PricedContents(page);
  }

  /** Every metric other than "High / Low" holds the first truthy synonym result. */
  lemma ScrapedMetric(page: Page, i: nat)
    requires i < |MetricTable| && MetricTable[i].0 != "High / Low"
    ensures Get(ScrapedData(Some(page)), MetricTable[i].0) == FirstAcross(page, MetricChain, MetricTable[i].1)
  {
    ScrapedGet(page, MetricTable[i].0);
    MeasuredMetric(page, i);
  }

  /** "High / Low" holds its first truthy synonym result, or else the joined high and low
      sides. */
  lemma ScrapedHighLow(page: Page)
    ensures Get(ScrapedData(Some(page)), "High / Low")
            == match FirstAcross(page, MetricChain, MetricTable[5].1)
               case Some(v) => Some(v)
               case None => HighLowFallback(page)
  {
    ScrapedGet(page, "High / Low");
    MeasuredMetric(page, 5);
    FirstAcrossFirstTruthy(page, MetricChain, MetricTable[5].1);
  }

  /** No name outside the eleven known ones is ever stored. */
  lemma ScrapedOnlyKnownNames(page: Page, k: string)
    requires k !in ScrapedNames
    ensures Get(ScrapedData(Some(page)), k) == None
  {
    ScrapedGet(page, k);
    ScrapedNamesListMetrics();
    forall j | 0 <= j < |MetricTable| ensures MetricTable[j].0 != k {
      assert MetricTable[j].0 == ScrapedNames[j + 2];
    }
    StoreMetricsUntouched(Priced(page), page, MetricTable, k);
    assert k != ScrapedNames[0] && k != ScrapedNames[1];
    PricedContents(page);
  }

  /** After the name and price steps only those two names can be present. */
  lemma PricedContents(page: Page)
    ensures Get(Priced(page), "Company Name") == page.heading
    ensures Get(Priced(page), "Current Price") == PriceValue(page)
    ensures forall k :: k != "Company Name" && k != "Current Price" ==> Get(Priced(page), k) == None
  {
    var named := if page.heading.Some? then Put([], "Company Name", page.heading.value) else [];
    forall k ensures Get(named, k) == if k == "Company Name" then page.heading else None {
      if page.heading.Some? {
        PutGet([], "Company Name", page.heading.value, k);
      }
    }
    if PriceValue(page).Some? {
      forall k ensures Get(Priced(page), k) == if k == "Current Price" then PriceValue(page) else Get(named, k) {
        PutGet(named, "Current Price", PriceValue(page).value, k);
      }
    }
  }

  const BaseUrl := "https://www.screener.in"

  /** The company page the scraper fetches for a slug. */
  function CompanyUrl(slug: string): string
  {
    BaseUrl + "/company/" + slug + "/"
  }

  const NotFoundAdvice: string :=
    "' not found in Nifty 50. Please use company name or NSE symbol (e.g., 'tcs', 'reliance', 'hdfcbank')."

  /** The error text for a query that resolves to no stock. */
  function NotFoundMessage(query: string): string
  {
    "Stock '" + query + NotFoundAdvice
  }

  /** The error text for a stock whose page yielded nothing. */
  function ScrapeFailedMessage(query: string): string
  {
    "Could not scrape data for '" + query + "'"
  }

  /** The keys get_stock_data adds to a non-empty scrape: the slug, the record's name when
      the page gave no truthy name, and the symbol. */
  function Enrich(scraped: Metrics, info: StockInfo): Metrics
  {
    var withSlug := Put(scraped, "slug", info.slug);
    var named := if Truthy(Get(withSlug, "Company Name")) then withSlug
                 else Put(withSlug, "Company Name", info.name);
    Put(named, "NSE Symbol", info.symbol)
  }

  /** Enriching sets "slug" and "NSE Symbol" from the record, keeps a truthy scraped
      company name and otherwise uses the record's, and leaves every other key as scraped. */
  lemma EnrichGet(scraped: Metrics, info: StockInfo, k: string)
    ensures Get(Enrich(scraped, info), k)
            == if k == "NSE Symbol" then Some(info.symbol)
               else if k == "slug" then Some(info.slug)
               else if k == "Company Name" && !Truthy(Get(scraped, k)) then Some(info.name)
               else Get(scraped, k)
  {
    var withSlug := Put(scraped, "slug", info.slug);
    PutGet(scraped, "slug", info.slug, k);
    PutGet(scraped, "slug", info.slug, "Company Name");
    var named := if Truthy(Get(withSlug, "Company Name")) then withSlug
                 else Put(withSlug, "Company Name", info.name);
    if !Truthy(Get(withSlug, "Company Name")) {
      PutGet(withSlug, "Company Name", info.name, k);
    }
    PutGet(named, "NSE Symbol", info.symbol, k);
  }

  /** Enriching keeps the keys distinct. */
  lemma EnrichValid(scraped: Metrics, info: StockInfo)
    requires Valid(scraped)
    ensures Valid(Enrich(scraped, info))
  {
    var withSlug := Put(scraped, "slug", info.slug);
    PutKeys(scraped, "slug", info.slug);
    if !Truthy(Get(withSlug, "Company Name")) {
      PutKeys(withSlug, "Company Name", info.name);
    }
    var named := if Truthy(Get(withSlug, "Company Name")) then withSlug
                 else Put(withSlug, "Company Name", info.name);
    PutKeys(named, "NSE Symbol", info.symbol);
  }

  /** get_stock_data: resolve the query, scrape the company page, and add the record's
      slug, name (only when the page gave none) and symbol. Either the result holds the
      single key "error", or it holds the scraped metrics plus those three keys. */
  method GetStockData(index: Index, query: string, fetch: string -> Option<Page>) returns (data: Metrics)
    ensures SearchStock(index, query).None? ==> data == [("error", NotFoundMessage(query))]
    ensures SearchStock(index, query).Some? ==>
      var info := SearchStock(index, query).value;
      var scraped := ScrapedData(fetch(CompanyUrl(info.slug)));
      && (scraped == [] ==> data == [("error", ScrapeFailedMessage(query))])
      && (scraped != [] ==> data == Enrich(scraped, info) && Valid(data) && Get(data, "error") == None)
  {
    var stockInfo := SearchStock(index, query);
    if stockInfo.None? {
      return [("error", NotFoundMessage(query))];
    }
    var slug := stockInfo.value.slug;
    var fetched := fetch(CompanyUrl(slug));
    data := ScrapeCompanyData(fetched);
    if data == [] {
      return [("error", ScrapeFailedMessage(query))];
    }
    ghost var scraped := data;
    data := Put(data, "slug", slug);
    if !Truthy(Get(data, "Company Name")) {
      data := Put(data, "Company Name", stockInfo.value.name);
    }
    data := Put(data, "NSE Symbol", stockInfo.value.symbol);
    EnrichValid(scraped, stockInfo.value);
    EnrichGet(scraped, stockInfo.value, "error");
    ScrapedNeverHoldsError(fetched);
  }

  /** A scraped dictionary never holds the "error" key. */
  lemma ScrapedNeverHoldsError(fetched: Option<Page>)
    ensures Get(ScrapedData(fetched), "error") == None
  {
    if fetched.Some? {
      assert "error" !in ScrapedNames;
      ScrapedOnlyKnownNames(fetched.value, "error");
    }
  }
}
