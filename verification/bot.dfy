/**
 * FinSightBot.format_metrics: the Telegram message that shows the metric dictionary
 * get_stock_data returns.
 */
module Bot {
  import opened Wrappers
  import opened Text
  import opened OrderedMaps
  import opened StockIndex
  import opened MetricExtraction

  /** The labels shown, in display order. */
  const MetricLabels: seq<string> := [
    "Current Price", "Market Cap", "P/E", "ROCE", "ROE",
    "Debt/Equity", "High / Low", "Profit Growth", "Sales Growth", "Cash Flows"
  ]

  const Header: string := "\U{1F4CA} **Stock Metrics**\n"
  const LimitedNotice: string := "\U{26A0}\U{FE0F} Limited data available for this stock."
  const ErrorMark: string := "\U{274C} "

  /** One metric line. */
  function Bullet(metric: string, value: string): string
  {
    "\U{2022} **" + metric + "**: " + value
  }

  /** The company line: the "Company Name" entry, or "Stock" when there is none. */
  function NameLine(data: OrderedMap<string>): string
  {
    var name := match Get(data, "Company Name") case Some(n) => n case None => "Stock";
    "**" + name + "**\n"
  }

  /** metrics_found after the loop over `labels`: one line per label with a truthy value,
      in label order. */
  function Bullets(data: OrderedMap<string>, labels: seq<string>): seq<string>
  {
    if labels == [] then []
    else
      var metric := labels[|labels| - 1];
      var value := Get(data, metric);
      Bullets(data, labels[..|labels| - 1]) + (if Truthy(value) then [Bullet(metric, value.value)] else [])
  }

  /** The lines joined into the message of a dictionary without "error". */
  function MetricLines(data: OrderedMap<string>): seq<string>
  {
    var found := Bullets(data, MetricLabels);
    [Header, NameLine(data)] + (if found != [] then found else [LimitedNotice])
  }

  /** The message format_metrics returns. */
  function Formatted(data: OrderedMap<string>): string
  {
    match Get(data, "error")
    case Some(e) => ErrorMark + e
    case None => Join(MetricLines(data), "\n")
  }

  /** format_metrics. */
  method FormatMetrics(data: OrderedMap<string>) returns (text: string)
    ensures text == Formatted(data)
    ensures "error" in Keys(data) ==> text == ErrorMark + Get(data, "error").value
  {
    var error := Get(data, "error");
    if error.Some? {
      return ErrorMark + error.value;
    }
    var lines := [Header];
    var companyName := match Get(data, "Company Name") case Some(n) => n case None => "Stock";
    lines := lines + ["**" + companyName + "**\n"];
    assert lines == [Header, NameLine(data)];
    var metricsFound: seq<string> := [];
    for i := 0 to |MetricLabels|
      invariant metricsFound == Bullets(data, MetricLabels[..i])
    {
      assert MetricLabels[..i + 1][..i] == MetricLabels[..i];
      var value := Get(data, MetricLabels[i]);
      if Truthy(value) {
        metricsFound := metricsFound + [Bullet(MetricLabels[i], value.value)];
      }
    }
    assert MetricLabels[..|MetricLabels|] == MetricLabels;
    if metricsFound != [] {
      lines := lines + metricsFound;
    } else {
      lines := lines + [LimitedNotice];
    }
    assert lines == MetricLines(data);
    text := Join(lines, "\n");
  }

  /** The loop over two runs of labels yields the lines of the first run, then those of the
      second: the lines follow label order. */
  lemma {:induction false} BulletsConcat(data: OrderedMap<string>, a: seq<string>, b: seq<string>)
    ensures Bullets(data, a + b) == Bullets(data, a) + Bullets(data, b)
  {
    if b != [] {
      BulletsConcat(data, a, b[..|b| - 1]);
      assert (a + b)[..|a + b| - 1] == a + b[..|b| - 1];
    } else {
      assert a + b == a;
    }
  }

  /** A single label contributes its line exactly when its value is truthy. */
  lemma BulletsOfOne(data: OrderedMap<string>, metric: string)
    ensures Bullets(data, [metric])
            == if Truthy(Get(data, metric)) then [Bullet(metric, Get(data, metric).value)] else []
  {
    assert [metric][..0] == [];
  }

  /** No line at all exactly when no label has a truthy value. */
  lemma {:induction false} BulletsEmpty(data: OrderedMap<string>, labels: seq<string>)
    ensures Bullets(data, labels) == [] <==> forall i :: 0 <= i < |labels| ==> !Truthy(Get(data, labels[i]))
  {
    if labels != [] {
      var init := labels[..|labels| - 1];
      BulletsEmpty(data, init);
      assert forall i :: 0 <= i < |init| ==> init[i] == labels[i];
    }
  }

  /** The lines depend only on the values under the listed labels: no other key can show up. */
  lemma {:induction false} BulletsOnlyListed(d1: OrderedMap<string>, d2: OrderedMap<string>, labels: seq<string>)
    requires forall i :: 0 <= i < |labels| ==> Get(d1, labels[i]) == Get(d2, labels[i])
    ensures Bullets(d1, labels) == Bullets(d2, labels)
  {
    if labels != [] {
      var init := labels[..|labels| - 1];
      assert forall i :: 0 <= i < |init| ==> init[i] == labels[i];
      BulletsOnlyListed(d1, d2, init);
    }
  }

  /** Two dictionaries without "error" that agree on "Company Name" and on every listed
      label give the same message, whatever else they hold ("Debt", "slug", "NSE Symbol",
      ...). */
  lemma FormattedIgnoresUnlistedKeys(d1: OrderedMap<string>, d2: OrderedMap<string>)
    requires Get(d1, "error").None? && Get(d2, "error").None?
    requires Get(d1, "Company Name") == Get(d2, "Company Name")
    requires forall i :: 0 <= i < |MetricLabels| ==> Get(d1, MetricLabels[i]) == Get(d2, MetricLabels[i])
    ensures Formatted(d1) == Formatted(d2)
  {
    BulletsOnlyListed(d1, d2, MetricLabels);
  }

  /** Under the header and the company line comes the single "Limited data" line exactly
      when no listed label has a truthy value; otherwise the metric lines. */
  lemma LimitedNoticeExactly(data: OrderedMap<string>)
    ensures MetricLines(data)[..2] == [Header, NameLine(data)]
    ensures MetricLines(data)[2..] == [LimitedNotice]
            <==> forall i :: 0 <= i < |MetricLabels| ==> !Truthy(Get(data, MetricLabels[i]))
    ensures Bullets(data, MetricLabels) != [] ==> MetricLines(data)[2..] == Bullets(data, MetricLabels)
  {
    var found := Bullets(data, MetricLabels);
    BulletsEmpty(data, MetricLabels);
    if found != [] {
      BulletShape(data, MetricLabels);
      assert found[0][0] == '\U{2022}';
      assert LimitedNotice[0] == '\U{26A0}';
      assert MetricLines(data)[2..] == found;
    }
  }

  /** Every metric line starts with the bullet sign. */
  lemma {:induction false} BulletShape(data: OrderedMap<string>, labels: seq<string>)
    ensures forall j :: 0 <= j < |Bullets(data, labels)| ==>
              |Bullets(data, labels)[j]| > 0 && Bullets(data, labels)[j][0] == '\U{2022}'
  {
    if labels != [] {
      BulletShape(data, labels[..|labels| - 1]);
    }
  }

  /** The "Debt/Equity" label never finds a value in a dictionary get_stock_data builds
      from a scraped page. */
  lemma DebtEquityNeverShown(page: Page, info: StockInfo)
    ensures Get(Enrich(ScrapedData(Some(page)), info), "Debt/Equity") == None
  {
    EnrichGet(ScrapedData(Some(page)), info, "Debt/Equity");
    DebtEquityIsNoScrapedName();
    ScrapedOnlyKnownNames(page, "Debt/Equity");
  }

  /** Helper, a fact about the constants. */
  lemma DebtEquityIsNoScrapedName()
    ensures "Debt/Equity" !in ScrapedNames
  {
  }

  /** The debt metric the scraper stores sits under "Debt", which is no label, so it is never
      shown either. */
  lemma DebtNeverShown(page: Page)
    ensures "Debt" !in MetricLabels
    ensures Get(ScrapedData(Some(page)), "Debt") == FirstAcross(page, MetricChain, MetricTable[4].1)
  {
    ScrapedMetric(page, 4);
  }
}
