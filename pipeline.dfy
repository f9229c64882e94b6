/** The reshaping of each flow page after it is read, and fetch on top of
    it. The page tables are inputs: downloading and HTML parsing are not
    part of this model, and neither are the volume and price downloads. */
module Pipeline {
  import opened Outcomes
  import opened Cells
  import opened Frames
  import opened Normalise
  import opened Headers
  import opened Derive

  /** What fetch_btc_etf and fetch_eth_etf return. */
  datatype Source = Source(flow: Frame, original: Frame, funds: seq<string>)

  /** Summary rows under the Bitcoin table. */
  const BtcFooter: nat := 4

  /** Summary rows under the Ethereum table. */
  const EthFooter: nat := 1

  /** What fetch needs of a flow table: the derivation's requirements,
      and a Date column holding only dates. */
  predicate Ready(flow: Frame) {
    && WellFormed(flow) && NumericExceptDate(flow)
    && Get(flow, "Date").Ok?
    && forall j :: 0 <= j < |Get(flow, "Date").value| ==> Get(flow, "Date").value[j].When?
  }

  /** A cleaned table is ready, with the rows of its input. */
  lemma CleanFlowNumeric(df: Frame, toDate: string -> Option<Date>)
    requires WellFormed(df) && CleanEtfData(df, toDate).Ok?
    ensures Ready(CleanEtfData(df, toDate).value.0)
    ensures CleanEtfData(df, toDate).value.0.height == df.height
  {
    CleanedTable(df, toDate);
    MoneyHasNoDate(df);
    CleanShapeNumeric(Money(df), CleanEtfData(df, toDate).value.0);
    CleanShapeDates(Money(df), CleanEtfData(df, toDate).value.0);
  }

  /** The Date column of a cleaned table is its last one. */
  lemma CleanShapeDates(money: seq<Column>, clean: Frame)
    requires "Date" !in Labels(money)
    requires |clean.columns| == |money| + 1
    requires forall i :: 0 <= i < |money| ==> Cleaned(money[i], clean.columns[i])
    requires clean.columns[|money|].name == "Date"
    ensures Get(clean, "Date") == Ok(clean.columns[|money|].cells)
  {
    forall j | 0 <= j < |money| ensures clean.columns[j].name != "Date" {
      assert Labels(money)[j] == money[j].name;
    }
    FindFirst(clean.columns, "Date", |money|);
  }

  lemma CleanShapeNumeric(money: seq<Column>, clean: Frame)
    requires |clean.columns| == |money| + 1
    requires forall i :: 0 <= i < |money| ==> Cleaned(money[i], clean.columns[i])
    requires clean.columns[|money|].name == "Date"
    ensures NumericExceptDate(clean)
  {
    forall c | c in clean.columns && c.name != "Date" ensures AllNum(c.cells) {
      var i :| 0 <= i < |clean.columns| && clean.columns[i] == c;
      assert i < |money|;
      assert Cleaned(money[i], c);
    }
  }

  /** The Bitcoin page: cut the summary rows, list the funds, clean. */
  function ReshapeBtc(raw: Frame, toDate: string -> Option<Date>): (r: Result<Source>)
    requires WellFormed(raw)
    ensures r.Ok? ==> Ready(r.value.flow) && r.value.flow.height == Kept(raw.height, BtcFooter)
    ensures r.Ok? ==> forall x :: x in r.value.funds <==> x in Labels(raw.columns) && x != "Date" && x != "Total"
    ensures "Date" !in Labels(raw.columns) || "Total" !in Labels(raw.columns) ==>
      r.Err? && r.error.MissingColumn? && r.error.name in ["Date", "Total"] && r.error.name !in Labels(raw.columns)
  {
    var trimmed := DropFooter(raw, BtcFooter);
    var funds :- BtcFunds(trimmed);
    var cleaned :- CleanEtfData(trimmed, toDate);
    CleanFlowNumeric(trimmed, toDate);
    Ok(Source(cleaned.0, cleaned.1, funds))
  }

  /** The Ethereum page: drop the third header level, list the funds,
      join and rename the labels, cut the summary row, clean. */
  function ReshapeEth(raw: EthTable, toDate: string -> Option<Date>): (r: Result<Source>)
    requires EthWellFormed(raw)
    ensures r.Ok? ==> Ready(r.value.flow) && r.value.flow.height == Kept(raw.height, EthFooter)
    ensures r.Ok? ==> EthFunds(HeaderPairs(raw)) == Ok(r.value.funds)
    ensures EthFunds(HeaderPairs(raw)).Err? ==> r == Err(MissingColumn("Total"))
  {
    var funds :- EthFunds(HeaderPairs(raw));
    var trimmed := DropFooter(Flatten(raw), EthFooter);
    var cleaned :- CleanEtfData(trimmed, toDate);
    CleanFlowNumeric(trimmed, toDate);
    Ok(Source(cleaned.0, cleaned.1, funds))
  }

  /** The table used when the page cannot be fetched: two dates and a
      zero Total. */
  function FallbackTable(): (f: Frame)
    ensures WellFormed(f)
  {
    Frame([Column("Date", [Text(FirstFallbackDay), Text(SecondFallbackDay)]), ZeroTotal], 2)
  }

  function ReshapeFallback(toDate: string -> Option<Date>): (r: Result<Source>)
    ensures r.Ok? ==> Ready(r.value.flow) && r.value.funds == []
  {
    var cleaned :- CleanEtfData(FallbackTable(), toDate);
    CleanFlowNumeric(FallbackTable(), toDate);
    Ok(Source(cleaned.0, cleaned.1, []))
  }

  /** The two literal dates of the fallback table. */
  const FirstFallbackDay: string := "11 Jan 2024"
  const SecondFallbackDay: string := "12 Jan 2024"

  /** The fallback's Total column, zero on both days. */
  const ZeroTotal: Column := Column("Total", [Num(0.0), Num(0.0)])

  /** The fallback dates as the date reader gives them. */
  function FallbackDates(toDate: string -> Option<Date>): seq<Cell>
    requires toDate(FirstFallbackDay).Some? && toDate(SecondFallbackDay).Some?
  {
    [When(toDate(FirstFallbackDay).value), When(toDate(SecondFallbackDay).value)]
  }

  /** The fallback cleans exactly when the date reader reads both of its
      dates, and then the flow is the zero Total followed by the two dates,
      the original copy is the table with its dates read, and no fund is
      listed. */
  lemma FallbackSource(toDate: string -> Option<Date>)
    ensures ReshapeFallback(toDate).Ok? <==> toDate(FirstFallbackDay).Some? && toDate(SecondFallbackDay).Some?
    ensures ReshapeFallback(toDate).Ok? ==>
      ReshapeFallback(toDate) == Ok(Source(
        Frame([ZeroTotal, Column("Date", FallbackDates(toDate))], 2),
        Frame([Column("Date", FallbackDates(toDate)), ZeroTotal], 2),
        []))
  {
    FallbackReadable(toDate);
    if CleanEtfData(FallbackTable(), toDate).Ok? {
      FallbackCleanTable(toDate);
      FallbackOriginalTable(toDate);
    }
  }

  lemma FallbackColumns()
    ensures Get(FallbackTable(), "Date") == Ok([Text(FirstFallbackDay), Text(SecondFallbackDay)])
    ensures Money(FallbackTable()) == [ZeroTotal]
    ensures Find(FallbackTable().columns, "Date") == Some(0)
  {
    FindFirst(FallbackTable().columns, "Date", 0);
  }

  lemma FallbackReadable(toDate: string -> Option<Date>)
    ensures CleanEtfData(FallbackTable(), toDate).Ok? <==>
      toDate(FirstFallbackDay).Some? && toDate(SecondFallbackDay).Some?
  {
    var df := FallbackTable();
    FallbackColumns();
    assert MoneyCleans([ZeroTotal]) by {
      assert CleanAmount(Num(0.0)) == Some(0.0);
    }
    var texts := [Text(FirstFallbackDay), Text(SecondFallbackDay)];
    assert DatesReadable(texts, toDate) <==> toDate(FirstFallbackDay).Some? && toDate(SecondFallbackDay).Some? by {
      assert DateOf(texts[0], toDate) == toDate(FirstFallbackDay);
      assert DateOf(texts[1], toDate) == toDate(SecondFallbackDay);
    }
    CleanOutcome(df, toDate);
  }

  lemma FallbackCleanTable(toDate: string -> Option<Date>)
    requires CleanEtfData(FallbackTable(), toDate).Ok?
    ensures toDate(FirstFallbackDay).Some? && toDate(SecondFallbackDay).Some?
    ensures CleanEtfData(FallbackTable(), toDate).value.0 == Frame([ZeroTotal, Column("Date", FallbackDates(toDate))], 2)
  {
    FallbackReadable(toDate);
    FallbackColumns();
    FallbackParsed(toDate);
    CleanOneColumn(FallbackTable(), toDate, FallbackDates(toDate));
  }

  /** Cleaning a table whose only money column is the zero Total. */
  lemma CleanOneColumn(df: Frame, toDate: string -> Option<Date>, dates: seq<Cell>)
    requires WellFormed(df) && CleanEtfData(df, toDate).Ok?
    requires Money(df) == [ZeroTotal] && df.height == 2
    requires Get(df, "Date").Ok? && ParseDates(Get(df, "Date").value, toDate) == Ok(dates)
    ensures CleanEtfData(df, toDate).value.0 == Frame([ZeroTotal, Column("Date", dates)], 2)
  {
    CleanedTable(df, toDate);
    var clean := CleanEtfData(df, toDate).value.0;
    assert Cleaned(ZeroTotal, clean.columns[0]);
    assert |dates| == 2;
    FallbackClean(clean, dates);
  }

  lemma FallbackClean(clean: Frame, dates: seq<Cell>)
    requires |dates| == 2
    requires clean.height == 2 && |clean.columns| == 2
    requires Cleaned(ZeroTotal, clean.columns[0])
    requires clean.columns[1].name == "Date" && |clean.columns[1].cells| == 2
    requires forall j :: 0 <= j < 2 ==> clean.columns[1].cells[j] == dates[j]
    ensures clean == Frame([ZeroTotal, Column("Date", dates)], 2)
  {
    assert clean.columns[0].cells == ZeroTotal.cells by {
      assert CleanAmount(Num(0.0)) == Some(0.0);
    }
    assert clean.columns[1].cells == dates;
  }

  lemma FallbackOriginalTable(toDate: string -> Option<Date>)
    requires CleanEtfData(FallbackTable(), toDate).Ok?
    ensures toDate(FirstFallbackDay).Some? && toDate(SecondFallbackDay).Some?
    ensures CleanEtfData(FallbackTable(), toDate).value.1 == Frame([Column("Date", FallbackDates(toDate)), ZeroTotal], 2)
  {
    FallbackReadable(toDate);
    FallbackColumns();
    FallbackParsed(toDate);
    OriginalOneColumn(FallbackTable(), toDate, FallbackDates(toDate));
  }

  lemma FallbackParsed(toDate: string -> Option<Date>)
    requires toDate(FirstFallbackDay).Some? && toDate(SecondFallbackDay).Some?
    ensures ParseDates([Text(FirstFallbackDay), Text(SecondFallbackDay)], toDate) == Ok(FallbackDates(toDate))
  {
    var texts := [Text(FirstFallbackDay), Text(SecondFallbackDay)];
    var p := ParseDates(texts, toDate);
    assert DateOf(texts[0], toDate).Some? && DateOf(texts[1], toDate).Some?;
    assert p.Ok? && |p.value| == 2;
    assert p.value[0] == FallbackDates(toDate)[0] && p.value[1] == FallbackDates(toDate)[1];
    assert p.value == FallbackDates(toDate);
  }

  /** The original copy of a table made of Date and then the zero Total. */
  lemma OriginalOneColumn(df: Frame, toDate: string -> Option<Date>, dates: seq<Cell>)
    requires WellFormed(df) && CleanEtfData(df, toDate).Ok?
    requires |df.columns| == 2 && df.columns[0].name == "Date" && df.columns[1] == ZeroTotal && df.height == 2
    requires Get(df, "Date").Ok? && ParseDates(Get(df, "Date").value, toDate) == Ok(dates)
    ensures CleanEtfData(df, toDate).value.1 == Frame([Column("Date", dates), ZeroTotal], 2)
  {
    OriginalCopy(df, toDate);
    FindFirst(df.columns, "Date", 0);
    OriginalShape(df, CleanEtfData(df, toDate).value.1, dates);
  }

  lemma OriginalShape(df: Frame, original: Frame, dates: seq<Cell>)
    requires |df.columns| == 2 && df.columns[0].name == "Date" && df.columns[1] == ZeroTotal
    requires original.height == 2
    requires Labels(original.columns) == Labels(df.columns)
    requires Get(original, "Date") == Ok(dates)
    requires Find(df.columns, "Date") == Some(0)
    requires forall i :: 0 <= i < |df.columns| && Find(df.columns, "Date") != Some(i) ==>
      original.columns[i] == df.columns[i]
    ensures original == Frame([Column("Date", dates), ZeroTotal], 2)
  {
    assert Labels(df.columns) == ["Date", "Total"];
    assert |original.columns| == 2;
    assert original.columns[0].name == "Date";
    FindFirst(original.columns, "Date", 0);
    assert original.columns[0].cells == dates;
    assert original.columns[1] == df.columns[1];
  }

  /** etf_flow.Date[0]: the date of the first row, which exists exactly
      when the flow has a row. fetch reads it from a ready flow, whose Date
      column holds only dates. */
  function FirstDate(flow: Frame): (r: Result<Date>)
    requires Ready(flow)
    ensures r.Ok? <==> flow.height > 0
    ensures r.Err? ==> r == Err(NoRows)
    ensures r.Ok? ==> Get(flow, "Date").value[0] == When(r.value)
  {
    var dates := Get(flow, "Date").value;
    assert |dates| == flow.height;
    if flow.height == 0 then Err(NoRows) else Ok(dates[0].date)
  }

  /** What fetch returns of the flow: the source, the first date (from
      which volumes and prices are downloaded) and the derived series. */
  datatype Fetched = Fetched(source: Source, start: Date, series: Series)

  /** fetch_btc_etf over the outcome of the request: None stands for a
      response whose status is not 200, which gives the fallback table. */
  function FetchBtcEtf(page: Option<Frame>, toDate: string -> Option<Date>): (r: Result<Source>)
    requires page.Some? ==> WellFormed(page.value)
    ensures r.Ok? ==> Ready(r.value.flow)
    ensures page.None? ==> r == ReshapeFallback(toDate)
  {
    match page
    case None => ReshapeFallback(toDate)
    case Some(raw) => ReshapeBtc(raw, toDate)
  }

  /** fetch_eth_etf, likewise. */
  function FetchEthEtf(page: Option<EthTable>, toDate: string -> Option<Date>): (r: Result<Source>)
    requires page.Some? ==> EthWellFormed(page.value)
    ensures r.Ok? ==> Ready(r.value.flow)
    ensures page.None? ==> r == ReshapeFallback(toDate)
  {
    match page
    case None => ReshapeFallback(toDate)
    case Some(raw) => ReshapeEth(raw, toDate)
  }

  /** The page fetch reads: the Bitcoin page for "BTC", the Ethereum page
      for any other asset. */
  function FetchSource(asset: string, btc: Option<Frame>, eth: Option<EthTable>, toDate: string -> Option<Date>): (r: Result<Source>)
    requires btc.Some? ==> WellFormed(btc.value)
    requires eth.Some? ==> EthWellFormed(eth.value)
    ensures r.Ok? ==> Ready(r.value.flow)
    ensures asset == "BTC" ==> r == FetchBtcEtf(btc, toDate)
    ensures asset != "BTC" ==> r == FetchEthEtf(eth, toDate)
  {
    if asset == "BTC" then FetchBtcEtf(btc, toDate) else FetchEthEtf(eth, toDate)
  }

  /** fetch(asset): the Bitcoin page for "BTC", the Ethereum page for any
      other asset; then the first date and the derived series. A result
      starts at the first Date cell of a ready flow, and its total table
      is exactly the Date and Total columns. */
  function Fetch(asset: string, btc: Option<Frame>, eth: Option<EthTable>, toDate: string -> Option<Date>): (r: Result<Fetched>)
    requires btc.Some? ==> WellFormed(btc.value)
    requires eth.Some? ==> EthWellFormed(eth.value)
    ensures r.Ok? ==> Ready(r.value.source.flow) && r.value.source.flow.height > 0
    ensures r.Ok? ==> Get(r.value.source.flow, "Date").value[0] == When(r.value.start)
    ensures r.Ok? ==> Labels(r.value.series.total.columns) == ["Date", "Total"]
  {
    var source :- FetchSource(asset, btc, eth, toDate);
    var start :- FirstDate(source.flow);
    var series :- DeriveSeries(source.flow);
    SplitTotal(source.flow);
    Ok(Fetched(source, start, series))
  }

  /** A page with no more rows than its summary footer leaves an empty
      flow, and fetch then fails at the first date, and only then. */
  lemma ShortPageHasNoRows(asset: string, btc: Option<Frame>, eth: Option<EthTable>, toDate: string -> Option<Date>)
    requires btc.Some? ==> WellFormed(btc.value)
    requires eth.Some? ==> EthWellFormed(eth.value)
    ensures asset == "BTC" && btc.Some? && ReshapeBtc(btc.value, toDate).Ok? ==>
      (Fetch(asset, btc, eth, toDate) == Err(NoRows) <==> btc.value.height <= BtcFooter)
    ensures asset != "BTC" && eth.Some? && ReshapeEth(eth.value, toDate).Ok? ==>
      (Fetch(asset, btc, eth, toDate) == Err(NoRows) <==> eth.value.height <= EthFooter)
  {
    if asset == "BTC" && btc.Some? && ReshapeBtc(btc.value, toDate).Ok? {
      DeriveOutcome(ReshapeBtc(btc.value, toDate).value.flow);
    }
    if asset != "BTC" && eth.Some? && ReshapeEth(eth.value, toDate).Ok? {
      DeriveOutcome(ReshapeEth(eth.value, toDate).value.flow);
    }
  }

  /** When a page cannot be fetched, fetch still succeeds once the two
      fallback dates are read: it starts at the first of them, lists no
      fund, and the running total is zero on both days. */
  lemma FallbackFetch(asset: string, toDate: string -> Option<Date>)
    requires toDate(FirstFallbackDay).Some? && toDate(SecondFallbackDay).Some?
    ensures var r := Fetch(asset, None, None, toDate);
      && r.Ok? && r.value.start == toDate(FirstFallbackDay).value && r.value.source.funds == []
      && r.value.series.cumTotal == Frame([Column("Date", FallbackDates(toDate)), ZeroTotal], 2)
  {
    FallbackSource(toDate);
    var source := ReshapeFallback(toDate).value;
    assert FetchSource(asset, None, None, toDate) == Ok(source);
    FallbackSeries(source.flow, FallbackDates(toDate));
    FetchOf(asset, None, None, toDate, source);
  }

  /** fetch on a page that gives a source with rows and both Date and
      Total: the source, its first date and its series. */
  lemma FetchOf(asset: string, btc: Option<Frame>, eth: Option<EthTable>, toDate: string -> Option<Date>, source: Source)
    requires btc.Some? ==> WellFormed(btc.value)
    requires eth.Some? ==> EthWellFormed(eth.value)
    requires FetchSource(asset, btc, eth, toDate) == Ok(source)
    requires Ready(source.flow) && FirstDate(source.flow).Ok? && DeriveSeries(source.flow).Ok?
    ensures Fetch(asset, btc, eth, toDate) ==
      Ok(Fetched(source, FirstDate(source.flow).value, DeriveSeries(source.flow).value))
  {
  }

  /** The derivation on the fallback flow: the total table's running sum
      is the zero Total again. */
  lemma FallbackSeries(flow: Frame, dates: seq<Cell>)
    requires flow == Frame([ZeroTotal, Column("Date", dates)], 2) && |dates| == 2
    requires forall j :: 0 <= j < 2 ==> dates[j].When?
    ensures Ready(flow)
    ensures FirstDate(flow) == Ok(dates[0].date)
    ensures DeriveSeries(flow).Ok?
    ensures DeriveSeries(flow).value.cumTotal == Frame([Column("Date", dates), ZeroTotal], 2)
  {
    assert Labels(flow.columns) == ["Total", "Date"];
    FindFirst(flow.columns, "Date", 1);
    FindFirst(flow.columns, "Total", 0);
    assert NumericExceptDate(flow) by {
      forall c | c in flow.columns && c.name != "Date" ensures AllNum(c.cells) {
        assert c == ZeroTotal;
      }
    }
    DeriveOutcome(flow);
    CumulativeSeries(flow);
    ZeroRunningTotals();
  }

  lemma ZeroRunningTotals()
    ensures Nums(PrefixSums(Values([Num(0.0), Num(0.0)]))) == [Num(0.0), Num(0.0)]
  {
    assert Values([Num(0.0), Num(0.0)]) == [0.0, 0.0];
    PrefixSumsRecurrence([0.0, 0.0]);
  }
}
