/** clean_etf_data: the Date column is parsed as dates, and the money
    columns go through the whole-table rewrites in the order the code
    applies them: outflow parentheses, thousands separators, the dash
    placeholder, then a numeric conversion that fails the whole call on the
    first cell it cannot read. */
module Normalise {
  import opened Outcomes
  import opened Cells
  import opened Frames

  /** What pd.to_datetime makes of one Date cell. The date reader for text
      is a parameter of the model; a cell that is already a date is kept,
      and a number is not read as a date. */
  function DateOf(c: Cell, toDate: string -> Option<Date>): Option<Date> {
    match c
    case Text(s) => toDate(s)
    case When(d) => Some(d)
    case Num(_) => None
  }

  /** pd.to_datetime over the Date column: every cell read as a date, or
      the first row that cannot be read. */
  function ParseDates(cells: seq<Cell>, toDate: string -> Option<Date>): (r: Result<seq<Cell>>)
    ensures r.Ok? <==> forall i :: 0 <= i < |cells| ==> DateOf(cells[i], toDate).Some?
    ensures r.Ok? ==> |r.value| == |cells|
    ensures r.Ok? ==> forall i :: 0 <= i < |cells| ==> r.value[i] == When(DateOf(cells[i], toDate).value)
    ensures r.Err? ==> r.error.NotADate? && r.error.row < |cells|
    ensures r.Err? ==> DateOf(cells[r.error.row], toDate).None?
    ensures r.Err? ==> forall j :: 0 <= j < r.error.row ==> DateOf(cells[j], toDate).Some?
  {
    if |cells| == 0 then Ok([])
    else
      var n := |cells| - 1;
      var init :- ParseDates(cells[..n], toDate);
      match DateOf(cells[n], toDate)
      case None => Err(NotADate(n))
      case Some(d) => Ok(init + [When(d)])
  }

  /** df.replace applied cell by cell to every column. */
  function Replace(f: Frame, g: Cell -> Cell): (r: Frame)
    ensures r.height == f.height && |r.columns| == |f.columns|
    ensures forall i :: 0 <= i < |f.columns| ==>
      r.columns[i].name == f.columns[i].name && |r.columns[i].cells| == |f.columns[i].cells|
    ensures forall i, j :: 0 <= i < |f.columns| && 0 <= j < |f.columns[i].cells| ==>
      r.columns[i].cells[j] == g(f.columns[i].cells[j])
  {
    Frame(seq(|f.columns|, i requires 0 <= i < |f.columns| =>
      var c := f.columns[i];
      Column(c.name, seq(|c.cells|, j requires 0 <= j < |c.cells| => g(c.cells[j])))), f.height)
  }

  /** Every cell is one that pd.to_numeric can read (text or a number);
      compare AllNum, which says the cells already are numbers. */
  predicate Convertible(cells: seq<Cell>) {
    forall j :: 0 <= j < |cells| ==> ToNumber(cells[j]).Some?
  }

  /** pd.to_numeric over one column: numbers in the same rows, or the
      first row it rejects. */
  function ToNumericCells(name: string, cells: seq<Cell>): (r: Result<seq<Cell>>)
    ensures r.Ok? <==> Convertible(cells)
    ensures r.Ok? ==> |r.value| == |cells|
    ensures r.Ok? ==> forall j :: 0 <= j < |cells| ==> r.value[j] == Num(ToNumber(cells[j]).value)
    ensures r.Err? ==> r.error.NotNumeric? && r.error.name == name && r.error.row < |cells|
    ensures r.Err? ==> ToNumber(cells[r.error.row]).None?
    ensures r.Err? ==> forall j :: 0 <= j < r.error.row ==> ToNumber(cells[j]).Some?
  {
    if |cells| == 0 then Ok([])
    else
      var n := |cells| - 1;
      var init :- ToNumericCells(name, cells[..n]);
      match ToNumber(cells[n])
      case None => Err(NotNumeric(name, n))
      case Some(v) => Ok(init + [Num(v)])
  }

  /** df.apply(pd.to_numeric): the columns one after the other, failing at
      the first column that holds a cell it cannot read. */
  function ToNumericColumns(cols: seq<Column>): (r: Result<seq<Column>>)
    ensures r.Ok? <==> forall i :: 0 <= i < |cols| ==> Convertible(cols[i].cells)
    ensures r.Ok? ==> |r.value| == |cols|
    ensures r.Ok? ==> forall i :: 0 <= i < |cols| ==>
      r.value[i].name == cols[i].name && ToNumericCells(cols[i].name, cols[i].cells) == Ok(r.value[i].cells)
    ensures r.Err? ==> exists i :: 0 <= i < |cols| && ToNumericCells(cols[i].name, cols[i].cells) == Err(r.error)
  {
    if |cols| == 0 then Ok([])
    else
      var n := |cols| - 1;
      var init :- ToNumericColumns(cols[..n]);
      var last :- ToNumericCells(cols[n].name, cols[n].cells);
      Ok(init + [Column(cols[n].name, last)])
  }

  /** The three rewrites of the money columns, in the order of the code. */
  function Rewrite(money: Frame): Frame {
    Replace(Replace(Replace(money, NegateCell), StripCell), DashCell)
  }

  /** clean_etf_data(df): the cleaned table and the copy whose Date column
      alone is converted. */
  function CleanEtfData(df: Frame, toDate: string -> Option<Date>): (r: Result<(Frame, Frame)>)
    requires WellFormed(df)
    ensures r.Err? ==> r.error == MissingColumn("Date") || r.error.NotADate? || r.error.NotNumeric?
    ensures r.Ok? ==> r.value.0.height == df.height && r.value.1.height == df.height
  {
    var dates :- Get(df, "Date");
    var parsed :- ParseDates(dates, toDate);
    var original := Assign(df, "Date", parsed);
    var money := Drop(df, ["Date"]).value;
    var numeric :- ToNumericColumns(Rewrite(money).columns);
    var clean := Assign(Frame(numeric, df.height), "Date", parsed);
    Ok((clean, original))
  }

  /** A money cell is cleaned exactly as CleanAmount says. */
  predicate Cleaned(src: Column, dst: Column) {
    && dst.name == src.name
    && |dst.cells| == |src.cells|
    && forall j :: 0 <= j < |src.cells| ==>
         CleanAmount(src.cells[j]).Some? && dst.cells[j] == Num(CleanAmount(src.cells[j]).value)
  }

  /** The money columns of df: every column but Date, in order. */
  function Money(df: Frame): seq<Column> {
    Keep(df.columns, ["Date"])
  }

  lemma RewriteCells(money: Frame)
    ensures |Rewrite(money).columns| == |money.columns|
    ensures forall i :: 0 <= i < |money.columns| ==>
      Rewrite(money).columns[i].name == money.columns[i].name
    ensures forall i :: 0 <= i < |money.columns| ==>
      |Rewrite(money).columns[i].cells| == |money.columns[i].cells|
    ensures forall i, j :: 0 <= i < |money.columns| && 0 <= j < |money.columns[i].cells| ==>
      ToNumber(Rewrite(money).columns[i].cells[j]) == CleanAmount(money.columns[i].cells[j])
  {
  }

  /** Some column called name has a cell at row that does not clean. */
  predicate FailingCell(cols: seq<Column>, name: string, row: nat) {
    exists i :: 0 <= i < |cols| && cols[i].name == name && row < |cols[i].cells| && CleanAmount(cols[i].cells[row]).None?
  }

  /** The numeric conversion of the rewritten money columns succeeds
      exactly when every money cell cleans, and then yields the cleaned
      columns. */
  lemma {:induction false} NumericOfRewrite(money: Frame)
    ensures var r := ToNumericColumns(Rewrite(money).columns);
      r.Ok? <==> forall i, j :: 0 <= i < |money.columns| && 0 <= j < |money.columns[i].cells| ==>
        CleanAmount(money.columns[i].cells[j]).Some?
    ensures var r := ToNumericColumns(Rewrite(money).columns);
      r.Ok? ==> |r.value| == |money.columns| && forall i :: 0 <= i < |money.columns| ==> Cleaned(money.columns[i], r.value[i])
    ensures var r := ToNumericColumns(Rewrite(money).columns);
      r.Err? ==> r.error.NotNumeric? && FailingCell(money.columns, r.error.name, r.error.row)
  {
    var rw := Rewrite(money).columns;
    RewriteCells(money);
    RewrittenColumns(money.columns, rw);
  }

  /** NumericOfRewrite for any columns rw whose cells convert as the money
      cells clean. */
  lemma RewrittenColumns(cols: seq<Column>, rw: seq<Column>)
    requires |rw| == |cols|
    requires forall i :: 0 <= i < |cols| ==> rw[i].name == cols[i].name && |rw[i].cells| == |cols[i].cells|
    requires forall i, j :: 0 <= i < |cols| && 0 <= j < |cols[i].cells| ==>
      ToNumber(rw[i].cells[j]) == CleanAmount(cols[i].cells[j])
    ensures var r := ToNumericColumns(rw);
      r.Ok? <==> forall i, j :: 0 <= i < |cols| && 0 <= j < |cols[i].cells| ==> CleanAmount(cols[i].cells[j]).Some?
    ensures var r := ToNumericColumns(rw);
      r.Ok? ==> |r.value| == |cols| && forall i :: 0 <= i < |cols| ==> Cleaned(cols[i], r.value[i])
    ensures var r := ToNumericColumns(rw);
      r.Err? ==> r.error.NotNumeric? && FailingCell(cols, r.error.name, r.error.row)
  {
    var r := ToNumericColumns(rw);
    forall i | 0 <= i < |cols|
      ensures Convertible(rw[i].cells) <==>
        forall j :: 0 <= j < |cols[i].cells| ==> CleanAmount(cols[i].cells[j]).Some?
    {
    }
    if r.Ok? {
      forall i | 0 <= i < |cols| ensures Cleaned(cols[i], r.value[i]) {
        ConvertedColumn(cols[i], rw[i], r.value[i].cells);
      }
    } else {
      var i :| 0 <= i < |rw| && ToNumericCells(rw[i].name, rw[i].cells) == Err(r.error);
      assert ToNumber(rw[i].cells[r.error.row]) == CleanAmount(cols[i].cells[r.error.row]);
    }
  }

  lemma ConvertedColumn(src: Column, rw: Column, cells: seq<Cell>)
    requires rw.name == src.name && |rw.cells| == |src.cells|
    requires forall j :: 0 <= j < |src.cells| ==> ToNumber(rw.cells[j]) == CleanAmount(src.cells[j])
    requires ToNumericCells(rw.name, rw.cells) == Ok(cells)
    ensures Cleaned(src, Column(src.name, cells))
  {
  }

  predicate DatesReadable(cells: seq<Cell>, toDate: string -> Option<Date>) {
    forall j :: 0 <= j < |cells| ==> DateOf(cells[j], toDate).Some?
  }

  predicate MoneyCleans(money: seq<Column>) {
    forall i, j :: 0 <= i < |money| && 0 <= j < |money[i].cells| ==> CleanAmount(money[i].cells[j]).Some?
  }

  /** No money column is labelled Date. */
  lemma MoneyHasNoDate(df: Frame)
    ensures "Date" !in Labels(Money(df))
  {
    KeepMembers(df.columns, ["Date"]);
    var m := Money(df);
    forall i | 0 <= i < |m| ensures Labels(m)[i] != "Date" {
      assert m[i] in m;
    }
  }

  /** The money table Drop gives is the Money columns. */
  lemma DropDate(df: Frame)
    requires "Date" in Labels(df.columns)
    ensures Drop(df, ["Date"]) == Ok(Frame(Money(df), df.height))
  {
  }

  /** Whether cleaning succeeds, and which error it raises when not: a
      missing Date column, then the first unreadable date, then a money
      cell that does not clean. There is no recovery for a single cell. */
  lemma CleanOutcome(df: Frame, toDate: string -> Option<Date>)
    requires WellFormed(df)
    ensures CleanEtfData(df, toDate).Ok? <==>
      && "Date" in Labels(df.columns)
      && DatesReadable(Get(df, "Date").value, toDate)
      && MoneyCleans(Money(df))
    ensures "Date" !in Labels(df.columns) ==> CleanEtfData(df, toDate) == Err(MissingColumn("Date"))
    ensures "Date" in Labels(df.columns) && !DatesReadable(Get(df, "Date").value, toDate) ==>
      var e := CleanEtfData(df, toDate);
      && e.Err? && e.error.NotADate?
      && DateOf(Get(df, "Date").value[e.error.row], toDate).None?
      && forall j :: 0 <= j < e.error.row ==> DateOf(Get(df, "Date").value[j], toDate).Some?
    ensures "Date" in Labels(df.columns) && DatesReadable(Get(df, "Date").value, toDate) && !MoneyCleans(Money(df)) ==>
      var e := CleanEtfData(df, toDate);
      e.Err? && e.error.NotNumeric? && FailingCell(Money(df), e.error.name, e.error.row)
  {
    if "Date" in Labels(df.columns) {
      var dates := Get(df, "Date").value;
      if DatesReadable(dates, toDate) {
        var money := Frame(Money(df), df.height);
        CleanAfterDates(df, toDate);
        NumericOfRewrite(money);
      }
    }
  }

  /** Once the dates are read, cleaning fails exactly as the numeric
      conversion of the rewritten money columns does. */
  lemma CleanAfterDates(df: Frame, toDate: string -> Option<Date>)
    requires WellFormed(df) && "Date" in Labels(df.columns)
    requires DatesReadable(Get(df, "Date").value, toDate)
    ensures var n := ToNumericColumns(Rewrite(Frame(Money(df), df.height)).columns);
      && (CleanEtfData(df, toDate).Ok? <==> n.Ok?)
      && (n.Err? ==> CleanEtfData(df, toDate) == Err(n.error))
  {
    var dates := Get(df, "Date").value;
    var parsed := ParseDates(dates, toDate);
    assert parsed.Ok?;
    DropDate(df);
    var n := ToNumericColumns(Rewrite(Frame(Money(df), df.height)).columns);
    if n.Ok? {
      assert CleanEtfData(df, toDate) ==
        Ok((Assign(Frame(n.value, df.height), "Date", parsed.value), Assign(df, "Date", parsed.value)));
    } else {
      assert CleanEtfData(df, toDate) == Err(n.error);
    }
  }

  /** Date goes after the other columns when none of them is Date. */
  lemma AttachDate(numeric: seq<Column>, parsed: seq<Cell>, h: nat)
    requires "Date" !in Labels(numeric) && |parsed| == h
    requires forall c :: c in numeric ==> |c.cells| == h
    ensures Assign(Frame(numeric, h), "Date", parsed) == Frame(numeric + [Column("Date", parsed)], h)
    ensures WellFormed(Frame(numeric + [Column("Date", parsed)], h))
  {
  }

  /** The cleaned table has the rows of the input in their order: first
      the money columns, each cell cleaned, then the parsed Date column. */
  lemma CleanedTable(df: Frame, toDate: string -> Option<Date>)
    requires WellFormed(df) && CleanEtfData(df, toDate).Ok?
    ensures var clean := CleanEtfData(df, toDate).value.0;
      var dates := Get(df, "Date").value;
      && WellFormed(clean) && clean.height == df.height
      && |clean.columns| == |Money(df)| + 1
      && (forall i :: 0 <= i < |Money(df)| ==> Cleaned(Money(df)[i], clean.columns[i]))
      && clean.columns[|Money(df)|].name == "Date"
      && |clean.columns[|Money(df)|].cells| == df.height
      && (forall j :: 0 <= j < df.height ==>
            clean.columns[|Money(df)|].cells[j] == When(DateOf(dates[j], toDate).value))
  {
    var dates := Get(df, "Date").value;
    var parsed := ParseDates(dates, toDate).value;
    var money := Frame(Money(df), df.height);
    DropDate(df);
    NumericOfRewrite(money);
    var numeric := ToNumericColumns(Rewrite(money).columns).value;
    MoneyShape(df);
    NumericShape(Money(df), numeric, df.height);
    AttachDate(numeric, parsed, df.height);
    assert CleanEtfData(df, toDate).value.0 == Frame(numeric + [Column("Date", parsed)], df.height);
  }

  /** The cleaned money columns keep the labels and the height of the
      money columns of df. */
  lemma NumericShape(money: seq<Column>, numeric: seq<Column>, h: nat)
    requires "Date" !in Labels(money)
    requires forall c :: c in money ==> |c.cells| == h
    requires |numeric| == |money|
    requires forall i :: 0 <= i < |numeric| ==> Cleaned(money[i], numeric[i])
    ensures "Date" !in Labels(numeric)
    ensures forall c :: c in numeric ==> |c.cells| == h
  {
    forall i | 0 <= i < |numeric| ensures Labels(numeric)[i] != "Date" && |numeric[i].cells| == h {
      assert Labels(money)[i] == money[i].name;
      assert money[i] in money;
    }
  }

  /** The money columns of a well-formed table have its height. */
  lemma MoneyShape(df: Frame)
    requires WellFormed(df)
    ensures "Date" !in Labels(Money(df))
    ensures forall c :: c in Money(df) ==> |c.cells| == df.height
  {
    KeepMembers(df.columns, ["Date"]);
    MoneyHasNoDate(df);
  }

  /** The copy keeps every cell of the input except its Date column, which
      holds the same parsed dates as the cleaned table. */
  lemma OriginalCopy(df: Frame, toDate: string -> Option<Date>)
    requires WellFormed(df) && CleanEtfData(df, toDate).Ok?
    ensures var original := CleanEtfData(df, toDate).value.1;
      && WellFormed(original) && original.height == df.height
      && Labels(original.columns) == Labels(df.columns)
      && Get(original, "Date") == ParseDates(Get(df, "Date").value, toDate)
      && (forall i :: 0 <= i < |df.columns| && Find(df.columns, "Date") != Some(i) ==>
            original.columns[i] == df.columns[i])
  {
    var dates := Get(df, "Date").value;
    var parsed := ParseDates(dates, toDate).value;
    assert CleanEtfData(df, toDate).value.1 == Assign(df, "Date", parsed);
  }

  /** A rewrite that leaves every cell of a table alone leaves the table. */
  lemma ReplaceFixed(f: Frame, g: Cell -> Cell)
    requires forall c :: c in f.columns ==> forall j :: 0 <= j < |c.cells| ==> g(c.cells[j]) == c.cells[j]
    ensures Replace(f, g) == f
  {
    var r := Replace(f, g);
    forall i | 0 <= i < |f.columns| ensures r.columns[i] == f.columns[i] {
      assert f.columns[i] in f.columns;
      assert r.columns[i].cells == f.columns[i].cells;
    }
  }

  /** Every cell already is a number, as after the conversion. */
  predicate AllNum(cells: seq<Cell>) {
    forall j :: 0 <= j < |cells| ==> cells[j].Num?
  }

  /** Numbers convert to themselves. */
  lemma {:induction false} NumericOfNumbers(name: string, cells: seq<Cell>)
    requires AllNum(cells)
    ensures ToNumericCells(name, cells) == Ok(cells)
  {
    if |cells| > 0 {
      var n := |cells| - 1;
      var init := cells[..n];
      assert AllNum(init) by {
        forall j | 0 <= j < |init| ensures init[j].Num? {
          assert init[j] == cells[j];
        }
      }
      NumericOfNumbers(name, init);
      var last := cells[n];
      assert ToNumber(last) == Some(last.value);
      assert ToNumericCells(name, cells) == Ok(init + [Num(last.value)]);
      assert init + [last] == cells;
    }
  }

  lemma NumericColumnsOfNumbers(cols: seq<Column>)
    requires forall c :: c in cols ==> AllNum(c.cells)
    ensures ToNumericColumns(cols) == Ok(cols)
  {
    forall i | 0 <= i < |cols| ensures AllNum(cols[i].cells) {
      assert cols[i] in cols;
    }
    NumericColumnsAt(cols);
  }

  lemma {:induction false} NumericColumnsAt(cols: seq<Column>)
    requires forall i :: 0 <= i < |cols| ==> AllNum(cols[i].cells)
    ensures ToNumericColumns(cols) == Ok(cols)
  {
    if |cols| > 0 {
      var n := |cols| - 1;
      var init, last := cols[..n], cols[n];
      assert forall i :: 0 <= i < |init| ==> init[i] == cols[i];
      NumericColumnsAt(init);
      NumericOfNumbers(last.name, last.cells);
      NumericColumnsStep(init, last);
      assert init + [last] == cols;
    }
  }

  lemma NumericColumnsStep(init: seq<Column>, last: Column)
    requires ToNumericColumns(init) == Ok(init)
    requires ToNumericCells(last.name, last.cells) == Ok(last.cells)
    ensures ToNumericColumns(init + [last]) == Ok(init + [last])
  {
    var cols := init + [last];
    assert cols[..|cols| - 1] == init && cols[|cols| - 1] == last;
  }

  /** Dates read as themselves. */
  lemma ParsedDates(parsed: seq<Cell>, toDate: string -> Option<Date>)
    requires forall j :: 0 <= j < |parsed| ==> parsed[j].When?
    ensures ParseDates(parsed, toDate) == Ok(parsed)
  {
    var r := ParseDates(parsed, toDate);
    assert r.Ok?;
    assert r.value == parsed;
  }

  lemma KeepTrailingDate(numeric: seq<Column>, dateCol: Column)
    requires "Date" !in Labels(numeric) && dateCol.name == "Date"
    ensures Keep(numeric + [dateCol], ["Date"]) == numeric
  {
    KeepAppend(numeric, [dateCol], ["Date"]);
    forall c | c in numeric ensures c.name !in ["Date"] {
      var i :| 0 <= i < |numeric| && numeric[i] == c;
      assert Labels(numeric)[i] == c.name;
    }
    KeepNone(numeric, ["Date"]);
  }

  /** A table of numbers with a trailing Date column of dates is already
      clean: cleaning returns it, and its copy, unchanged. */
  lemma CleanFixedPoint(numeric: seq<Column>, parsed: seq<Cell>, h: nat, toDate: string -> Option<Date>)
    requires "Date" !in Labels(numeric) && |parsed| == h
    requires forall c :: c in numeric ==> |c.cells| == h && AllNum(c.cells)
    requires forall j :: 0 <= j < |parsed| ==> parsed[j].When?
    ensures var clean := Frame(numeric + [Column("Date", parsed)], h);
      WellFormed(clean) && CleanEtfData(clean, toDate) == Ok((clean, clean))
  {
    var dateCol := Column("Date", parsed);
    var clean := Frame(numeric + [dateCol], h);
    AttachDate(numeric, parsed, h);
    assert Get(clean, "Date") == Ok(parsed) by {
      forall j | 0 <= j < |numeric| ensures clean.columns[j].name != "Date" {
        assert Labels(numeric)[j] == numeric[j].name;
      }
      FindFirst(clean.columns, "Date", |numeric|);
    }
    ParsedDates(parsed, toDate);
    assert Assign(clean, "Date", parsed) == clean by {
      assert clean.columns[|numeric| := dateCol] == clean.columns;
    }
    KeepTrailingDate(numeric, dateCol);
    assert Labels(clean.columns)[|numeric|] == "Date";
    assert Drop(clean, ["Date"]) == Ok(Frame(numeric, h));
    var money := Frame(numeric, h);
    ReplaceFixed(money, NegateCell);
    ReplaceFixed(money, StripCell);
    ReplaceFixed(money, DashCell);
    assert Rewrite(money) == money;
    NumericColumnsOfNumbers(numeric);
  }

  /** Cleaning is idempotent: the cleaned table is its own cleaning. */
  lemma CleanIdempotent(df: Frame, toDate: string -> Option<Date>)
    requires WellFormed(df) && CleanEtfData(df, toDate).Ok?
    ensures var clean := CleanEtfData(df, toDate).value.0;
      WellFormed(clean) && CleanEtfData(clean, toDate) == Ok((clean, clean))
  {
    CleanedTable(df, toDate);
    MoneyShape(df);
    CleanShapeIsClean(Money(df), CleanEtfData(df, toDate).value.0, toDate);
  }

  lemma CleanShapeIsClean(money: seq<Column>, clean: Frame, toDate: string -> Option<Date>)
    requires "Date" !in Labels(money)
    requires forall c :: c in money ==> |c.cells| == clean.height
    requires WellFormed(clean)
    requires |clean.columns| == |money| + 1
    requires forall i :: 0 <= i < |money| ==> Cleaned(money[i], clean.columns[i])
    requires clean.columns[|money|].name == "Date"
    requires forall j :: 0 <= j < clean.height ==> clean.columns[|money|].cells[j].When?
    ensures CleanEtfData(clean, toDate) == Ok((clean, clean))
  {
    var n := |money|;
    var numeric := clean.columns[..n];
    var parsed := clean.columns[n].cells;
    assert clean.columns[n] in clean.columns;
    NumericShape(money, numeric, clean.height);
    forall c | c in numeric ensures AllNum(c.cells) {
      var i :| 0 <= i < |numeric| && numeric[i] == c;
      assert Cleaned(money[i], c);
    }
    assert clean.columns == numeric + [Column("Date", parsed)];
    CleanFixedPoint(numeric, parsed, clean.height, toDate);
  }
}
