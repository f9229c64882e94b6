/** The series the flow page derives from a cleaned flow table: the
    per-fund table without Total, the [Date, Total] table, and the running
    totals of both, each column summed on its own in row order with Date
    carried through. */
module Derive {
  import opened Outcomes
  import opened Cells
  import opened Frames
  import opened Normalise

  function Sum(xs: seq<real>): real {
    if |xs| == 0 then 0.0 else xs[0] + Sum(xs[1..])
  }

  /** The running totals of xs, started from acc. */
  function RunningFrom(acc: real, xs: seq<real>): (r: seq<real>)
    ensures |r| == |xs|
    decreases |xs|
  {
    if |xs| == 0 then [] else [acc + xs[0]] + RunningFrom(acc + xs[0], xs[1..])
  }

  /** Series.cumsum() over exact amounts. */
  function PrefixSums(xs: seq<real>): (r: seq<real>)
    ensures |r| == |xs|
  {
    RunningFrom(0.0, xs)
  }

  lemma {:induction false} SumSnoc(xs: seq<real>, x: real)
    ensures Sum(xs + [x]) == Sum(xs) + x
  {
    if |xs| > 0 {
      assert (xs + [x])[1..] == xs[1..] + [x];
      SumSnoc(xs[1..], x);
    }
  }

  lemma {:induction false} RunningFromAt(acc: real, xs: seq<real>, i: nat)
    requires i < |xs|
    ensures RunningFrom(acc, xs)[i] == acc + Sum(xs[..i + 1])
    decreases i
  {
    if i > 0 {
      RunningFromAt(acc + xs[0], xs[1..], i - 1);
      assert xs[..i + 1][1..] == xs[1..][..i];
    }
  }

  /** Each running total is the sum of the column up to and including its
      row. */
  lemma PrefixSumsAt(xs: seq<real>, i: nat)
    requires i < |xs|
    ensures PrefixSums(xs)[i] == Sum(xs[..i + 1])
  {
    RunningFromAt(0.0, xs, i);
  }

  /** The cumulative series starts at the first value, adds each value to
      the total of the row before, and ends at the sum of the column. */
  lemma PrefixSumsRecurrence(xs: seq<real>)
    ensures |xs| > 0 ==> PrefixSums(xs)[0] == xs[0]
    ensures forall i :: 0 < i < |xs| ==> PrefixSums(xs)[i] == PrefixSums(xs)[i - 1] + xs[i]
    ensures |xs| > 0 ==> PrefixSums(xs)[|xs| - 1] == Sum(xs)
  {
    if |xs| > 0 {
      PrefixSumsAt(xs, 0);
      assert xs[..1] == [xs[0]];
      PrefixSumsAt(xs, |xs| - 1);
      assert xs[..|xs|] == xs;
    }
    forall i | 0 < i < |xs| ensures PrefixSums(xs)[i] == PrefixSums(xs)[i - 1] + xs[i] {
      PrefixSumsStep(xs, i);
    }
  }

  lemma PrefixSumsStep(xs: seq<real>, i: nat)
    requires 0 < i < |xs|
    ensures PrefixSums(xs)[i] == PrefixSums(xs)[i - 1] + xs[i]
  {
    PrefixSumsAt(xs, i);
    PrefixSumsAt(xs, i - 1);
    assert xs[..i + 1] == xs[..i] + [xs[i]];
    SumSnoc(xs[..i], xs[i]);
  }

  /** The recurrence determines the series: any sequence that starts at
      the first value and adds each value to the one before is PrefixSums. */
  lemma PrefixSumsUnique(xs: seq<real>, c: seq<real>)
    requires |c| == |xs|
    requires |xs| > 0 ==> c[0] == xs[0]
    requires forall i :: 0 < i < |xs| ==> c[i] == c[i - 1] + xs[i]
    ensures c == PrefixSums(xs)
  {
    PrefixSumsRecurrence(xs);
    var p := PrefixSums(xs);
    var i := 0;
    while i < |xs|
      invariant i <= |xs|
      invariant forall j :: 0 <= j < i ==> c[j] == p[j]
    {
      if i > 0 {
        assert c[i] == c[i - 1] + xs[i];
        assert p[i] == p[i - 1] + xs[i];
      }
      i := i + 1;
    }
  }

  lemma PrefixSumsSnoc(xs: seq<real>, x: real)
    ensures PrefixSums(xs + [x]) == PrefixSums(xs) + [Sum(xs) + x]
  {
    var ys := xs + [x];
    var lhs := PrefixSums(ys);
    var rhs := PrefixSums(xs) + [Sum(xs) + x];
    forall i | 0 <= i < |ys| ensures lhs[i] == rhs[i] {
      PrefixSumsAt(ys, i);
      if i < |xs| {
        PrefixSumsAt(xs, i);
        assert ys[..i + 1] == xs[..i + 1];
      } else {
        assert ys[..i + 1] == ys;
        SumSnoc(xs, x);
      }
    }
  }

  /** The running accumulator of cumsum. */
  method RunningTotals(xs: seq<real>) returns (cum: seq<real>)
    ensures cum == PrefixSums(xs)
  {
    var acc := 0.0;
    cum := [];
    var i := 0;
    while i < |xs|
      invariant i <= |xs|
      invariant acc == Sum(xs[..i])
      invariant cum == PrefixSums(xs[..i])
    {
      assert xs[..i + 1] == xs[..i] + [xs[i]];
      PrefixSumsSnoc(xs[..i], xs[i]);
      SumSnoc(xs[..i], xs[i]);
      acc := acc + xs[i];
      cum := cum + [acc];
      i := i + 1;
    }
    assert xs[..i] == xs;
  }

  function Values(cells: seq<Cell>): (r: seq<real>)
    requires AllNum(cells)
    ensures |r| == |cells| && forall j :: 0 <= j < |cells| ==> Num(r[j]) == cells[j]
  {
    seq(|cells|, j requires 0 <= j < |cells| => cells[j].value)
  }

  function Nums(xs: seq<real>): (r: seq<Cell>)
    ensures |r| == |xs| && AllNum(r) && forall j :: 0 <= j < |xs| ==> r[j] == Num(xs[j])
  {
    seq(|xs|, j requires 0 <= j < |xs| => Num(xs[j]))
  }

  /** AllNum of every column. */
  predicate Numeric(cols: seq<Column>) {
    forall c :: c in cols ==> AllNum(c.cells)
  }

  /** The cumulative sum of one column. */
  function CumColumn(c: Column): Column
    requires AllNum(c.cells)
  {
    Column(c.name, Nums(PrefixSums(Values(c.cells))))
  }

  /** DataFrame.cumsum(): every column summed on its own. */
  function CumSum(cols: seq<Column>): (r: seq<Column>)
    requires Numeric(cols)
    ensures |r| == |cols| && forall i :: 0 <= i < |cols| ==> r[i] == CumColumn(cols[i])
  {
    seq(|cols|, i requires 0 <= i < |cols| => CumColumn(cols[i]))
  }

  method CumulativeColumns(cols: seq<Column>) returns (out: seq<Column>)
    requires Numeric(cols)
    ensures out == CumSum(cols)
  {
    out := [];
    var i := 0;
    while i < |cols|
      invariant i <= |cols|
      invariant out == CumSum(cols[..i])
    {
      assert cols[i] in cols;
      var sums := RunningTotals(Values(cols[i].cells));
      out := out + [Column(cols[i].name, Nums(sums))];
      i := i + 1;
    }
    assert cols[..i] == cols;
  }

  /** The four tables the flow page draws from a cleaned flow. */
  datatype Series = Series(
    individual: Frame,      // every column but Total
    total: Frame,           // exactly Date and Total
    cumIndividual: Frame,   // running totals per fund, then Date
    cumTotal: Frame)        // Date, then the running total of Total

  /** A table as cleaning leaves it: numbers everywhere but in Date. */
  predicate NumericExceptDate(f: Frame) {
    forall c :: c in f.columns && c.name != "Date" ==> AllNum(c.cells)
  }

  /** The split of the flow and its running totals, as fetch computes
      them once the flow is cleaned. */
  function DeriveSeries(flow: Frame): (r: Result<Series>)
    requires WellFormed(flow) && NumericExceptDate(flow)
    ensures r.Err? ==> r.error == MissingColumn("Total") || r.error == MissingColumn("Date")
    ensures r.Ok? ==> && r.value.individual.height == flow.height && r.value.total.height == flow.height
                      && r.value.cumIndividual.height == flow.height && r.value.cumTotal.height == flow.height
  {
    var individual :- Drop(flow, ["Total"]);
    var total :- Select(flow, ["Date", "Total"]);
    var funds :- Drop(individual, ["Date"]);
    var dates := Get(individual, "Date").value;
    assert Numeric(funds.columns);
    assert |dates| == flow.height;
    var cumFunds := Frame(CumSum(funds.columns), flow.height);
    var cumIndividual := Assign(cumFunds, "Date", dates);
    var totals := total.columns[1].cells;
    assert total.columns[1] in total.columns;
    assert Get(flow, "Total") == Ok(totals);
    assert AllNum(totals);
    var cumTotal := Frame([Column("Date", total.columns[0].cells), CumColumn(total.columns[1])], flow.height);
    Ok(Series(individual, total, cumIndividual, cumTotal))
  }

  /** The funds of a cleaned flow: every column but Total and Date. */
  function Funds(flow: Frame): seq<Column> {
    Keep(Keep(flow.columns, ["Total"]), ["Date"])
  }

  /** The derivation fails only for a missing Total or Date column, Total
      being looked up first. */
  lemma DeriveOutcome(flow: Frame)
    requires WellFormed(flow) && NumericExceptDate(flow)
    ensures DeriveSeries(flow).Ok? <==> "Total" in Labels(flow.columns) && "Date" in Labels(flow.columns)
    ensures "Total" !in Labels(flow.columns) ==> DeriveSeries(flow) == Err(MissingColumn("Total"))
    ensures "Total" in Labels(flow.columns) && "Date" !in Labels(flow.columns) ==>
      DeriveSeries(flow) == Err(MissingColumn("Date"))
  {
    if "Total" in Labels(flow.columns) {
      var individual := Drop(flow, ["Total"]).value;
      assert "Date" in Labels(individual.columns) <==> "Date" in Labels(flow.columns) by {
        LabelsKept(flow.columns, ["Total"], "Date");
      }
    }
  }

  /** A label other than the dropped ones is kept exactly when present. */
  lemma LabelsKept(cols: seq<Column>, xs: seq<string>, x: string)
    requires x !in xs
    ensures x in Labels(Keep(cols, xs)) <==> x in Labels(cols)
  {
    KeptLabels(cols, xs);
  }

  /** The split is exact: the individual table is every column but Total,
      Date included, in order; the total table is the Date and Total
      columns of the flow, row for row. */
  lemma SplitExact(flow: Frame)
    requires WellFormed(flow) && NumericExceptDate(flow) && DeriveSeries(flow).Ok?
    ensures var s := DeriveSeries(flow).value;
      && s.individual == Frame(Keep(flow.columns, ["Total"]), flow.height)
      && "Date" in Labels(s.individual.columns) && "Total" !in Labels(s.individual.columns)
      && s.total.height == flow.height && Labels(s.total.columns) == ["Date", "Total"]
      && Get(flow, "Date") == Ok(s.total.columns[0].cells)
      && Get(flow, "Total") == Ok(s.total.columns[1].cells)
  {
    SplitIndividual(flow);
    SplitTotal(flow);
  }

  lemma SplitIndividual(flow: Frame)
    requires WellFormed(flow) && NumericExceptDate(flow) && DeriveSeries(flow).Ok?
    ensures var s := DeriveSeries(flow).value;
      && s.individual == Frame(Keep(flow.columns, ["Total"]), flow.height)
      && "Date" in Labels(s.individual.columns) && "Total" !in Labels(s.individual.columns)
  {
    DeriveOutcome(flow);
    LabelsKept(flow.columns, ["Total"], "Date");
    LabelsDropped(flow.columns, ["Total"], "Total");
  }

  lemma SplitTotal(flow: Frame)
    requires WellFormed(flow) && NumericExceptDate(flow) && DeriveSeries(flow).Ok?
    ensures var s := DeriveSeries(flow).value;
      && s.total.height == flow.height && Labels(s.total.columns) == ["Date", "Total"]
      && Get(flow, "Date") == Ok(s.total.columns[0].cells)
      && Get(flow, "Total") == Ok(s.total.columns[1].cells)
  {
    DeriveOutcome(flow);
  }

  /** A dropped label is gone. */
  lemma LabelsDropped(cols: seq<Column>, xs: seq<string>, x: string)
    requires x in xs
    ensures x !in Labels(Keep(cols, xs))
  {
    KeptLabels(cols, xs);
  }


  /** The running totals: the per-fund table holds the cumulative sum of
      each fund column, computed from that column alone, followed by the
      Date column; the total table holds Date and the cumulative sum of
      Total. */
  lemma CumulativeSeries(flow: Frame)
    requires WellFormed(flow) && NumericExceptDate(flow) && DeriveSeries(flow).Ok?
    ensures Numeric(Funds(flow))
    ensures var s := DeriveSeries(flow).value;
      && s.cumIndividual == Frame(CumSum(Funds(flow)) + [Column("Date", Get(flow, "Date").value)], flow.height)
      && s.cumTotal.height == flow.height
      && s.cumTotal.columns[0] == Column("Date", Get(flow, "Date").value)
      && s.cumTotal.columns[1].name == "Total"
      && AllNum(Get(flow, "Total").value)
      && s.cumTotal.columns[1].cells == Nums(PrefixSums(Values(Get(flow, "Total").value)))
  {
    SplitExact(flow);
    var individual := Frame(Keep(flow.columns, ["Total"]), flow.height);
    var funds := Funds(flow);
    assert Drop(individual, ["Date"]) == Ok(Frame(funds, flow.height));
    assert Numeric(funds) by {
      forall c | c in funds ensures AllNum(c.cells) {
        assert c in individual.columns;
      }
    }
    assert Get(individual, "Date") == Get(flow, "Date") by {
      GetKept(flow.columns, ["Total"], "Date");
    }
    var cum := CumSum(funds);
    assert "Date" !in Labels(cum) by {
      forall i | 0 <= i < |cum| ensures Labels(cum)[i] != "Date" {
        assert funds[i] in funds;
      }
    }
    assert WellFormed(flow);
  }

  /** Looking up a label that is not dropped finds the same column. */
  lemma {:induction false} GetKept(cols: seq<Column>, xs: seq<string>, x: string)
    requires x !in xs
    ensures Get(Frame(Keep(cols, xs), 0), x) == Get(Frame(cols, 0), x)
  {
    if |cols| > 0 {
      GetKept(cols[1..], xs, x);
      if cols[0].name != x {
        GetSkip(cols, x);
        if cols[0].name in xs {
          assert Keep(cols, xs) == Keep(cols[1..], xs);
        } else {
          GetSkip(Keep(cols, xs), x);
          assert Keep(cols, xs)[1..] == Keep(cols[1..], xs);
        }
      } else {
        assert Keep(cols, xs)[0] == cols[0];
      }
    }
  }

  lemma GetSkip(cols: seq<Column>, x: string)
    requires |cols| > 0 && cols[0].name != x
    ensures Get(Frame(cols, 0), x) == Get(Frame(cols[1..], 0), x)
  {
    assert Labels(cols) == [cols[0].name] + Labels(cols[1..]);
  }

  /** The split and the running totals computed as fetch does, one column
      at a time with the running accumulator; the result is the
      derivation above. */
  method ComputeSeries(flow: Frame) returns (r: Result<Series>)
    requires WellFormed(flow) && NumericExceptDate(flow)
    ensures r == DeriveSeries(flow)
  {
    var individual := Drop(flow, ["Total"]);
    if individual.Err? {
      return Err(individual.error);
    }
    var total := Select(flow, ["Date", "Total"]);
    if total.Err? {
      return Err(total.error);
    }
    var funds := Drop(individual.value, ["Date"]);
    if funds.Err? {
      return Err(funds.error);
    }
    var dates := Get(individual.value, "Date").value;
    assert Numeric(funds.value.columns);
    var cumFunds := CumulativeColumns(funds.value.columns);
    var totalColumn := total.value.columns[1];
    assert totalColumn in total.value.columns;
    assert Get(flow, "Total") == Ok(totalColumn.cells);
    var cumTotal := RunningTotals(Values(totalColumn.cells));
    r := Ok(Series(
      individual.value,
      total.value,
      Assign(Frame(cumFunds, flow.height), "Date", dates),
      Frame([Column("Date", total.value.columns[0].cells), Column("Total", Nums(cumTotal))], flow.height)));
  }

  /** The running totals of an outflow, a dash day and an inflow. */
  lemma ExampleRunningTotals()
    ensures PrefixSums([-1234.5, 0.0, 500.0]) == [-1234.5, -1234.5, -734.5]
  {
    var xs := [-1234.5, 0.0, 500.0];
    PrefixSumsRecurrence(xs);
  }
}
