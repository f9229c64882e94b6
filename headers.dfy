/** Column labels of the two flow pages and the fund symbols read from
    them. The Ethereum page has a three-level header: the issuer, the
    ticker, and a third level that is dropped; its labels are then joined
    into one string and two placeholder labels are renamed. The Bitcoin
    page has plain labels. */
module Headers {
  import opened Outcomes
  import opened Cells
  import opened Frames

  /** One column header of the Ethereum page: issuer, ticker, and the
      level the reshaping drops. */
  datatype Header3 = Header3(top: string, sub: string, bottom: string)

  /** The same header once its third level is dropped. */
  datatype Header = Header(top: string, sub: string)

  datatype EthColumn = EthColumn(header: Header3, cells: seq<Cell>)

  /** The Ethereum table as the page gives it: headed columns and rows. */
  datatype EthTable = EthTable(columns: seq<EthColumn>, height: nat)

  predicate EthWellFormed(t: EthTable) {
    forall c :: c in t.columns ==> |c.cells| == t.height
  }

  /** The label pandas gives an empty header cell of column i at level l. */
  function Unnamed(i: nat, l: nat): string {
    "Unnamed: " + Digits(i) + "_level_" + Digits(l)
  }

  /** The joined label of the first column, which is renamed Date. */
  const DateHeader: string := "Unnamed: 0_level_0 - Unnamed: 0_level_1"

  /** The joined label renamed Total: the Total column only when it is the
      eleventh column. */
  const TotalHeader: string := "Total - Unnamed: 10_level_1"

  /** columns.droplevel(2) */
  function DropLevel2(hs: seq<Header3>): (r: seq<Header>)
    ensures |r| == |hs|
    ensures forall i :: 0 <= i < |hs| ==> r[i].top == hs[i].top && r[i].sub == hs[i].sub
  {
    if |hs| == 0 then [] else [Header(hs[0].top, hs[0].sub)] + DropLevel2(hs[1..])
  }

  /** The " - ".join of a header pair. */
  function Join(h: Header): string {
    h.top + " - " + h.sub
  }

  /** The rename of the two placeholder labels: a label becomes Date or
      Total only from its placeholder (or when it already is that name),
      and every other label stays. */
  function Rename(name: string): (r: string)
    ensures r == "Date" <==> name == DateHeader || name == "Date"
    ensures r == "Total" <==> name == TotalHeader || name == "Total"
    ensures name != DateHeader && name != TotalHeader ==> r == name
  {
    if name == DateHeader then "Date"
    else if name == TotalHeader then "Total"
    else name
  }

  function HeaderPairs(t: EthTable): seq<Header> {
    DropLevel2(seq(|t.columns|, i requires 0 <= i < |t.columns| => t.columns[i].header))
  }

  /** The Ethereum table with one label per column: header levels 0 and 1
      joined and renamed, rows untouched. */
  function Flatten(t: EthTable): (f: Frame)
    requires EthWellFormed(t)
    ensures WellFormed(f) && f.height == t.height && |f.columns| == |t.columns|
    ensures forall i :: 0 <= i < |t.columns| ==>
      f.columns[i].cells == t.columns[i].cells
      && f.columns[i].name == Rename(t.columns[i].header.top + " - " + t.columns[i].header.sub)
  {
    var hs := HeaderPairs(t);
    Frame(seq(|t.columns|, i requires 0 <= i < |t.columns| =>
      Column(Rename(Join(hs[i])), t.columns[i].cells)), t.height)
  }

  /** The headers whose issuer level is not top, in order. */
  function WithoutTop(hs: seq<Header>, top: string): (r: seq<Header>)
    ensures |r| <= |hs|
    ensures forall h :: h in r <==> h in hs && h.top != top
  {
    if |hs| == 0 then []
    else (if hs[0].top == top then [] else [hs[0]]) + WithoutTop(hs[1..], top)
  }

  function Subs(hs: seq<Header>): (r: seq<string>)
    ensures |r| == |hs|
    ensures forall i :: 0 <= i < |hs| ==> r[i] == hs[i].sub
  {
    if |hs| == 0 then [] else [hs[0].sub] + Subs(hs[1..])
  }

  /** drop(columns="Total").columns[1:].get_level_values(1): the tickers of
      every column but the Total ones, leaving out the first column that
      remains; a KeyError when no column has Total as its issuer level. */
  function EthFunds(hs: seq<Header>): (r: Result<seq<string>>)
    ensures r.Err? <==> forall h :: h in hs ==> h.top != "Total"
    ensures r.Err? ==> r.error == MissingColumn("Total")
    ensures r.Ok? ==> forall x :: x in r.value ==> exists h :: h in hs && h.top != "Total" && h.sub == x
  {
    if forall h :: h in hs ==> h.top != "Total" then Err(MissingColumn("Total"))
    else
      var rest := WithoutTop(hs, "Total");
      var funds := if |rest| == 0 then [] else Subs(rest[1..]);
      assert forall x :: x in funds ==> exists h :: h in rest && h.sub == x by {
        forall x | x in funds ensures exists h :: h in rest && h.sub == x {
          var i :| 0 <= i < |funds| && funds[i] == x;
          assert rest[i + 1] in rest;
        }
      }
      Ok(funds)
  }

  lemma {:induction false} WithoutTopKeepsFirst(hs: seq<Header>, top: string)
    requires |hs| > 0 && hs[0].top != top
    ensures WithoutTop(hs, top) == [hs[0]] + WithoutTop(hs[1..], top)
  {
  }

  /** When the first column is not a Total column (as the date column is
      not), the fund list is the tickers of the columns after the first,
      Total ones excluded, in column order. */
  lemma EthFundsAfterFirst(hs: seq<Header>)
    requires |hs| > 0 && hs[0].top != "Total"
    requires exists h :: h in hs && h.top == "Total"
    ensures EthFunds(hs) == Ok(Subs(WithoutTop(hs[1..], "Total")))
  {
    WithoutTopKeepsFirst(hs, "Total");
    var rest := WithoutTop(hs, "Total");
    assert rest[1..] == WithoutTop(hs[1..], "Total");
  }

  /** Funds come in column order: the tickers of the two halves of the
      headers, one after the other. */
  lemma {:induction false} WithoutTopAppend(a: seq<Header>, b: seq<Header>, top: string)
    ensures WithoutTop(a + b, top) == WithoutTop(a, top) + WithoutTop(b, top)
  {
    if |a| > 0 {
      var ab := a + b;
      assert ab[0] == a[0] && ab[1..] == a[1..] + b;
      WithoutTopAppend(a[1..], b, top);
      var h := if a[0].top == top then [] else [a[0]];
      assert WithoutTop(ab, top) == h + WithoutTop(a[1..] + b, top);
      assert WithoutTop(a, top) == h + WithoutTop(a[1..], top);
      assert h + (WithoutTop(a[1..], top) + WithoutTop(b, top)) == (h + WithoutTop(a[1..], top)) + WithoutTop(b, top);
    } else {
      assert a + b == b;
    }
  }

  /** The labels pandas gives the empty header cells of the first column
      and of the eleventh column's second level. */
  lemma PlaceholderLabels()
    ensures Unnamed(0, 0) == "Unnamed: 0_level_0"
    ensures Unnamed(0, 1) == "Unnamed: 0_level_1"
    ensures Unnamed(10, 1) == "Unnamed: 10_level_1"
  {
    SmallDigits();
    assert "Unnamed: " + "0" + "_level_" + "0" == "Unnamed: 0_level_0";
    assert "Unnamed: " + "0" + "_level_" + "1" == "Unnamed: 0_level_1";
    assert "Unnamed: " + "10" + "_level_" + "1" == "Unnamed: 10_level_1";
  }

  /** The first column's placeholder pair is renamed Date. */
  lemma DatePlaceholderRenamed()
    ensures Rename(Join(Header(Unnamed(0, 0), Unnamed(0, 1)))) == "Date"
  {
    PlaceholderLabels();
    JoinedDate();
  }

  /** The eleventh column's Total pair is renamed Total. */
  lemma TotalPlaceholderRenamed()
    ensures Rename(Join(Header("Total", Unnamed(10, 1)))) == "Total"
  {
    PlaceholderLabels();
    JoinedTotal();
  }

  lemma JoinedDate()
    ensures Join(Header("Unnamed: 0_level_0", "Unnamed: 0_level_1")) == DateHeader
  {
  }

  lemma JoinedTotal()
    ensures Join(Header("Total", "Unnamed: 10_level_1")) == TotalHeader
  {
  }

  lemma SmallDigits()
    ensures Digits(0) == "0" && Digits(1) == "1" && Digits(10) == "10"
  {
    assert Digits(1) == [DigitChar(1)];
    assert Digits(10) == Digits(1) + [DigitChar(0)];
  }

  lemma DigitsInjective(a: nat, b: nat)
    requires Digits(a) == Digits(b)
    ensures a == b
  {
  }

  lemma UnnamedSplit(i: nat)
    ensures var s := "Total - " + Unnamed(i, 1);
      |s| == 25 + |Digits(i)| && s[17..|s| - 8] == Digits(i)
  {
    assert Digits(1) == "1";
  }

  /** The Total column keeps the label "Total - Unnamed: i_level_1" unless
      it is the eleventh column (i = 10): the rename is tied to one
      position of the Total column on the page. */
  lemma TotalRenamedOnlyAtTen(i: nat)
    ensures Rename(Join(Header("Total", Unnamed(i, 1)))) == "Total" <==> i == 10
  {
    var s := "Total - " + Unnamed(i, 1);
    assert Join(Header("Total", Unnamed(i, 1))) == s;
    if i == 10 {
      TotalPlaceholderRenamed();
    } else {
      TotalLabelOnlyAtTen(i);
      UnnamedSplit(i);
      assert s[0] == 'T' && DateHeader[0] == 'U';
      assert Rename(s) == s;
      assert |s| != |"Total"|;
    }
  }

  /** Only column 10 carries the joined label that is renamed Total. */
  lemma TotalLabelOnlyAtTen(i: nat)
    ensures "Total - " + Unnamed(i, 1) == TotalHeader ==> i == 10
  {
    var s := "Total - " + Unnamed(i, 1);
    var t := "Total - " + Unnamed(10, 1);
    if s == TotalHeader {
      PlaceholderLabels();
      assert t == TotalHeader;
      UnnamedSplit(i);
      UnnamedSplit(10);
      assert Digits(i) == s[17..|s| - 8] == t[17..|t| - 8] == Digits(10);
      DigitsInjective(i, 10);
    }
  }

  /** The Bitcoin fund list, columns.drop(["Date", "Total"]): every label
      but those two, in column order; a KeyError when either is absent. */
  function BtcFunds(f: Frame): (r: Result<seq<string>>)
    ensures r.Err? <==> "Date" !in Labels(f.columns) || "Total" !in Labels(f.columns)
    ensures r.Ok? ==> forall x :: x in r.value <==> x in Labels(f.columns) && x != "Date" && x != "Total"
    ensures r.Ok? ==> r.value == Labels(Keep(f.columns, ["Date", "Total"]))
  {
    var rest :- Drop(f, ["Date", "Total"]);
    KeptLabels(f.columns, ["Date", "Total"]);
    Ok(Labels(rest.columns))
  }
}
