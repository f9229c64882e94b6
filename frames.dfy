/** Tables as the pipeline sees them: labelled columns of cells, all of the
    same height, in column order. Only the pandas operations the reshaping
    uses are modelled: lookup of a column, dropping and selecting columns by
    label, assigning a column, and cutting rows off the end. */
module Frames {
  import opened Outcomes
  import opened Cells

  datatype Column = Column(name: string, cells: seq<Cell>)

  /** A table: its columns in order and its number of rows. */
  datatype Frame = Frame(columns: seq<Column>, height: nat)

  predicate WellFormed(f: Frame) {
    forall c :: c in f.columns ==> |c.cells| == f.height
  }

  function Labels(cols: seq<Column>): seq<string> {
    seq(|cols|, i requires 0 <= i < |cols| => cols[i].name)
  }

  /** Position of the first column labelled x. */
  function Find(cols: seq<Column>, x: string): (r: Option<nat>)
    ensures r.None? <==> x !in Labels(cols)
    ensures r.Some? ==> r.value < |cols| && cols[r.value].name == x
    ensures r.Some? ==> forall j :: 0 <= j < r.value ==> cols[j].name != x
  {
    if |cols| == 0 then None
    else if cols[0].name == x then
      assert Labels(cols)[0] == x;
      Some(0)
    else
      assert Labels(cols) == [cols[0].name] + Labels(cols[1..]);
      match Find(cols[1..], x)
      case None => None
      case Some(i) => Some(i + 1)
  }

  /** df[x]: the cells of the first column labelled x; a KeyError when no
      column has that label. */
  function Get(f: Frame, x: string): (r: Result<seq<Cell>>)
    ensures r.Err? <==> x !in Labels(f.columns)
    ensures r.Err? ==> r.error == MissingColumn(x)
    ensures r.Ok? ==> exists i :: 0 <= i < |f.columns| && f.columns[i].name == x && f.columns[i].cells == r.value
  {
    match Find(f.columns, x)
    case None => Err(MissingColumn(x))
    case Some(i) => Ok(f.columns[i].cells)
  }

  /** The columns whose label is not in xs, in their order. */
  function Keep(cols: seq<Column>, xs: seq<string>): (r: seq<Column>)
    ensures |r| <= |cols|
  {
    if |cols| == 0 then []
    else (if cols[0].name in xs then [] else [cols[0]]) + Keep(cols[1..], xs)
  }

  /** The kept columns are those whose label is not in xs. */
  lemma {:induction false} KeepMembers(cols: seq<Column>, xs: seq<string>)
    ensures forall c :: c in Keep(cols, xs) <==> c in cols && c.name !in xs
  {
    if |cols| > 0 {
      KeepMembers(cols[1..], xs);
      assert forall c :: c in cols <==> c == cols[0] || c in cols[1..];
    }
  }

  /** Keeping columns works piece by piece, so the kept columns stay in
      their original order. */
  lemma {:induction false} KeepAppend(a: seq<Column>, b: seq<Column>, xs: seq<string>)
    ensures Keep(a + b, xs) == Keep(a, xs) + Keep(b, xs)
  {
    if |a| > 0 {
      var ab := a + b;
      assert ab[0] == a[0] && ab[1..] == a[1..] + b;
      KeepAppend(a[1..], b, xs);
      var h := if a[0].name in xs then [] else [a[0]];
      assert Keep(ab, xs) == h + Keep(a[1..] + b, xs);
      assert Keep(a, xs) == h + Keep(a[1..], xs);
      assert h + (Keep(a[1..], xs) + Keep(b, xs)) == (h + Keep(a[1..], xs)) + Keep(b, xs);
    } else {
      assert a + b == b;
    }
  }

  /** Columns none of whose labels is dropped are all kept. */
  lemma {:induction false} KeepNone(cols: seq<Column>, xs: seq<string>)
    requires forall c :: c in cols ==> c.name !in xs
    ensures Keep(cols, xs) == cols
  {
    if |cols| > 0 {
      KeepNone(cols[1..], xs);
    }
  }

  /** A label survives Keep exactly when it is not one of xs. */
  lemma KeptLabels(cols: seq<Column>, xs: seq<string>)
    ensures forall x :: x in Labels(Keep(cols, xs)) <==> x in Labels(cols) && x !in xs
  {
    KeepMembers(cols, xs);
    var kept := Keep(cols, xs);
    forall x ensures x in Labels(kept) <==> x in Labels(cols) && x !in xs {
      if x in Labels(kept) {
        var i :| 0 <= i < |kept| && Labels(kept)[i] == x;
        assert kept[i] in kept;
        var j :| 0 <= j < |cols| && cols[j] == kept[i];
        assert Labels(cols)[j] == x;
      }
      if x in Labels(cols) && x !in xs {
        var j :| 0 <= j < |cols| && Labels(cols)[j] == x;
        assert cols[j] in cols;
        var i :| 0 <= i < |kept| && kept[i] == cols[j];
        assert Labels(kept)[i] == x;
      }
    }
  }

  /** The first label of xs that no column carries. */
  function FirstMissing(labels: seq<string>, xs: seq<string>): (r: Option<string>)
    ensures r.None? <==> forall x :: x in xs ==> x in labels
    ensures r.Some? ==> r.value in xs && r.value !in labels
  {
    if |xs| == 0 then None
    else if xs[0] !in labels then Some(xs[0])
    else FirstMissing(labels, xs[1..])
  }

  /** df.drop(columns=xs): every column labelled with one of xs goes, the
      rest stay in order; a KeyError when some label of xs is absent. */
  function Drop(f: Frame, xs: seq<string>): (r: Result<Frame>)
    ensures r.Err? <==> exists x :: x in xs && x !in Labels(f.columns)
    ensures r.Err? ==> r.error.MissingColumn? && r.error.name in xs && r.error.name !in Labels(f.columns)
    ensures r.Ok? ==> r.value.height == f.height && r.value.columns == Keep(f.columns, xs)
    ensures r.Ok? ==> forall c :: c in r.value.columns <==> c in f.columns && c.name !in xs
    ensures r.Ok? && WellFormed(f) ==> WellFormed(r.value)
  {
    KeepMembers(f.columns, xs);
    match FirstMissing(Labels(f.columns), xs)
    case Some(x) => Err(MissingColumn(x))
    case None => Ok(Frame(Keep(f.columns, xs), f.height))
  }

  /** df[xs]: the first column of each label in xs, in the order of xs; a
      KeyError when one of them is absent. */
  function Select(f: Frame, xs: seq<string>): (r: Result<Frame>)
    ensures r.Err? <==> exists x :: x in xs && x !in Labels(f.columns)
    ensures r.Err? ==> r.error.MissingColumn? && r.error.name in xs && r.error.name !in Labels(f.columns)
    ensures r.Ok? ==> r.value.height == f.height && Labels(r.value.columns) == xs
    ensures r.Ok? ==> forall i :: 0 <= i < |xs| ==> Get(f, xs[i]) == Ok(r.value.columns[i].cells)
    ensures r.Ok? && WellFormed(f) ==> WellFormed(r.value)
  {
    if |xs| == 0 then Ok(Frame([], f.height))
    else
      var first :- Get(f, xs[0]);
      var rest :- Select(f, xs[1..]);
      Ok(Frame([Column(xs[0], first)] + rest.columns, f.height))
  }

  /** df[x] = cells: the first column labelled x gets the new cells; when
      no column has that label a new one is added after the others. */
  function Assign(f: Frame, x: string, cells: seq<Cell>): (r: Frame)
    requires |cells| == f.height
    ensures r.height == f.height
    ensures WellFormed(f) ==> WellFormed(r)
    ensures Get(r, x) == Ok(cells)
    ensures x in Labels(f.columns) ==> Labels(r.columns) == Labels(f.columns)
    ensures x !in Labels(f.columns) ==> r.columns == f.columns + [Column(x, cells)]
    ensures x in Labels(f.columns) ==>
      forall i :: 0 <= i < |f.columns| && Find(f.columns, x) != Some(i) ==> r.columns[i] == f.columns[i]
  {
    match Find(f.columns, x)
    case None =>
      var r := Frame(f.columns + [Column(x, cells)], f.height);
      assert Labels(r.columns) == Labels(f.columns) + [x];
      assert Find(r.columns, x) == Some(|f.columns|) by {
        forall j | 0 <= j < |f.columns| ensures r.columns[j].name != x {
          assert Labels(f.columns)[j] == f.columns[j].name;
        }
        FindFirst(r.columns, x, |f.columns|);
      }
      r
    case Some(i) =>
      var r := Frame(f.columns[i := Column(x, cells)], f.height);
      assert Labels(r.columns) == Labels(f.columns);
      FindFirst(r.columns, x, i);
      r
  }

  /** A column labelled x with none before it is what Find reports. */
  lemma FindFirst(cols: seq<Column>, x: string, i: nat)
    requires i < |cols| && cols[i].name == x
    requires forall j :: 0 <= j < i ==> cols[j].name != x
    ensures Find(cols, x) == Some(i)
  {
    assert Labels(cols)[i] == x;
  }

  /** The number of rows df.iloc[:-k] keeps: Python's slice up to -k,
      which for k = 0 is the empty slice. */
  function Kept(n: nat, k: nat): nat {
    if k == 0 || n <= k then 0 else n - k
  }

  /** df.iloc[:-k]: cut the last k rows off every column. */
  function DropFooter(f: Frame, k: nat): (r: Frame)
    requires WellFormed(f)
    ensures WellFormed(r)
    ensures r.height == Kept(f.height, k)
    ensures k > 0 && f.height >= k ==> r.height + k == f.height
    ensures k > 0 && f.height <= k ==> r.height == 0
    ensures Labels(r.columns) == Labels(f.columns)
    ensures forall i :: 0 <= i < |f.columns| ==>
      r.columns[i].cells == f.columns[i].cells[..r.height]
  {
    var h := Kept(f.height, k);
    Frame(seq(|f.columns|, i requires 0 <= i < |f.columns| =>
      Column(f.columns[i].name, f.columns[i].cells[..h])), h)
  }
}
