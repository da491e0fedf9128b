/**
  The per-contour accumulation loop: for every row of the contour table, in
  table order, select the row's three channel pages, build its label
  raster, reduce each channel over the pixels labelled with the contour id,
  and append the nine results to the new columns; then join the columns to
  the table in the fixed column order.
*/
module Engine {
  import opened Wrappers
  import opened Catalog
  import opened Reductions
  import opened LabelRaster
  import opened Columns

  /** The `IndexError` of `ims[layer_id * 3 + channel_id]`. */
  datatype EngineError = PlaneIndexError(layer: int, index: int)

  /** A table row with its nine appended values, in `columns_order`. */
  datatype AugmentedRow = AugmentedRow(base: Row, extra: seq<Option<real>>)

  // ---------------------------------------------------------------------------
  // Plane selection

  /**
    Python list indexing into a list of length `n`: a negative index counts
    from the end, and an index outside `[-n, n)` fails.
  */
  function PyIndex(n: nat, k: int): (r: Option<nat>)
    ensures r.Some? <==> -(n as int) <= k < n
    ensures r.Some? ==> r.value < n
    ensures r.Some? && k >= 0 ==> r.value == k
    ensures r.Some? && k < 0 ==> n - r.value == -k
  {
    if 0 <= k < n then Some(k)
    else if -(n as int) <= k < 0 then Some(n + k)
    else None
  }

  /** The page number of channel `c` of layer `layer`: `layer_id * 3 + channel_id`. */
  function PlaneNumber(layer: int, c: int): int {
    layer * 3 + c
  }

  /** `channel_ims`: the pages `ims[layer * 3 + c]` for c = 0, 1, 2, or the first failing index. */
  function ChannelPlanes(planes: seq<Grid>, layer: int): (r: Result<seq<Grid>, EngineError>)
    ensures r.Ok? ==> |r.value| == 3 && forall c :: 0 <= c < 3 ==> r.value[c] in planes
  {
    var n := |planes|;
    if PyIndex(n, PlaneNumber(layer, 0)).None? then Err(PlaneIndexError(layer, PlaneNumber(layer, 0)))
    else if PyIndex(n, PlaneNumber(layer, 1)).None? then Err(PlaneIndexError(layer, PlaneNumber(layer, 1)))
    else if PyIndex(n, PlaneNumber(layer, 2)).None? then Err(PlaneIndexError(layer, PlaneNumber(layer, 2)))
    else Ok([planes[PyIndex(n, PlaneNumber(layer, 0)).value],
             planes[PyIndex(n, PlaneNumber(layer, 1)).value],
             planes[PyIndex(n, PlaneNumber(layer, 2)).value]])
  }

  /**
    Channel `c` of layer `L` is page `3L + c`. For `L >= 0` the row needs
    `3L + 2 < |planes|`; a negative `L` wraps around as Python indexing
    does, selecting pages counted from the end, and needs `3L >= -|planes|`.
    A failure names the layer and the first channel's page number that is
    out of range.
  */
  lemma PlaneIndexMapping(planes: seq<Grid>, layer: int)
    ensures layer >= 0 ==> (ChannelPlanes(planes, layer).Ok? <==> layer * 3 + 2 < |planes|)
    ensures layer >= 0 && ChannelPlanes(planes, layer).Ok? ==>
              forall c :: 0 <= c < 3 ==> ChannelPlanes(planes, layer).value[c] == planes[PlaneNumber(layer, c)]
    ensures layer < 0 ==> (ChannelPlanes(planes, layer).Ok? <==> -|planes| <= layer * 3)
    ensures layer < 0 && ChannelPlanes(planes, layer).Ok? ==>
              forall c :: 0 <= c < 3 ==> ChannelPlanes(planes, layer).value[c] == planes[|planes| + PlaneNumber(layer, c)]
    ensures ChannelPlanes(planes, layer).Err? ==>
              ChannelPlanes(planes, layer).error.layer == layer &&
              PyIndex(|planes|, ChannelPlanes(planes, layer).error.index).None? &&
              layer * 3 <= ChannelPlanes(planes, layer).error.index <= layer * 3 + 2
  {
    var r := ChannelPlanes(planes, layer);
    if r.Ok? {
      forall c | 0 <= c < 3
        ensures r.value[c] == planes[PyIndex(|planes|, PlaneNumber(layer, c)).value]
      {
        if c == 0 {} else if c == 1 {} else {}
      }
    }
  }

  /** The loop over `enumerate("rgb")` that fills `channel_ims`. */
  method SelectPlanes(planes: seq<Grid>, layer: int) returns (r: Result<seq<Grid>, EngineError>)
    ensures r == ChannelPlanes(planes, layer)
  {
    var chosen: seq<Grid> := [];
    for c := 0 to 3
      invariant |chosen| == c
      invariant forall k :: 0 <= k < c ==>
                  PyIndex(|planes|, PlaneNumber(layer, k)).Some? &&
                  chosen[k] == planes[PyIndex(|planes|, PlaneNumber(layer, k)).value]
    {
      var idx := PyIndex(|planes|, PlaneNumber(layer, c));
      if idx.None? {
        assert c >= 1 ==> PyIndex(|planes|, PlaneNumber(layer, 0)).Some?;
        assert c >= 2 ==> PyIndex(|planes|, PlaneNumber(layer, 1)).Some?;
        return Err(PlaneIndexError(layer, PlaneNumber(layer, c)));
      }
      chosen := chosen + [planes[idx.value]];
    }
    assert PyIndex(|planes|, PlaneNumber(layer, 0)).Some? && PyIndex(|planes|, PlaneNumber(layer, 1)).Some?;
    assert PyIndex(|planes|, PlaneNumber(layer, 2)).Some?;
    assert chosen == [chosen[0], chosen[1], chosen[2]];
    r := Ok(chosen);
  }

  // ---------------------------------------------------------------------------
  // Progress

  /** The counters reported while the first `n` rows were started. */
  function Progress(n: nat): seq<nat> {
    if n == 0 then [] else Progress(n - 1) + (if n % 100 == 0 then [n] else [])
  }

  lemma ProgressStep(n: nat)
    ensures Progress(n + 1) == Progress(n) + (if (n + 1) % 100 == 0 then [n + 1] else [])
  {
  }

  /**
    A report is made for exactly the 1-based row positions that are
    multiples of 100, in increasing order: one per hundred rows.
  */
  lemma {:induction false} ProgressSpec(n: nat)
    ensures forall c :: c in Progress(n) <==> 1 <= c <= n && c % 100 == 0
    ensures |Progress(n)| == n / 100
    ensures forall i, j :: 0 <= i < j < |Progress(n)| ==> Progress(n)[i] < Progress(n)[j]
  {
    if n > 0 {
      ProgressSpec(n - 1);
      var p := Progress(n - 1);
      forall i | 0 <= i < |p|
        ensures p[i] < n
      {
        assert p[i] in p;
      }
      if n % 100 == 0 {
        assert n / 100 == (n - 1) / 100 + 1;
      } else {
        assert n / 100 == (n - 1) / 100;
      }
    }
  }

  // ---------------------------------------------------------------------------
  // One row and the whole table

  /** Every page of the stack is `h` by `w`. */
  ghost predicate Pages(planes: seq<Grid>, h: nat, w: nat) {
    forall g :: g in planes ==> Shaped(g, h, w)
  }

  /** The three channel statistics of one row, or the plane lookup error. */
  ghost function RowStats(row: Row, planes: seq<Grid>, h: nat, w: nat, removeBorder: bool, raster: string -> Footprint)
    : (r: Result<seq<Stats>, EngineError>)
    requires Pages(planes, h, w)
    ensures r.Ok? ==> |r.value| == 3
    ensures r.Ok? <==> ChannelPlanes(planes, row.layerId).Ok?
  {
    match ChannelPlanes(planes, row.layerId)
    case Err(e) => Err(e)
    case Ok(ps) =>
      Ok(ChannelStats(ps, LabelGrid(h, w, raster(row.points), row.contourId, removeBorder), row.contourId))
  }

  /** The statistics of the three channel pages `ps` over the pixels of `lab` labelled `cid`. */
  ghost function ChannelStats(ps: seq<Grid>, lab: seq<seq<int>>, cid: int): (r: seq<Stats>)
    requires |ps| == 3 && forall c :: 0 <= c < 3 ==> SameShape(ps[c], lab)
    ensures |r| == 3 && forall c :: 0 <= c < 3 ==> r[c] == StatsOf(Included(ps[c], lab, cid))
  {
    [StatsOf(Included(ps[0], lab, cid)), StatsOf(Included(ps[1], lab, cid)), StatsOf(Included(ps[2], lab, cid))]
  }

  /** `pd.concat([df, new_columns[columns_order]], axis=1)`. */
  function Join(rows: seq<Row>, table: seq<seq<Option<real>>>): (r: seq<AugmentedRow>)
    requires |table| == 9 && forall i :: 0 <= i < 9 ==> |table[i]| == |rows|
    ensures |r| == |rows|
    ensures forall k :: 0 <= k < |rows| ==>
              r[k].base == rows[k] && |r[k].extra| == 9 && forall i :: 0 <= i < 9 ==> r[k].extra[i] == table[i][k]
  {
    seq(|rows|, k requires 0 <= k < |rows| => AugmentedRow(rows[k], seq(9, i requires 0 <= i < 9 => table[i][k])))
  }

  /**
    The accumulation over the whole table. It stops at the first row whose
    pages cannot be selected; otherwise row `k` of the result is input row
    `k` followed by its nine statistics in `columns_order`. `reports` are
    the progress counters emitted, one per hundred rows started.
  */
  method Run(rows: seq<Row>, planes: seq<Grid>, h: nat, w: nat, removeBorder: bool, raster: string -> Footprint)
    returns (r: Result<seq<AugmentedRow>, EngineError>, reports: seq<nat>)
    requires Pages(planes, h, w)
    ensures r.Ok? <==> forall k :: 0 <= k < |rows| ==> RowStats(rows[k], planes, h, w, removeBorder, raster).Ok?
    ensures r.Ok? ==> reports == Progress(|rows|) && |r.value| == |rows|
    ensures r.Ok? ==> forall k :: 0 <= k < |rows| ==>
              r.value[k] == AugmentedRow(rows[k], Extras(RowStats(rows[k], planes, h, w, removeBorder, raster).value))
    ensures r.Err? ==>
              exists k :: 0 <= k < |rows| && FirstFailure(rows, planes, h, w, removeBorder, raster, k) &&
                r.error == RowStats(rows[k], planes, h, w, removeBorder, raster).error && reports == Progress(k + 1)
  {
    var cols := new NewColumns();
    var e;
    ghost var k, done;
    e, reports, k, done := Accumulate(cols, rows, planes, h, w, removeBorder, raster);
    if e.Some? {
      r := Err(e.value);
      return;
    }
    TableRows(cols.cols, done);
    var table := cols.Table();
    r := Ok(Join(rows, table));
    JoinedRows(rows, done, cols.cols, table, r.value);
  }

  /**
    The row loop: for each row, the progress report, then the row's pages,
    label raster and statistics. It stops at row `k` when that row's pages
    cannot be selected; otherwise `done` holds every row's statistics and
    the columns hold them in row order.
  */
  method Accumulate(cols: NewColumns, rows: seq<Row>, planes: seq<Grid>, h: nat, w: nat, removeBorder: bool,
                    raster: string -> Footprint)
    returns (e: Option<EngineError>, reports: seq<nat>, ghost k: nat, ghost done: seq<seq<Stats>>)
    requires Pages(planes, h, w)
    requires Holds(cols.cols, [], [])
    modifies cols
    ensures e.None? ==> Done(rows, planes, h, w, removeBorder, raster, done, |rows|) &&
                        Holds(cols.cols, done, []) && reports == Progress(|rows|)
    ensures e.Some? ==> k < |rows| && FirstFailure(rows, planes, h, w, removeBorder, raster, k) &&
                        e.value == RowStats(rows[k], planes, h, w, removeBorder, raster).error &&
                        reports == Progress(k + 1)
  {
    reports := [];
    done := [];
    k := 0;
    for i := 0 to |rows|
      invariant Done(rows, planes, h, w, removeBorder, raster, done, i)
      invariant Holds(cols.cols, done, [])
      invariant reports == Progress(i)
    {
      ghost var partial;
      e, reports, partial := Step(cols, rows, i, planes, h, w, removeBorder, raster, done, reports);
      if e.Some? {
        k := i;
        return;
      }
      done := done + [partial];
    }
    e := None;
  }

  /**
    One pass of the row loop: `count = len(new_columns["sum_r"]) + 1` and
    its report, then the row itself.
  */
  method Step(cols: NewColumns, rows: seq<Row>, i: nat, planes: seq<Grid>, h: nat, w: nat, removeBorder: bool,
              raster: string -> Footprint, ghost done: seq<seq<Stats>>, reports0: seq<nat>)
    returns (e: Option<EngineError>, reports: seq<nat>, ghost partial: seq<Stats>)
    requires Pages(planes, h, w) && i < |rows|
    requires Done(rows, planes, h, w, removeBorder, raster, done, i)
    requires Holds(cols.cols, done, []) && reports0 == Progress(i)
    modifies cols
    ensures reports == Progress(i + 1)
    ensures e.Some? ==> FirstFailure(rows, planes, h, w, removeBorder, raster, i) &&
                        e.value == RowStats(rows[i], planes, h, w, removeBorder, raster).error
    ensures e.None? ==> Done(rows, planes, h, w, removeBorder, raster, done + [partial], i + 1) &&
                        Holds(cols.cols, done + [partial], [])
  {
    DoneShapes(rows, planes, h, w, removeBorder, raster, done, i);
    HoldsLength(cols.cols, done);
    var count := cols.Len() + 1;
    assert count == i + 1;
    reports := reports0;
    if count % 100 == 0 {
      reports := reports + [count];
    }
    ReportStep(i, reports0, reports);
    e, partial := ProcessRow(cols, rows[i], planes, h, w, removeBorder, raster, done);
    if e.None? {
      DoneStep(rows, planes, h, w, removeBorder, raster, done, i, partial);
    } else {
      DoneThenFails(rows, planes, h, w, removeBorder, raster, done, i);
    }
  }

  /** The report made at count `i + 1` extends the reports of the first `i` rows. */
  lemma ReportStep(i: nat, reports0: seq<nat>, reports: seq<nat>)
    requires reports0 == Progress(i)
    requires reports == reports0 + (if (i + 1) % 100 == 0 then [i + 1] else [])
    ensures reports == Progress(i + 1)
  {
    ProgressStep(i);
  }

  /**
    The body of the row loop after the progress report: select the pages,
    build the label raster, and append the three channels' statistics.
    A failed page lookup leaves the columns as they were.
  */
  method ProcessRow(cols: NewColumns, row: Row, planes: seq<Grid>, h: nat, w: nat, removeBorder: bool,
                    raster: string -> Footprint, ghost done: seq<seq<Stats>>)
    returns (e: Option<EngineError>, ghost partial: seq<Stats>)
    requires Pages(planes, h, w)
    requires forall k :: 0 <= k < |done| ==> |done[k]| == 3
    requires Holds(cols.cols, done, [])
    modifies cols
    ensures e.None? <==> RowStats(row, planes, h, w, removeBorder, raster).Ok?
    ensures e.Some? ==> e.value == RowStats(row, planes, h, w, removeBorder, raster).error && cols.cols == old(cols.cols)
    ensures e.None? ==> partial == RowStats(row, planes, h, w, removeBorder, raster).value
    ensures e.None? ==> |partial| == 3 && Holds(cols.cols, done + [partial], [])
  {
    partial := [];
    var sel := SelectPlanes(planes, row.layerId);
    if sel.Err? {
      return Some(sel.error), partial;
    }
    var fp := raster(row.points);
    var tmp := BuildLabelRaster(h, w, fp, row.contourId, removeBorder);
    CellsAreLabelGrid(tmp, fp, row.contourId, removeBorder);
    partial := AppendChannels(cols, sel.value, tmp, row.contourId, LabelGrid(h, w, fp, row.contourId, removeBorder), done);
    e := None;
  }

  /**
    The loop over `channel_ims.items()`: each channel's page is reduced over
    the pixels of `tmp` labelled `cid`, and its sum, mean and spread are
    appended to that channel's columns.
  */
  method AppendChannels(cols: NewColumns, ps: seq<Grid>, tmp: array2<int>, cid: int,
                        ghost lab: seq<seq<int>>, ghost done: seq<seq<Stats>>)
    returns (ghost partial: seq<Stats>)
    requires |ps| == 3 && forall c :: 0 <= c < 3 ==> Shaped(ps[c], tmp.Length0, tmp.Length1)
    requires lab == Cells(tmp)
    requires Holds(cols.cols, done, [])
    modifies cols
    ensures forall c :: 0 <= c < 3 ==> SameShape(ps[c], lab)
    ensures partial == ChannelStats(ps, lab, cid)
    ensures Holds(cols.cols, done + [partial], [])
  {
    forall c | 0 <= c < 3
      ensures SameShape(ps[c], lab)
    {
      ShapedSameShape(ps[c], lab, tmp.Length0, tmp.Length1);
    }
    ghost var all := ChannelStats(ps, lab, cid);
    partial := [];
    for c := 0 to 3
      invariant partial == all[..c] && Holds(cols.cols, done, partial)
    {
      var st := MaskedStats(ps[c], tmp, cid, lab);
      AppendKeepsHolds(cols.cols, done, partial, st);
      cols.Append(c, st);
      PrefixSnoc(all, c);
      partial := partial + [st];
    }
    assert all[..3] == all;
    FinishRow(cols.cols, done, partial);
  }

  /** Extending a prefix by the next element gives the next prefix. */
  lemma PrefixSnoc<T>(s: seq<T>, c: nat)
    requires c < |s|
    ensures s[..c + 1] == s[..c] + [s[c]]
  {
  }

  /** Row `k` is the first row whose pages cannot be selected. */
  ghost predicate FirstFailure(rows: seq<Row>, planes: seq<Grid>, h: nat, w: nat, removeBorder: bool,
                               raster: string -> Footprint, k: nat)
    requires Pages(planes, h, w)
    requires k < |rows|
  {
    RowStats(rows[k], planes, h, w, removeBorder, raster).Err? &&
    forall m :: 0 <= m < k ==> RowStats(rows[m], planes, h, w, removeBorder, raster).Ok?
  }

  /** The first `k` rows succeeded, and `done` holds their statistics. */
  ghost predicate Done(rows: seq<Row>, planes: seq<Grid>, h: nat, w: nat, removeBorder: bool,
                       raster: string -> Footprint, done: seq<seq<Stats>>, k: nat)
    requires Pages(planes, h, w)
  {
    k <= |rows| && |done| == k &&
    forall m :: 0 <= m < k ==>
      RowStats(rows[m], planes, h, w, removeBorder, raster).Ok? &&
      done[m] == RowStats(rows[m], planes, h, w, removeBorder, raster).value
  }

  lemma DoneStep(rows: seq<Row>, planes: seq<Grid>, h: nat, w: nat, removeBorder: bool,
                 raster: string -> Footprint, done: seq<seq<Stats>>, k: nat, partial: seq<Stats>)
    requires Pages(planes, h, w)
    requires Done(rows, planes, h, w, removeBorder, raster, done, k) && k < |rows|
    requires RowStats(rows[k], planes, h, w, removeBorder, raster).Ok?
    requires partial == RowStats(rows[k], planes, h, w, removeBorder, raster).value
    ensures Done(rows, planes, h, w, removeBorder, raster, done + [partial], k + 1)
  {
  }

  /** Every finished row holds three channel statistics. */
  lemma DoneShapes(rows: seq<Row>, planes: seq<Grid>, h: nat, w: nat, removeBorder: bool,
                   raster: string -> Footprint, done: seq<seq<Stats>>, k: nat)
    requires Pages(planes, h, w)
    requires Done(rows, planes, h, w, removeBorder, raster, done, k)
    ensures |done| == k && forall m :: 0 <= m < |done| ==> |done[m]| == 3
  {
  }

  /** A row that fails right after `k` finished rows is the first failure. */
  lemma DoneThenFails(rows: seq<Row>, planes: seq<Grid>, h: nat, w: nat, removeBorder: bool,
                      raster: string -> Footprint, done: seq<seq<Stats>>, k: nat)
    requires Pages(planes, h, w)
    requires Done(rows, planes, h, w, removeBorder, raster, done, k) && k < |rows|
    requires RowStats(rows[k], planes, h, w, removeBorder, raster).Err?
    ensures FirstFailure(rows, planes, h, w, removeBorder, raster, k)
  {
  }

  lemma HoldsLength(cols: map<Col, seq<Option<real>>>, done: seq<seq<Stats>>)
    requires forall k :: 0 <= k < |done| ==> |done[k]| == 3
    requires Holds(cols, done, [])
    ensures Col(SumOf, 0) in cols && |cols[Col(SumOf, 0)]| == |done|
  {
  }

  /** The joined table: row `k` is input row `k` followed by `Extras` of the `k`-th finished row. */
  lemma JoinedRows(rows: seq<Row>, done: seq<seq<Stats>>,
                   cols: map<Col, seq<Option<real>>>, table: seq<seq<Option<real>>>, joined: seq<AugmentedRow>)
    requires Holds(cols, done, []) && |done| == |rows|
    requires |table| == 9 && forall i :: 0 <= i < 9 ==> ColumnsOrder[i] in cols && table[i] == cols[ColumnsOrder[i]]
    requires forall i :: 0 <= i < 9 ==> |table[i]| == |rows|
    requires joined == Join(rows, table)
    ensures forall k :: 0 <= k < |rows| ==> joined[k] == AugmentedRow(rows[k], Extras(done[k]))
  {
    TableRows(cols, done);
    forall k | 0 <= k < |rows|
      ensures joined[k] == AugmentedRow(rows[k], Extras(done[k]))
    {
      assert joined[k].extra == Extras(done[k]);
    }
  }
}
