/**
  `new_columns`: nine parallel lists, one per statistic and channel, grown
  by one value per list for every contour processed, and read out in the
  fixed order `columns_order`.
*/
module Columns {
  import opened Wrappers
  import opened Reductions

  /** The statistic a column holds. */
  datatype Measure = SumOf | AvgOf | StdOf

  /** Column `<measure>_<channel>`, channel 0, 1, 2 standing for r, g, b. */
  datatype Col = Col(measure: Measure, channel: nat)

  const Channels: string := "rgb"

  /** `columns_order`. */
  const ColumnsOrder: seq<Col> := [
    Col(SumOf, 0), Col(SumOf, 1), Col(SumOf, 2),
    Col(AvgOf, 0), Col(AvgOf, 1), Col(AvgOf, 2),
    Col(StdOf, 0), Col(StdOf, 1), Col(StdOf, 2)]

  /** The column's header in the output table. */
  function ColumnName(c: Col): string
    requires c.channel < 3
  {
    match c.measure
    case SumOf => "sum_" + [Channels[c.channel]]
    case AvgOf => "tmp_avg_" + [Channels[c.channel]]
    case StdOf => "tmp_std_" + [Channels[c.channel]]
  }

  /** The headers of the appended columns, in their output order. */
  lemma ColumnHeaders()
    ensures seq(9, i requires 0 <= i < 9 => ColumnName(ColumnsOrder[i])) ==
              ["sum_r", "sum_g", "sum_b", "tmp_avg_r", "tmp_avg_g", "tmp_avg_b", "tmp_std_r", "tmp_std_g", "tmp_std_b"]
  {
    assert ColumnName(Col(SumOf, 0)) == "sum_r";
    assert ColumnName(Col(SumOf, 1)) == "sum_g";
    assert ColumnName(Col(SumOf, 2)) == "sum_b";
    assert ColumnName(Col(AvgOf, 0)) == "tmp_avg_r";
    assert ColumnName(Col(AvgOf, 1)) == "tmp_avg_g";
    assert ColumnName(Col(AvgOf, 2)) == "tmp_avg_b";
    assert ColumnName(Col(StdOf, 0)) == "tmp_std_r";
    assert ColumnName(Col(StdOf, 1)) == "tmp_std_g";
    assert ColumnName(Col(StdOf, 2)) == "tmp_std_b";
  }

  /** `columns_order` lists each of the nine columns exactly once. */
  lemma ColumnsOrderComplete()
    ensures forall c :: c in ColumnsOrder <==> c.channel < 3
    ensures forall i, j :: 0 <= i < j < |ColumnsOrder| ==> ColumnsOrder[i] != ColumnsOrder[j]
  {
    forall c: Col | c.channel < 3
      ensures c in ColumnsOrder
    {
      match c.measure
      case SumOf => assert c == ColumnsOrder[c.channel];
      case AvgOf => assert c == ColumnsOrder[3 + c.channel];
      case StdOf => assert c == ColumnsOrder[6 + c.channel];
    }
  }

  /** The value of column measure `m` for a channel whose statistics are `st` (`ma.std()` as its square). */
  function Pick(m: Measure, st: Stats): Option<real> {
    match m
    case SumOf => st.sum
    case AvgOf => st.mean
    case StdOf => st.variance
  }

  /**
    The nine appended values of a row whose channel statistics are `sts`,
    in column order.
  */
  function Extras(sts: seq<Stats>): (r: seq<Option<real>>)
    requires |sts| == 3
    ensures r == [sts[0].sum, sts[1].sum, sts[2].sum,
                  sts[0].mean, sts[1].mean, sts[2].mean,
                  sts[0].variance, sts[1].variance, sts[2].variance]
  {
    seq(9, i requires 0 <= i < 9 => Pick(ColumnsOrder[i].measure, sts[ColumnsOrder[i].channel]))
  }

  /** Every finished row has statistics for its three channels. */
  ghost predicate Triples(done: seq<seq<Stats>>) {
    forall k :: 0 <= k < |done| ==> |done[k]| == 3
  }

  /** Column `c` over the finished rows `done`. */
  ghost function ColumnOf(done: seq<seq<Stats>>, c: Col): (r: seq<Option<real>>)
    requires Triples(done) && c.channel < 3
    ensures |r| == |done|
  {
    if done == [] then []
    else ColumnOf(done[..|done| - 1], c) + [Pick(c.measure, done[|done| - 1][c.channel])]
  }

  lemma {:induction false} ColumnOfAt(done: seq<seq<Stats>>, c: Col, k: nat)
    requires Triples(done) && c.channel < 3 && k < |done|
    ensures ColumnOf(done, c)[k] == Pick(c.measure, done[k][c.channel])
  {
    if k < |done| - 1 {
      ColumnOfAt(done[..|done| - 1], c, k);
    }
  }

  /** Column `c` after the finished rows and the done channels `partial` of the current row. */
  ghost function Expected(done: seq<seq<Stats>>, partial: seq<Stats>, c: Col): seq<Option<real>>
    requires Triples(done) && c.channel < 3
  {
    ColumnOf(done, c) + (if c.channel < |partial| then [Pick(c.measure, partial[c.channel])] else [])
  }

  /**
    The columns as values: after the rows whose statistics are `done`, and
    the first `|partial|` channels of the current row, every column holds
    one value per finished row, plus the current row's value when its
    channel is already done.
  */
  ghost predicate Holds(cols: map<Col, seq<Option<real>>>, done: seq<seq<Stats>>, partial: seq<Stats>) {
    Triples(done) &&
    (forall c: Col :: c in cols <==> c.channel < 3) &&
    forall c: Col :: c.channel < 3 ==> cols[c] == Expected(done, partial, c)
  }

  class NewColumns {
    var cols: map<Col, seq<Option<real>>>

    ghost predicate Valid()
      reads this
    {
      forall c: Col :: c in cols <==> c.channel < 3
    }

    /** The loop over "rgb" that creates the nine empty lists. */
    constructor ()
      ensures Valid()
      ensures forall c :: c in cols ==> cols[c] == []
    {
      var m: map<Col, seq<Option<real>>> := map[];
      for ch := 0 to 3
        invariant forall c: Col :: c in m <==> c.channel < ch
        invariant forall c :: c in m ==> m[c] == []
      {
        m := m[Col(SumOf, ch) := []][Col(AvgOf, ch) := []][Col(StdOf, ch) := []];
        forall c: Col | c.channel == ch
          ensures c in m
        {
          match c.measure
          case SumOf =>
          case AvgOf =>
          case StdOf =>
        }
      }
      cols := m;
    }

    /** `len(new_columns["sum_r"])`. */
    function Len(): nat
      reads this
      requires Valid()
    {
      |cols[Col(SumOf, 0)]|
    }

    /** Appends one channel's sum, mean and standard deviation to that channel's three lists. */
    method Append(ch: nat, st: Stats)
      requires Valid() && ch < 3
      modifies this
      ensures Valid()
      ensures cols == old(cols)[Col(SumOf, ch) := old(cols[Col(SumOf, ch)]) + [st.sum]]
                               [Col(AvgOf, ch) := old(cols[Col(AvgOf, ch)]) + [st.mean]]
                               [Col(StdOf, ch) := old(cols[Col(StdOf, ch)]) + [st.variance]]
    {
      cols := cols[Col(SumOf, ch) := cols[Col(SumOf, ch)] + [st.sum]];
      cols := cols[Col(AvgOf, ch) := cols[Col(AvgOf, ch)] + [st.mean]];
      cols := cols[Col(StdOf, ch) := cols[Col(StdOf, ch)] + [st.variance]];
    }

    /** `pd.DataFrame(new_columns)[columns_order]`, column by column. */
    function Table(): (t: seq<seq<Option<real>>>)
      reads this
      requires Valid()
      ensures |t| == 9 && forall i :: 0 <= i < 9 ==> ColumnsOrder[i] in cols && t[i] == cols[ColumnsOrder[i]]
    {
      ColumnsOrderComplete();
      seq(9, i requires 0 <= i < 9 && ColumnsOrder[i] in cols reads this => cols[ColumnsOrder[i]])
    }
  }

  /** Appending the next channel's statistics keeps `Holds`. */
  lemma AppendKeepsHolds(cols: map<Col, seq<Option<real>>>, done: seq<seq<Stats>>, partial: seq<Stats>, st: Stats)
    requires Holds(cols, done, partial) && |partial| < 3
    ensures Holds(cols[Col(SumOf, |partial|) := cols[Col(SumOf, |partial|)] + [st.sum]]
                      [Col(AvgOf, |partial|) := cols[Col(AvgOf, |partial|)] + [st.mean]]
                      [Col(StdOf, |partial|) := cols[Col(StdOf, |partial|)] + [st.variance]],
                  done, partial + [st])
  {
    var ch := |partial|;
    var r := cols[Col(SumOf, ch) := cols[Col(SumOf, ch)] + [st.sum]]
                 [Col(AvgOf, ch) := cols[Col(AvgOf, ch)] + [st.mean]]
                 [Col(StdOf, ch) := cols[Col(StdOf, ch)] + [st.variance]];
    forall c: Col | c.channel < 3
      ensures r[c] == Expected(done, partial + [st], c)
    {
      if c.channel < ch {
        assert (partial + [st])[c.channel] == partial[c.channel];
      }
    }
  }

  /** A row whose three channels are done becomes a finished row. */
  lemma FinishRow(cols: map<Col, seq<Option<real>>>, done: seq<seq<Stats>>, partial: seq<Stats>)
    requires Holds(cols, done, partial) && |partial| == 3
    ensures Holds(cols, done + [partial], [])
  {
    var next := done + [partial];
    assert next[..|done|] == done;
    forall c: Col | c.channel < 3
      ensures cols[c] == Expected(next, [], c)
    {
    }
  }

  /**
    Under `Holds` with no partial row, every column holds exactly one value
    per finished row, and row `k`'s values across the table, in
    `columns_order`, are `Extras` of that row's statistics.
  */
  lemma TableRows(cols: map<Col, seq<Option<real>>>, done: seq<seq<Stats>>)
    requires Holds(cols, done, [])
    ensures forall i :: 0 <= i < 9 ==> ColumnsOrder[i] in cols && |cols[ColumnsOrder[i]]| == |done|
    ensures forall k, i :: 0 <= k < |done| && 0 <= i < 9 ==> cols[ColumnsOrder[i]][k] == Extras(done[k])[i]
  {
    forall i | 0 <= i < 9
      ensures ColumnsOrder[i] in cols && |cols[ColumnsOrder[i]]| == |done|
    {
      assert ColumnsOrder[i].channel < 3;
    }
    forall k, i | 0 <= k < |done| && 0 <= i < 9
      ensures cols[ColumnsOrder[i]][k] == Extras(done[k])[i]
    {
      assert ColumnsOrder[i].channel < 3;
      ColumnOfAt(done, ColumnsOrder[i], k);
    }
  }
}
