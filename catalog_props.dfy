/**
  What the contour catalog promises about its result: layer and contour
  order, which record wins for a repeated id, when label injection fails,
  which label each contour ends up with, and the layout of the data frame.
*/
module CatalogProperties {
  import opened Wrappers
  import opened OrderedDict
  import opened Catalog

  // ---------------------------------------------------------------------------
  // Keying by id

  /** Position of the last occurrence of `k` in `ks`. */
  function LastIndex(ks: seq<int>, k: int): (i: nat)
    requires k in ks
    ensures i < |ks| && ks[i] == k && k !in ks[i + 1..]
  {
    if ks[|ks| - 1] == k then |ks| - 1
    else
      assert k in ks[..|ks| - 1] by {
        var j :| 0 <= j < |ks| && ks[j] == k;
        assert ks[..|ks| - 1][j] == k;
      }
      var i := LastIndex(ks[..|ks| - 1], k);
      assert ks[i + 1..] == ks[..|ks| - 1][i + 1..] + [ks[|ks| - 1]];
      i
  }

  /** Every key of `FromSeqs(ks, vs)` holds the value paired with its last occurrence. */
  lemma FromSeqsValueAtLast(ks: seq<int>, vs: seq<LayerFile>, k: int)
    requires |ks| == |vs| && k in FromSeqs(ks, vs).vals
    ensures k in ks && FromSeqs(ks, vs).vals[k] == vs[LastIndex(ks, k)]
  {
    FromSeqsKeys(ks, vs);
    FromSeqsLastWins(ks, vs);
    var i := LastIndex(ks, k);
    assert ks[i] !in ks[i + 1..];
  }

  /** The value stored under a key is the one paired with its last occurrence. */
  lemma FromSeqsLastAt<V>(ks: seq<int>, vs: seq<V>, i: nat)
    requires |ks| == |vs| && i < |ks|
    requires forall j :: i < j < |ks| ==> ks[j] != ks[i]
    ensures ks[i] in FromSeqs(ks, vs).vals && FromSeqs(ks, vs).vals[ks[i]] == vs[i]
  {
    FromSeqsLastWins(ks, vs);
    assert ks[i] !in ks[i + 1..];
  }

  /** Every key of `FromSeqs(ks, vs)` comes from `ks`. */
  lemma FromSeqsKeyFrom<V>(ks: seq<int>, vs: seq<V>, k: int)
    requires |ks| == |vs| && k in FromSeqs(ks, vs).vals
    ensures exists i :: 0 <= i < |ks| && ks[i] == k
  {
    FromSeqsKeys(ks, vs);
  }

  /**
    `layers` lists every manifest id once, in the order of its first
    appearance in the manifest, and maps it to that layer's file.
  */
  lemma LayersInManifestOrder(ids: seq<int>, files: map<int, LayerFile>)
    requires AllPresent(ids, files)
    ensures forall l :: l in FromSeqs(ids, LayerFiles(ids, files)).keys <==> l in ids
    ensures InFirstOrder(FromSeqs(ids, LayerFiles(ids, files)).keys, ids)
    ensures forall l :: l in FromSeqs(ids, LayerFiles(ids, files)).vals ==>
              l in files && FromSeqs(ids, LayerFiles(ids, files)).vals[l] == files[l]
  {
    var fs := LayerFiles(ids, files);
    var d := FromSeqs(ids, fs);
    FromSeqsKeys(ids, fs);
    FromSeqsOrder(ids, fs);
    forall l | l in d.vals
      ensures l in files && d.vals[l] == files[l]
    {
      FromSeqsValueAtLast(ids, fs, l);
    }
  }

  /** Within a layer, the contour ids are the keys, in order of first appearance. */
  lemma ContourKeys(cs: seq<Contour>)
    ensures forall c :: c in IndexContours(cs).keys <==> exists i :: 0 <= i < |cs| && cs[i].id == c
    ensures InFirstOrder(IndexContours(cs).keys, ContourIds(cs))
  {
    var ks := ContourIds(cs);
    FromSeqsKeys(ks, cs);
    FromSeqsOrder(ks, cs);
    forall c | c in IndexContours(cs).keys
      ensures exists i :: 0 <= i < |cs| && cs[i].id == c
    {
      var i :| 0 <= i < |ks| && ks[i] == c;
      assert cs[i].id == c;
    }
  }

  /**
    A later contour with the same id replaces the earlier one, so each id
    holds its last contour, whose `id` is that key.
  */
  lemma ContoursLastWins(cs: seq<Contour>)
    ensures forall i :: 0 <= i < |cs| && (forall j :: i < j < |cs| ==> cs[j].id != cs[i].id) ==>
              cs[i].id in IndexContours(cs).vals && IndexContours(cs).vals[cs[i].id] == cs[i]
    ensures forall c :: c in IndexContours(cs).vals ==> IndexContours(cs).vals[c].id == c
  {
    var ks := ContourIds(cs);
    var d := IndexContours(cs);
    forall i | 0 <= i < |cs| && (forall j :: i < j < |cs| ==> cs[j].id != cs[i].id)
      ensures cs[i].id in d.vals && d.vals[cs[i].id] == cs[i]
    {
      FromSeqsLastAt(ks, cs, i);
    }
    forall c | c in d.vals
      ensures d.vals[c].id == c
    {
      FromSeqsKeyFrom(ks, cs, c);
      var i := LastIndex(ks, c);
      FromSeqsLastAt(ks, cs, i);
    }
  }

  /** The overlay layers are keyed by their `id`. */
  lemma OverlayKeys(ls: seq<OverlayLayer>)
    ensures forall l :: l in IndexOverlay(ls).keys <==> exists i :: 0 <= i < |ls| && ls[i].id == l
  {
    var ks := OverlayIds(ls);
    FromSeqsKeys(ks, ls);
    forall l | l in IndexOverlay(ls).keys
      ensures exists i :: 0 <= i < |ls| && ls[i].id == l
    {
      var i :| 0 <= i < |ks| && ks[i] == l;
      assert ls[i].id == l;
    }
  }

  /**
    A later overlay layer with the same id replaces the earlier one as a
    whole.
  */
  lemma OverlayLastWins(ls: seq<OverlayLayer>)
    ensures forall i :: 0 <= i < |ls| && (forall j :: i < j < |ls| ==> ls[j].id != ls[i].id) ==>
              ls[i].id in IndexOverlay(ls).vals && IndexOverlay(ls).vals[ls[i].id] == ls[i]
  {
    forall i | 0 <= i < |ls| && (forall j :: i < j < |ls| ==> ls[j].id != ls[i].id)
      ensures ls[i].id in IndexOverlay(ls).vals && IndexOverlay(ls).vals[ls[i].id] == ls[i]
    {
      FromSeqsLastAt(OverlayIds(ls), ls, i);
    }
  }

  // ---------------------------------------------------------------------------
  // Label injection

  /** The assignments are exactly the entries listed under the kept overlay layers. */
  lemma {:induction false} RecordsUpToMembers(fl: ODict<int, OverlayLayer>, i: nat)
    requires Valid(fl) && i <= |fl.keys|
    ensures forall r :: r in RecordsUpTo(fl, i) <==>
              r.layer in fl.keys[..i] && r.layer in fl.vals && r.entry in OverlayEntries(fl, r.layer)
  {
    if i > 0 {
      RecordsUpToMembers(fl, i - 1);
      var l := fl.keys[i - 1];
      assert fl.keys[..i] == fl.keys[..i - 1] + [l];
      forall r
        ensures r in LayerRecords(l, OverlayEntries(fl, l)) <==> r.layer == l && r.entry in OverlayEntries(fl, l)
      {
        if r.layer == l && r.entry in OverlayEntries(fl, l) {
          var j :| 0 <= j < |OverlayEntries(fl, l)| && OverlayEntries(fl, l)[j] == r.entry;
          assert LayerRecords(l, OverlayEntries(fl, l))[j] == r;
        }
      }
    }
  }

  /**
    Every entry of every kept overlay layer has a label and names a contour
    of a layer of the manifest.
  */
  ghost predicate EntriesApplicable(full: FullData, fl: ODict<int, OverlayLayer>) {
    forall l, oc :: l in fl.vals && oc in OverlayEntries(fl, l) ==>
      oc.labelText.Some? && l in full.vals && oc.id in full.vals[l].vals
  }

  /**
    Injection fails exactly when some entry of a kept overlay layer has no
    label, names a layer absent from the manifest, or names a contour id
    absent from that layer.
  */
  lemma InjectFailsIff(full: FullData, fl: ODict<int, OverlayLayer>)
    requires ValidFull(full) && Valid(fl)
    ensures InjectSpec(full, fl).Ok? <==> EntriesApplicable(full, fl)
  {
    var rs := OverlayRecords(fl);
    OverlayRecordsMembers(fl);
    if AllGood(full, rs) {
      assert InjectSpec(full, fl).Ok?;
      forall l, oc | l in fl.vals && oc in OverlayEntries(fl, l)
        ensures Good(full, Record(l, oc))
      {
        GoodMember(full, rs, Record(l, oc));
      }
    } else {
      var r := rs[FirstBad(full, rs)];
      assert r in rs && !Good(full, r);
      assert InjectSpec(full, fl).Err?;
    }
  }

  /**
    When injection fails, the error names an entry of a kept overlay layer
    that cannot be applied.
  */
  lemma InjectFailureNamesEntry(full: FullData, fl: ODict<int, OverlayLayer>)
    requires ValidFull(full) && Valid(fl)
    ensures InjectSpec(full, fl).Err? ==>
              exists l, oc :: l in fl.vals && oc in OverlayEntries(fl, l) && !Good(full, Record(l, oc)) &&
                InjectSpec(full, fl).error == RecordError(full, Record(l, oc))
  {
    var rs := OverlayRecords(fl);
    OverlayRecordsMembers(fl);
    if !AllGood(full, rs) {
      var r := rs[FirstBad(full, rs)];
      assert r in rs;
      assert InjectSpec(full, fl).error == RecordError(full, Record(r.layer, r.entry));
    }
  }

  /** The assignments of all kept overlay layers. */
  lemma OverlayRecordsMembers(fl: ODict<int, OverlayLayer>)
    requires Valid(fl)
    ensures forall r :: r in OverlayRecords(fl) <==> r.layer in fl.vals && r.entry in OverlayEntries(fl, r.layer)
  {
    RecordsUpToMembers(fl, |fl.keys|);
    assert fl.keys[..|fl.keys|] == fl.keys;
  }

  lemma GoodMember(full: FullData, rs: seq<Record>, r: Record)
    requires AllGood(full, rs) && r in rs
    ensures Good(full, r)
  {
    var k :| 0 <= k < |rs| && rs[k] == r;
  }

  /** `ocs[j]` is an entry for contour `c`, and no later entry is. */
  ghost predicate LastWithId(ocs: seq<OverlayContour>, c: int, j: int) {
    0 <= j < |ocs| && ocs[j].id == c && forall m :: j < m < |ocs| ==> ocs[m].id != c
  }

  /** The last entry for contour `c` in one overlay layer's list, if any. */
  function LastEntry(ocs: seq<OverlayContour>, c: int): (o: Option<OverlayContour>)
    ensures o.Some? ==> o.value in ocs && o.value.id == c
    ensures o.None? ==> forall j :: 0 <= j < |ocs| ==> ocs[j].id != c
    ensures o.Some? ==> exists j :: LastWithId(ocs, c, j) && ocs[j] == o.value
  {
    if ocs == [] then None
    else if ocs[|ocs| - 1].id == c then
      assert LastWithId(ocs, c, |ocs| - 1);
      Some(ocs[|ocs| - 1])
    else
      var o := LastEntry(ocs[..|ocs| - 1], c);
      assert forall j :: 0 <= j < |ocs| - 1 ==> ocs[j] == ocs[..|ocs| - 1][j];
      if o.Some? then LastWithIdExtend(ocs, ocs[..|ocs| - 1], c, o.value); o else o
  }

  /** A last entry in all but the final entry stays last when the final one has another id. */
  lemma LastWithIdExtend(ocs: seq<OverlayContour>, prefix: seq<OverlayContour>, c: int, v: OverlayContour)
    requires ocs != [] && prefix == ocs[..|ocs| - 1] && ocs[|ocs| - 1].id != c
    requires exists j :: LastWithId(prefix, c, j) && prefix[j] == v
    ensures exists j :: LastWithId(ocs, c, j) && ocs[j] == v
  {
    var j :| LastWithId(prefix, c, j) && prefix[j] == v;
    assert prefix[j] == ocs[j];
    forall m | j < m < |ocs| - 1
      ensures ocs[m].id != c
    {
      assert prefix[m] == ocs[m];
    }
    assert LastWithId(ocs, c, j);
  }

  lemma {:induction false} LastRecordOfLayer(l: int, ocs: seq<OverlayContour>, c: int, prefix: seq<Record>)
    ensures LastRecord(prefix + LayerRecords(l, ocs), l, c) ==
              if LastEntry(ocs, c).Some? then LastEntry(ocs, c) else LastRecord(prefix, l, c)
  {
    if ocs != [] {
      var n := |ocs| - 1;
      assert LayerRecords(l, ocs) == LayerRecords(l, ocs[..n]) + [Record(l, ocs[n])];
      assert prefix + LayerRecords(l, ocs) == (prefix + LayerRecords(l, ocs[..n])) + [Record(l, ocs[n])];
      LastRecordStep(prefix + LayerRecords(l, ocs[..n]), Record(l, ocs[n]), l, c);
      LastRecordOfLayer(l, ocs[..n], c, prefix);
    } else {
      assert prefix + LayerRecords(l, ocs) == prefix;
    }
  }

  lemma LastRecordOtherLayer(l: int, l': int, ocs: seq<OverlayContour>, c: int, prefix: seq<Record>)
    requires l != l'
    ensures LastRecord(prefix + LayerRecords(l', ocs), l, c) == LastRecord(prefix, l, c)
  {
    if ocs != [] {
      var n := |ocs| - 1;
      assert LayerRecords(l', ocs) == LayerRecords(l', ocs[..n]) + [Record(l', ocs[n])];
      assert prefix + LayerRecords(l', ocs) == (prefix + LayerRecords(l', ocs[..n])) + [Record(l', ocs[n])];
      LastRecordStep(prefix + LayerRecords(l', ocs[..n]), Record(l', ocs[n]), l, c);
      LastRecordOtherLayer(l, l', ocs[..n], c, prefix);
    } else {
      assert prefix + LayerRecords(l', ocs) == prefix;
    }
  }

  /**
    The assignment that decides contour `c` of layer `l` is the last entry
    for `c` in the one overlay layer kept under `l`; there is none when the
    overlay keeps no layer `l`.
  */
  lemma {:induction false} LastRecordIsLastEntry(fl: ODict<int, OverlayLayer>, i: nat, l: int, c: int)
    requires Valid(fl) && i <= |fl.keys|
    ensures LastRecord(RecordsUpTo(fl, i), l, c) ==
              if l in fl.keys[..i] then LastEntry(OverlayEntries(fl, l), c) else None
  {
    if i > 0 {
      var l' := fl.keys[i - 1];
      LastRecordIsLastEntry(fl, i - 1, l, c);
      NextKey(fl, i - 1);
      if l == l' {
        LastRecordNewLayer(fl, i, c);
      } else {
        LastRecordOldLayer(fl, i, l, c);
      }
    }
  }

  lemma LastRecordNewLayer(fl: ODict<int, OverlayLayer>, i: nat, c: int)
    requires Valid(fl) && 0 < i <= |fl.keys|
    requires LastRecord(RecordsUpTo(fl, i - 1), fl.keys[i - 1], c) == None
    ensures LastRecord(RecordsUpTo(fl, i), fl.keys[i - 1], c) == LastEntry(OverlayEntries(fl, fl.keys[i - 1]), c)
  {
    var l := fl.keys[i - 1];
    LastRecordOfLayer(l, OverlayEntries(fl, l), c, RecordsUpTo(fl, i - 1));
  }

  lemma LastRecordOldLayer(fl: ODict<int, OverlayLayer>, i: nat, l: int, c: int)
    requires Valid(fl) && 0 < i <= |fl.keys| && l != fl.keys[i - 1]
    ensures LastRecord(RecordsUpTo(fl, i), l, c) == LastRecord(RecordsUpTo(fl, i - 1), l, c)
  {
    var l' := fl.keys[i - 1];
    LastRecordOtherLayer(l, l', OverlayEntries(fl, l'), c, RecordsUpTo(fl, i - 1));
  }

  /**
    After a successful injection, every contour is its original record with
    only `label` changed: a contour listed in the overlay layer kept under its
    layer id takes the label of its last entry there; any other contour keeps
    its own label (or none).
  */
  lemma InjectedLabels(full: FullData, fl: ODict<int, OverlayLayer>)
    requires ValidFull(full) && Valid(fl) && InjectSpec(full, fl).Ok?
    ensures SameButLabels(full, InjectSpec(full, fl).value)
    ensures forall l, c :: l in full.vals && c in full.vals[l].vals ==>
              InjectSpec(full, fl).value.vals[l].vals[c].labelText ==
                if l in fl.vals && LastEntry(OverlayEntries(fl, l), c).Some?
                then LastEntry(OverlayEntries(fl, l), c).value.labelText
                else full.vals[l].vals[c].labelText
  {
    var rs := OverlayRecords(fl);
    RelabelSpec(full, rs);
    assert fl.keys[..|fl.keys|] == fl.keys;
    forall l, c | l in full.vals && c in full.vals[l].vals {
      LastRecordIsLastEntry(fl, |fl.keys|, l, c);
    }
  }

  // ---------------------------------------------------------------------------
  // The data frame

  /** Number of contours of the `a`-th layer. */
  function Size(full: FullData, a: nat): nat
    requires ValidFull(full) && a < |full.keys|
  {
    |full.vals[full.keys[a]].keys|
  }

  /** Number of rows of the first `a` layers. */
  function Offset(full: FullData, a: nat): nat
    requires ValidFull(full) && a <= |full.keys|
  {
    if a == 0 then 0 else Offset(full, a - 1) + Size(full, a - 1)
  }

  /** The row for the `b`-th contour of the `a`-th layer. */
  function RowOf(full: FullData, a: nat, b: nat): Row
    requires ValidFull(full) && a < |full.keys| && b < Size(full, a)
  {
    var layer := full.vals[full.keys[a]];
    MakeRow(full.keys[a], layer.keys[b], layer.vals[layer.keys[b]])
  }

  lemma {:induction false} OffsetGrows(full: FullData, a: nat, i: nat)
    requires ValidFull(full) && a < i <= |full.keys|
    ensures Offset(full, a) + Size(full, a) <= Offset(full, i)
  {
    if a < i - 1 {
      OffsetGrows(full, a, i - 1);
    }
  }

  lemma {:induction false} LayerRowsAt(l: int, layer: Layer, j: nat)
    requires Valid(layer) && j <= |layer.keys|
    ensures |LayerRows(l, layer, j)| == j
    ensures forall b :: 0 <= b < j ==>
              LayerRows(l, layer, j)[b] == MakeRow(l, layer.keys[b], layer.vals[layer.keys[b]])
  {
    if j > 0 {
      LayerRowsAt(l, layer, j - 1);
    }
  }

  lemma {:induction false} FlattenUpToLength(full: FullData, i: nat)
    requires ValidFull(full) && i <= |full.keys|
    ensures |FlattenUpTo(full, i)| == Offset(full, i)
  {
    if i > 0 {
      FlattenUpToLength(full, i - 1);
      var l := full.keys[i - 1];
      LayerRowsAt(l, full.vals[l], Size(full, i - 1));
    }
  }

  /** Among the rows of the first `i` layers, row `Offset(a) + b` is `RowOf(a, b)`. */
  lemma {:induction false} FlattenUpToRow(full: FullData, i: nat, a: nat, b: nat)
    requires ValidFull(full) && a < i <= |full.keys| && b < Size(full, a)
    ensures Offset(full, a) + b < |FlattenUpTo(full, i)|
    ensures FlattenUpTo(full, i)[Offset(full, a) + b] == RowOf(full, a, b)
  {
    if a < i - 1 {
      FlattenUpToRow(full, i - 1, a, b);
      FlattenUpToKeeps(full, i, Offset(full, a) + b);
    } else {
      FlattenUpToLast(full, i, b);
    }
  }

  /** Adding a layer keeps the rows before it. */
  lemma FlattenUpToKeeps(full: FullData, i: nat, k: nat)
    requires ValidFull(full) && 0 < i <= |full.keys| && k < |FlattenUpTo(full, i - 1)|
    ensures k < |FlattenUpTo(full, i)| && FlattenUpTo(full, i)[k] == FlattenUpTo(full, i - 1)[k]
  {
    var l := full.keys[i - 1];
    ConcatLeft(FlattenUpTo(full, i - 1), LayerRows(l, full.vals[l], Size(full, i - 1)), k);
  }

  /** The rows of the `i`-th layer follow those of the layers before it. */
  lemma FlattenUpToLast(full: FullData, i: nat, b: nat)
    requires ValidFull(full) && 0 < i <= |full.keys| && b < Size(full, i - 1)
    ensures Offset(full, i - 1) + b < |FlattenUpTo(full, i)|
    ensures FlattenUpTo(full, i)[Offset(full, i - 1) + b] == RowOf(full, i - 1, b)
  {
    var l := full.keys[i - 1];
    var prev := FlattenUpTo(full, i - 1);
    var mine := LayerRows(l, full.vals[l], Size(full, i - 1));
    FlattenUpToLength(full, i - 1);
    LayerRowsAt(l, full.vals[l], Size(full, i - 1));
    ConcatRight(prev, mine, b);
  }

  lemma ConcatLeft<T>(p: seq<T>, q: seq<T>, k: nat)
    requires k < |p|
    ensures k < |p + q| && (p + q)[k] == p[k]
  {
  }

  lemma ConcatRight<T>(p: seq<T>, q: seq<T>, k: nat)
    requires k < |q|
    ensures |p| + k < |p + q| && (p + q)[|p| + k] == q[k]
  {
  }

  /**
    The data frame has exactly one row per (layer, contour id) of
    `full_data`: there are `Offset` of all layers rows.
  */
  lemma FlattenLength(full: FullData)
    requires ValidFull(full)
    ensures |Flatten(full)| == Offset(full, |full.keys|)
  {
    FlattenUpToLength(full, |full.keys|);
  }

  /**
    The rows come layer after layer in layer order and, within a layer, in
    contour insertion order: row `Offset(a) + b` of the frame is the `b`-th
    contour of the `a`-th layer.
  */
  lemma FlattenLayout(full: FullData, a: nat, b: nat)
    requires ValidFull(full) && a < |full.keys| && b < Size(full, a)
    ensures Offset(full, a) + b < |Flatten(full)|
    ensures Flatten(full)[Offset(full, a) + b] == RowOf(full, a, b)
  {
    FlattenUpToRow(full, |full.keys|, a, b);
  }

  lemma {:induction false} LayerRowsDistinct(l: int, layer: Layer, j: nat)
    requires Valid(layer) && j <= |layer.keys|
    ensures forall p :: 0 <= p < |LayerRows(l, layer, j)| ==> LayerRows(l, layer, j)[p].layerId == l
    ensures forall p, q :: 0 <= p < q < |LayerRows(l, layer, j)| ==>
              LayerRows(l, layer, j)[p].contourId != LayerRows(l, layer, j)[q].contourId
  {
    LayerRowsAt(l, layer, j);
  }

  lemma {:induction false} FlattenUpToDistinct(full: FullData, i: nat)
    requires ValidFull(full) && i <= |full.keys|
    ensures forall p :: 0 <= p < |FlattenUpTo(full, i)| ==> FlattenUpTo(full, i)[p].layerId in full.keys[..i]
    ensures forall p, q :: 0 <= p < q < |FlattenUpTo(full, i)| ==>
              (FlattenUpTo(full, i)[p].layerId, FlattenUpTo(full, i)[p].contourId) !=
              (FlattenUpTo(full, i)[q].layerId, FlattenUpTo(full, i)[q].contourId)
  {
    if i > 0 {
      FlattenUpToDistinct(full, i - 1);
      var l := full.keys[i - 1];
      var prev := FlattenUpTo(full, i - 1);
      var mine := LayerRows(l, full.vals[l], |full.vals[l].keys|);
      LayerRowsDistinct(l, full.vals[l], |full.vals[l].keys|);
      assert full.keys[..i] == full.keys[..i - 1] + [l];
      assert l !in full.keys[..i - 1];
      var rows := FlattenUpTo(full, i);
      assert rows == prev + mine;
      forall p, q | 0 <= p < q < |rows|
        ensures (rows[p].layerId, rows[p].contourId) != (rows[q].layerId, rows[q].contourId)
      {
        if q >= |prev| && p < |prev| {
          assert rows[p] == prev[p] && rows[q] == mine[q - |prev|];
        } else if p >= |prev| {
          assert rows[p] == mine[p - |prev|] && rows[q] == mine[q - |prev|];
        }
      }
    }
  }

  /** No (layer id, contour id) pair appears in two rows of the data frame. */
  lemma FlattenDistinct(full: FullData)
    requires ValidFull(full)
    ensures forall p, q :: 0 <= p < q < |Flatten(full)| ==>
              (Flatten(full)[p].layerId, Flatten(full)[p].contourId) != (Flatten(full)[q].layerId, Flatten(full)[q].contourId)
  {
    FlattenUpToDistinct(full, |full.keys|);
  }
  // ---------------------------------------------------------------------------
  // The filename argument

  /**
    The constructor raises `ValueError` exactly when its argument is neither a
    path nor a string (no later failure is that error); a string behaves as
    the path it names, and a path becomes `filename` unchanged.
  */
  lemma FilenameArgument(arg: FileArg, ids: seq<int>, files: map<int, LayerFile>, overlay: seq<OverlayLayer>)
    ensures LoadSpec(arg, ids, files, overlay) == Err(NotAPath) <==> arg.OtherArg?
    ensures arg.StrArg? ==> LoadSpec(arg, ids, files, overlay) == LoadSpec(PathArg(Path(arg.text)), ids, files, overlay)
    ensures arg.PathArg? && LoadSpec(arg, ids, files, overlay).Ok? ==>
              LoadSpec(arg, ids, files, overlay).value.filename == arg.path
  {
    if !arg.OtherArg? {
      var p := if arg.PathArg? then arg.path else Path(arg.text);
      LoadFromNeverNotAPath(p, ids, files, overlay);
    }
  }

  lemma LoadFromNeverNotAPath(p: Path, ids: seq<int>, files: map<int, LayerFile>, overlay: seq<OverlayLayer>)
    ensures LoadFrom(p, ids, files, overlay) != Err(NotAPath)
    ensures LoadFrom(p, ids, files, overlay).Ok? ==> LoadFrom(p, ids, files, overlay).value.filename == p
  {
    if AllPresent(ids, files) {
      var full := Nest(FromSeqs(ids, LayerFiles(ids, files)));
      var fl := IndexOverlay(overlay);
      var rs := OverlayRecords(fl);
      if !AllGood(full, rs) {
        assert InjectSpec(full, fl) == Err(RecordError(full, rs[FirstBad(full, rs)]));
      }
    }
  }
}
