/**
  The contour catalog of a silhouette file (the `SilhouetteFile` constructor):
  the parsed manifest, per-layer files and overlay are merged into a nested
  dictionary layer id -> contour id -> contour record, overlay labels are
  injected into it, and it is flattened into a table of 13-field rows.

  Reading and parsing the JSON files is not modelled: the manifest is the
  sequence of its `layer_ids`, the per-layer files are a map from layer id to
  the parsed file (a missing key is a missing file), the overlay is the
  sequence of its `layers`.
*/
module Catalog {
  import opened Wrappers
  import opened OrderedDict

  /** A filesystem path; its text is opaque here. */
  datatype Path = Path(text: string)

  /** The `filename` argument: a path, a string, or a value of any other type. */
  datatype FileArg = PathArg(path: Path) | StrArg(text: string) | OtherArg

  datatype Rgb = Rgb(r: real, g: real, b: real)

  /**
    One object of a layer file's `contours` list. `points` is the polygon as
    the serialised JSON text of the table. `label` is present only when the
    object carries a `label` key.
  */
  datatype Contour = Contour(
    id: int,
    centroidX: real, centroidY: real,
    pixelCount: int,
    colorAvg: Rgb, colorStd: Rgb,
    points: string,
    labelText: Option<string>)

  /** A parsed `<layer_id>.json` file. */
  datatype LayerFile = LayerFile(contours: seq<Contour>)

  /** One object of an overlay layer's `contours` list; `label` may be missing. */
  datatype OverlayContour = OverlayContour(id: int, labelText: Option<string>)

  /** One object of the overlay's `layers` list; `contours` may be missing. */
  datatype OverlayLayer = OverlayLayer(id: int, contours: Option<seq<OverlayContour>>)

  /**
    One row of the data frame. The fields follow the frame's thirteen
    columns, `layer_id` through `label`, in order.
  */
  datatype Row = Row(
    layerId: int, contourId: int,
    centroidX: real, centroidY: real, pixelCount: int,
    avgR: real, avgG: real, avgB: real,
    stdR: real, stdG: real, stdB: real,
    points: string, labelText: string)

  datatype LoadError =
    | NotAPath                                   // ValueError
    | MissingLayerFile(layer: int)               // the layer file cannot be opened
    | MissingLabel(layer: int, contour: int)     // overlay record without `label`
    | UnknownLayer(layer: int)                   // overlay names a layer the manifest lacks
    | UnknownContour(layer: int, contour: int)   // overlay names a contour the layer lacks

  type Layer = ODict<int, Contour>
  type FullData = ODict<int, Layer>

  /** The constructed object: its three fields. */
  datatype SilhouetteFile = SilhouetteFile(filename: Path, fullData: FullData, dataFrame: seq<Row>)

  /** One overlay label assignment, tagged with the layer it is listed under. */
  datatype Record = Record(layer: int, entry: OverlayContour)

  // ---------------------------------------------------------------------------
  // Layers and contours keyed by id

  predicate AllPresent(ids: seq<int>, files: map<int, LayerFile>) {
    forall i :: 0 <= i < |ids| ==> ids[i] in files
  }

  /** The first manifest position whose layer file is missing. */
  function FirstMissing(ids: seq<int>, files: map<int, LayerFile>): (i: nat)
    requires !AllPresent(ids, files)
    ensures i < |ids| && ids[i] !in files
    ensures forall j :: 0 <= j < i ==> ids[j] in files
  {
    if ids[0] !in files then 0 else 1 + FirstMissing(ids[1..], files)
  }

  function LayerFiles(ids: seq<int>, files: map<int, LayerFile>): (fs: seq<LayerFile>)
    requires AllPresent(ids, files)
    ensures |fs| == |ids| && forall i :: 0 <= i < |ids| ==> fs[i] == files[ids[i]]
  {
    seq(|ids|, i requires 0 <= i < |ids| => files[ids[i]])
  }

  // The keys under which a list is indexed. Contours and overlay layers are
  // different record types that each carry an `id`, so each has its own
  // projection.
  function ContourIds(cs: seq<Contour>): (ks: seq<int>)
    ensures |ks| == |cs| && forall i :: 0 <= i < |cs| ==> ks[i] == cs[i].id
  {
    seq(|cs|, i requires 0 <= i < |cs| => cs[i].id)
  }

  function OverlayIds(ls: seq<OverlayLayer>): (ks: seq<int>)
    ensures |ks| == |ls| && forall i :: 0 <= i < |ls| ==> ks[i] == ls[i].id
  {
    seq(|ls|, i requires 0 <= i < |ls| => ls[i].id)
  }

  /** `layer_data`: the contours of one layer keyed by their `id`. */
  function IndexContours(cs: seq<Contour>): Layer {
    FromSeqs(ContourIds(cs), cs)
  }

  /** `feud_layers`: the overlay layers keyed by their `id`. */
  function IndexOverlay(ls: seq<OverlayLayer>): ODict<int, OverlayLayer> {
    FromSeqs(OverlayIds(ls), ls)
  }

  ghost predicate ValidFull(full: FullData) {
    Valid(full) && forall l :: l in full.vals ==> Valid(full.vals[l])
  }

  /** `full_data` before labelling: every layer's contours keyed by id, in layer order. */
  function Nest(layers: ODict<int, LayerFile>): (full: FullData)
    requires Valid(layers)
    ensures ValidFull(full) && full.keys == layers.keys
  {
    ODict(layers.keys, map l | l in layers.vals :: IndexContours(layers.vals[l].contours))
  }

  // ---------------------------------------------------------------------------
  // Overlay labels

  function LayerRecords(l: int, ocs: seq<OverlayContour>): (rs: seq<Record>)
    ensures |rs| == |ocs| && forall j :: 0 <= j < |ocs| ==> rs[j] == Record(l, ocs[j])
  {
    seq(|ocs|, j requires 0 <= j < |ocs| => Record(l, ocs[j]))
  }

  /** `data.get("contours", [])` for the overlay layer stored under `l`. */
  function OverlayEntries(fl: ODict<int, OverlayLayer>, l: int): seq<OverlayContour>
    requires l in fl.vals
  {
    fl.vals[l].contours.GetOr([])
  }

  /** The assignments of the first `i` overlay layers, in the order they are applied. */
  function RecordsUpTo(fl: ODict<int, OverlayLayer>, i: nat): seq<Record>
    requires Valid(fl) && i <= |fl.keys|
  {
    if i == 0 then []
    else RecordsUpTo(fl, i - 1) + LayerRecords(fl.keys[i - 1], OverlayEntries(fl, fl.keys[i - 1]))
  }

  function OverlayRecords(fl: ODict<int, OverlayLayer>): seq<Record>
    requires Valid(fl)
  {
    RecordsUpTo(fl, |fl.keys|)
  }

  /** An assignment that can be applied: it has a label and names an existing contour. */
  predicate Good(full: FullData, r: Record) {
    r.entry.labelText.Some? && r.layer in full.vals && r.entry.id in full.vals[r.layer].vals
  }

  predicate AllGood(full: FullData, rs: seq<Record>) {
    forall k :: 0 <= k < |rs| ==> Good(full, rs[k])
  }

  /** The first assignment that cannot be applied. */
  function FirstBad(full: FullData, rs: seq<Record>): (k: nat)
    requires !AllGood(full, rs)
    ensures k < |rs| && !Good(full, rs[k])
    ensures AllGood(full, rs[..k])
  {
    if !Good(full, rs[0]) then 0
    else
      var k := 1 + FirstBad(full, rs[1..]);
      assert forall m :: 1 <= m < k ==> rs[m] == rs[1..][m - 1];
      k
  }

  /**
    The error raised by an assignment that cannot be applied. The right-hand
    side `contour["label"]` is evaluated before the target is looked up.
  */
  function RecordError(full: FullData, r: Record): LoadError
    requires !Good(full, r)
  {
    if r.entry.labelText.None? then MissingLabel(r.layer, r.entry.id)
    else if r.layer !in full.vals then UnknownLayer(r.layer)
    else UnknownContour(r.layer, r.entry.id)
  }

  /** `rs[j]` assigns contour `c` of layer `l`, and no later record does. */
  ghost predicate LastAssignmentAt(rs: seq<Record>, l: int, c: int, j: int) {
    0 <= j < |rs| && rs[j].layer == l && rs[j].entry.id == c &&
    forall m :: j < m < |rs| ==> !(rs[m].layer == l && rs[m].entry.id == c)
  }

  /** The last assignment to contour `c` of layer `l`, if any. */
  function LastRecord(rs: seq<Record>, l: int, c: int): (o: Option<OverlayContour>)
    ensures o.Some? <==> exists k :: 0 <= k < |rs| && rs[k].layer == l && rs[k].entry.id == c
    ensures o.Some? ==> o.value.id == c && Record(l, o.value) in rs
    ensures o.Some? ==> exists j :: LastAssignmentAt(rs, l, c, j) && rs[j] == Record(l, o.value)
  {
    if rs == [] then None
    else
      var last := rs[|rs| - 1];
      if last.layer == l && last.entry.id == c then
        assert LastAssignmentAt(rs, l, c, |rs| - 1);
        Some(last.entry)
      else
        var o := LastRecord(rs[..|rs| - 1], l, c);
        assert forall k :: 0 <= k < |rs| - 1 ==> rs[k] == rs[..|rs| - 1][k];
        if o.Some? then LastAssignmentExtend(rs, rs[..|rs| - 1], l, c, o.value); o else o
  }

  /** A last assignment in all but the final record stays last when the final one does not match. */
  lemma LastAssignmentExtend(rs: seq<Record>, prefix: seq<Record>, l: int, c: int, v: OverlayContour)
    requires rs != [] && prefix == rs[..|rs| - 1] && !(rs[|rs| - 1].layer == l && rs[|rs| - 1].entry.id == c)
    requires exists j :: LastAssignmentAt(prefix, l, c, j) && prefix[j] == Record(l, v)
    ensures exists j :: LastAssignmentAt(rs, l, c, j) && rs[j] == Record(l, v)
  {
    var j :| LastAssignmentAt(prefix, l, c, j) && prefix[j] == Record(l, v);
    assert prefix[j] == rs[j];
    forall m | j < m < |rs| - 1
      ensures !(rs[m].layer == l && rs[m].entry.id == c)
    {
      assert prefix[m] == rs[m];
    }
    assert LastAssignmentAt(rs, l, c, j);
  }

  function Relabelled(ct: Contour, o: Option<OverlayContour>): Contour {
    if o.Some? then ct.(labelText := o.value.labelText) else ct
  }

  /** Same layers and contours, in the same order; contours differ at most in `label`. */
  ghost predicate SameButLabels(a: FullData, b: FullData) {
    && a.keys == b.keys && a.vals.Keys == b.vals.Keys
    && forall l :: l in a.vals ==>
         && a.vals[l].keys == b.vals[l].keys
         && a.vals[l].vals.Keys == b.vals[l].vals.Keys
         && forall c :: c in a.vals[l].vals ==>
              b.vals[l].vals[c] == a.vals[l].vals[c].(labelText := b.vals[l].vals[c].labelText)
  }

  function RelabelLayer(l: int, layer: Layer, rs: seq<Record>): (r: Layer)
    requires Valid(layer)
    ensures Valid(r) && r.keys == layer.keys
  {
    ODict(layer.keys, map c | c in layer.vals :: Relabelled(layer.vals[c], LastRecord(rs, l, c)))
  }

  /**
    `full_data` after the assignments `rs`: each contour carries the label of
    the last assignment naming it, and is otherwise unchanged.
  */
  function Relabel(full: FullData, rs: seq<Record>): (r: FullData)
    requires ValidFull(full)
    ensures ValidFull(r) && r.keys == full.keys
  {
    ODict(full.keys, map l | l in full.vals :: RelabelLayer(l, full.vals[l], rs))
  }

  /**
    Label injection changes only the `label` field: the same layers and
    contours in the same order, each contour equal to its original but for the
    label, which is that of the last assignment naming it, or unchanged when no
    assignment names it.
  */
  lemma RelabelSpec(full: FullData, rs: seq<Record>)
    requires ValidFull(full)
    ensures SameButLabels(full, Relabel(full, rs))
    ensures forall l, c :: l in full.vals && c in full.vals[l].vals ==>
              Relabel(full, rs).vals[l].vals[c].labelText ==
                if LastRecord(rs, l, c).Some? then LastRecord(rs, l, c).value.labelText
                else full.vals[l].vals[c].labelText
  {
  }

  lemma RelabelNothing(full: FullData)
    requires ValidFull(full)
    ensures Relabel(full, []) == full
  {
    forall l | l in full.vals
      ensures Relabel(full, []).vals[l] == full.vals[l]
    {
      assert RelabelLayer(l, full.vals[l], []).vals == full.vals[l].vals;
    }
    assert Relabel(full, []).vals == full.vals;
  }

  /** `full_data[l][c]["label"] = label`, for a contour that exists. */
  function SetLabel(full: FullData, l: int, c: int, labelText: Option<string>): (r: FullData)
    requires ValidFull(full) && l in full.vals && c in full.vals[l].vals
    ensures ValidFull(r)
  {
    var layer := full.vals[l];
    ODict(full.keys, full.vals[l := ODict(layer.keys, layer.vals[c := layer.vals[c].(labelText := labelText)])])
  }

  lemma LastRecordStep(rs: seq<Record>, r: Record, l: int, c: int)
    ensures LastRecord(rs + [r], l, c) ==
              if r.layer == l && r.entry.id == c then Some(r.entry) else LastRecord(rs, l, c)
  {
    assert (rs + [r])[..|rs|] == rs;
  }

  lemma RelabelLayerStep(l: int, layer: Layer, rs: seq<Record>, r: Record)
    requires Valid(layer) && r.layer == l && r.entry.id in layer.vals
    ensures RelabelLayer(l, layer, rs + [r]) ==
              ODict(layer.keys, RelabelLayer(l, layer, rs).vals[r.entry.id := layer.vals[r.entry.id].(labelText := r.entry.labelText)])
  {
    forall c | c in layer.vals {
      LastRecordStep(rs, r, l, c);
    }
  }

  lemma RelabelOtherLayer(l: int, layer: Layer, rs: seq<Record>, r: Record)
    requires Valid(layer) && r.layer != l
    ensures RelabelLayer(l, layer, rs + [r]) == RelabelLayer(l, layer, rs)
  {
    forall c | c in layer.vals {
      LastRecordStep(rs, r, l, c);
    }
  }

  lemma RelabelStepAt(full: FullData, rs: seq<Record>, r: Record, l: int)
    requires ValidFull(full) && Good(full, r) && l in full.vals
    ensures Relabel(full, rs + [r]).vals[l] ==
              SetLabel(Relabel(full, rs), r.layer, r.entry.id, r.entry.labelText).vals[l]
  {
    if l == r.layer {
      RelabelLayerStep(l, full.vals[l], rs, r);
    } else {
      RelabelOtherLayer(l, full.vals[l], rs, r);
    }
  }

  /** Applying one more good assignment to the relabelled data. */
  lemma RelabelStep(full: FullData, rs: seq<Record>, r: Record)
    requires ValidFull(full) && Good(full, r)
    ensures Relabel(full, rs + [r]) == SetLabel(Relabel(full, rs), r.layer, r.entry.id, r.entry.labelText)
  {
    RelabelStepVals(full, rs, r);
  }

  lemma RelabelStepDomain(full: FullData, rs: seq<Record>, r: Record)
    requires ValidFull(full) && Good(full, r)
    ensures Relabel(full, rs + [r]).vals.Keys == full.vals.Keys
    ensures SetLabel(Relabel(full, rs), r.layer, r.entry.id, r.entry.labelText).vals.Keys == full.vals.Keys
  {
  }

  lemma RelabelStepVals(full: FullData, rs: seq<Record>, r: Record)
    requires ValidFull(full) && Good(full, r)
    ensures Relabel(full, rs + [r]).vals == SetLabel(Relabel(full, rs), r.layer, r.entry.id, r.entry.labelText).vals
  {
    var lhs := Relabel(full, rs + [r]).vals;
    var rhs := SetLabel(Relabel(full, rs), r.layer, r.entry.id, r.entry.labelText).vals;
    RelabelStepDomain(full, rs, r);
    forall l | l in lhs
      ensures lhs[l] == rhs[l]
    {
      RelabelStepAt(full, rs, r, l);
    }
    MapsAgree(lhs, rhs);
  }

  lemma MapsAgree<K, V>(a: map<K, V>, b: map<K, V>)
    requires a.Keys == b.Keys && forall k :: k in a ==> a[k] == b[k]
    ensures a == b
  {
  }

  // ---------------------------------------------------------------------------
  // Flattening

  function MakeRow(l: int, c: int, ct: Contour): Row {
    Row(l, c, ct.centroidX, ct.centroidY, ct.pixelCount,
        ct.colorAvg.r, ct.colorAvg.g, ct.colorAvg.b,
        ct.colorStd.r, ct.colorStd.g, ct.colorStd.b,
        ct.points, ct.labelText.GetOr(""))
  }

  /** The rows of the first `j` contours of layer `l`. */
  function LayerRows(l: int, layer: Layer, j: nat): seq<Row>
    requires Valid(layer) && j <= |layer.keys|
  {
    if j == 0 then []
    else LayerRows(l, layer, j - 1) + [MakeRow(l, layer.keys[j - 1], layer.vals[layer.keys[j - 1]])]
  }

  /** The rows of the first `i` layers. */
  function FlattenUpTo(full: FullData, i: nat): seq<Row>
    requires ValidFull(full) && i <= |full.keys|
  {
    if i == 0 then []
    else
      var l := full.keys[i - 1];
      FlattenUpTo(full, i - 1) + LayerRows(l, full.vals[l], |full.vals[l].keys|)
  }

  function Flatten(full: FullData): seq<Row>
    requires ValidFull(full)
  {
    FlattenUpTo(full, |full.keys|)
  }

  // ---------------------------------------------------------------------------
  // The constructor

  /** What the constructor produces, or the error it raises. */
  function LoadSpec(arg: FileArg, ids: seq<int>, files: map<int, LayerFile>, overlay: seq<OverlayLayer>)
    : Result<SilhouetteFile, LoadError>
  {
    match arg
    case OtherArg => Err(NotAPath)
    case PathArg(p) => LoadFrom(p, ids, files, overlay)
    case StrArg(t) => LoadFrom(Path(t), ids, files, overlay)
  }

  /** The constructor's work once `self.filename` is set. */
  function LoadFrom(path: Path, ids: seq<int>, files: map<int, LayerFile>, overlay: seq<OverlayLayer>)
    : Result<SilhouetteFile, LoadError>
  {
      if !AllPresent(ids, files) then Err(MissingLayerFile(ids[FirstMissing(ids, files)]))
      else
        var full := Nest(FromSeqs(ids, LayerFiles(ids, files)));
        match InjectSpec(full, IndexOverlay(overlay))
        case Err(e) => Err(e)
        case Ok(labelled) => Ok(SilhouetteFile(path, labelled, Flatten(labelled)))
  }

  lemma {:induction false} RecordsUpToPrefix(fl: ODict<int, OverlayLayer>, i: nat, n: nat)
    requires Valid(fl) && i <= n <= |fl.keys|
    ensures |RecordsUpTo(fl, i)| <= |RecordsUpTo(fl, n)|
    ensures RecordsUpTo(fl, n)[..|RecordsUpTo(fl, i)|] == RecordsUpTo(fl, i)
  {
    if i < n {
      RecordsUpToPrefix(fl, i, n - 1);
    }
  }

  /** The assignment being applied is the next one in `OverlayRecords`. */
  lemma NextRecord(fl: ODict<int, OverlayLayer>, i: nat, j: nat)
    requires Valid(fl) && i < |fl.keys|
    requires j < |OverlayEntries(fl, fl.keys[i])|
    ensures var done := RecordsUpTo(fl, i) + LayerRecords(fl.keys[i], OverlayEntries(fl, fl.keys[i])[..j]);
            |done| < |OverlayRecords(fl)| &&
            OverlayRecords(fl)[..|done| + 1] == done + [Record(fl.keys[i], OverlayEntries(fl, fl.keys[i])[j])]
  {
    var l := fl.keys[i];
    var ocs := OverlayEntries(fl, l);
    RecordsUpToPrefix(fl, i + 1, |fl.keys|);
    var next := RecordsUpTo(fl, i + 1);
    assert next == RecordsUpTo(fl, i) + LayerRecords(l, ocs);
    var done := RecordsUpTo(fl, i) + LayerRecords(l, ocs[..j]);
    assert next[..|done| + 1] == done + [Record(l, ocs[j])];
  }

  /** `layers` holds the first `i` manifest ids, all of whose files exist. */
  ghost predicate LayersUpTo(layers: ODict<int, LayerFile>, ids: seq<int>, files: map<int, LayerFile>, i: nat)
    requires i <= |ids|
  {
    AllPresent(ids[..i], files) && layers == FromSeqs(ids[..i], LayerFiles(ids[..i], files))
  }

  lemma LayersStep(layers: ODict<int, LayerFile>, ids: seq<int>, files: map<int, LayerFile>, i: nat)
    requires i < |ids| && LayersUpTo(layers, ids, files, i) && ids[i] in files
    ensures LayersUpTo(Put(layers, ids[i], files[ids[i]]), ids, files, i + 1)
  {
    assert ids[..i + 1] == ids[..i] + [ids[i]];
    assert LayerFiles(ids[..i + 1], files) == LayerFiles(ids[..i], files) + [files[ids[i]]];
  }

  /** `layers[layer_id] = <layer file>` for every manifest id, in manifest order. */
  method ReadLayers(ids: seq<int>, files: map<int, LayerFile>) returns (r: Result<ODict<int, LayerFile>, LoadError>)
    ensures r.Ok? <==> AllPresent(ids, files)
    ensures r.Ok? ==> r.value == FromSeqs(ids, LayerFiles(ids, files))
    ensures r.Err? ==> r.error == MissingLayerFile(ids[FirstMissing(ids, files)])
  {
    var layers: ODict<int, LayerFile> := Empty();
    for i := 0 to |ids|
      invariant LayersUpTo(layers, ids, files, i)
    {
      if ids[i] !in files {
        FirstMissingAt(ids, files, i);
        return Err(MissingLayerFile(ids[i]));
      }
      LayersStep(layers, ids, files, i);
      layers := Put(layers, ids[i], files[ids[i]]);
    }
    LayersAll(layers, ids, files);
    return Ok(layers);
  }

  lemma FirstMissingAt(ids: seq<int>, files: map<int, LayerFile>, i: nat)
    requires i < |ids| && AllPresent(ids[..i], files) && ids[i] !in files
    ensures !AllPresent(ids, files) && FirstMissing(ids, files) == i
  {
    forall j | 0 <= j < i
      ensures ids[j] in files
    {
      assert ids[..i][j] == ids[j];
    }
  }

  lemma LayersAll(layers: ODict<int, LayerFile>, ids: seq<int>, files: map<int, LayerFile>)
    requires LayersUpTo(layers, ids, files, |ids|)
    ensures AllPresent(ids, files) && layers == FromSeqs(ids, LayerFiles(ids, files))
  {
    assert ids[..|ids|] == ids;
  }

  /** `feud_layers[current["id"]] = current` for every overlay layer. */
  method ReadOverlay(overlay: seq<OverlayLayer>) returns (feudLayers: ODict<int, OverlayLayer>)
    ensures feudLayers == IndexOverlay(overlay)
  {
    feudLayers := Empty();
    ghost var ks := OverlayIds(overlay);
    for i := 0 to |overlay|
      invariant feudLayers == FromSeqs(ks[..i], overlay[..i])
    {
      FromSeqsPrefixStep(ks, overlay, i);
      feudLayers := Put(feudLayers, overlay[i].id, overlay[i]);
    }
    assert ks[..|overlay|] == ks && overlay[..|overlay|] == overlay;
  }

  /** `layer_data[contour["id"]] = contour` for every contour of one layer. */
  method ReadContours(cs: seq<Contour>) returns (layerData: Layer)
    ensures layerData == IndexContours(cs)
  {
    layerData := Empty();
    ghost var ks := ContourIds(cs);
    for j := 0 to |cs|
      invariant layerData == FromSeqs(ks[..j], cs[..j])
    {
      FromSeqsPrefixStep(ks, cs, j);
      layerData := Put(layerData, cs[j].id, cs[j]);
    }
    assert ks[..|cs|] == ks && cs[..|cs|] == cs;
  }

  /** `full` holds the first `i` layers of `layers`, each one's contours keyed by id. */
  ghost predicate NestedUpTo(full: FullData, layers: ODict<int, LayerFile>, i: nat)
    requires Valid(layers) && i <= |layers.keys|
  {
    && ValidFull(full) && full.keys == layers.keys[..i]
    && forall l :: l in full.vals ==> l in layers.vals && full.vals[l] == IndexContours(layers.vals[l].contours)
  }

  lemma NestedStep(full: FullData, layers: ODict<int, LayerFile>, i: nat)
    requires Valid(layers) && i < |layers.keys| && NestedUpTo(full, layers, i)
    ensures var l := layers.keys[i];
            NestedUpTo(Put(full, l, IndexContours(layers.vals[l].contours)), layers, i + 1)
  {
    var l := layers.keys[i];
    var next := Put(full, l, IndexContours(layers.vals[l].contours));
    NestedStepKeys(full, layers, i);
    PutLayerValid(full, l, IndexContours(layers.vals[l].contours));
    forall l' | l' in next.vals
      ensures l' in layers.vals && next.vals[l'] == IndexContours(layers.vals[l'].contours)
    {
      if l' != l {
        assert next.vals[l'] == full.vals[l'];
      }
    }
  }

  /** Storing a valid layer keeps `full_data` valid. */
  lemma PutLayerValid(full: FullData, l: int, layer: Layer)
    requires ValidFull(full) && Valid(layer)
    ensures ValidFull(Put(full, l, layer))
  {
    var next := Put(full, l, layer);
    forall l' | l' in next.vals
      ensures Valid(next.vals[l'])
    {
      if l' != l {
        assert next.vals[l'] == full.vals[l'];
      }
    }
  }

  lemma NestedStepKeys(full: FullData, layers: ODict<int, LayerFile>, i: nat)
    requires Valid(layers) && i < |layers.keys| && NestedUpTo(full, layers, i)
    ensures var l := layers.keys[i];
            l !in full.vals && Put(full, l, IndexContours(layers.vals[l].contours)).keys == layers.keys[..i + 1]
  {
    NextKey(layers, i);
  }

  lemma NestedAll(full: FullData, layers: ODict<int, LayerFile>)
    requires Valid(layers) && NestedUpTo(full, layers, |layers.keys|)
    ensures full == Nest(layers)
  {
    NestedDomain(full, layers);
    assert full.vals == Nest(layers).vals;
  }

  lemma NestedDomain(full: FullData, layers: ODict<int, LayerFile>)
    requires Valid(layers) && NestedUpTo(full, layers, |layers.keys|)
    ensures full.keys == layers.keys && full.vals.Keys == Nest(layers).vals.Keys
  {
    assert layers.keys[..|layers.keys|] == layers.keys;
    forall l
      ensures l in full.vals <==> l in Nest(layers).vals
    {
      assert l in full.vals <==> l in full.keys;
      assert l in Nest(layers).vals <==> l in layers.keys;
    }
  }

  /** `full_data[layer_id] = layer_data` for every layer, in layer order. */
  method BuildFullData(layers: ODict<int, LayerFile>) returns (full: FullData)
    requires Valid(layers)
    ensures full == Nest(layers)
  {
    full := Empty();
    for i := 0 to |layers.keys|
      invariant NestedUpTo(full, layers, i)
    {
      var l := layers.keys[i];
      var layerData := ReadContours(layers.vals[l].contours);
      NestedStep(full, layers, i);
      full := Put(full, l, layerData);
    }
    NestedAll(full, layers);
  }

  /** The first bad assignment is the one at position |done|. */
  lemma FirstBadAt(full: FullData, rs: seq<Record>, done: seq<Record>, r: Record)
    requires |done| < |rs| && rs[..|done| + 1] == done + [r]
    requires AllGood(full, done) && !Good(full, r)
    ensures !AllGood(full, rs) && FirstBad(full, rs) == |done| && rs[|done|] == r
  {
    assert rs[|done|] == (done + [r])[|done|];
    assert forall m :: 0 <= m < |done| ==> rs[m] == rs[..|done| + 1][m];
    var k := FirstBad(full, rs);
    assert k <= |done|;
  }

  /** The overlay's labels injected into `full_data`, or the lookup error. */
  function InjectSpec(full: FullData, fl: ODict<int, OverlayLayer>): Result<FullData, LoadError>
    requires ValidFull(full) && Valid(fl)
  {
    var rs := OverlayRecords(fl);
    if !AllGood(full, rs) then Err(RecordError(full, rs[FirstBad(full, rs)]))
    else Ok(Relabel(full, rs))
  }

  lemma LayerRecordsStep(prefix: seq<Record>, l: int, ocs: seq<OverlayContour>, j: nat)
    requires j < |ocs|
    ensures prefix + LayerRecords(l, ocs[..j + 1]) == (prefix + LayerRecords(l, ocs[..j])) + [Record(l, ocs[j])]
  {
    assert LayerRecords(l, ocs[..j + 1]) == LayerRecords(l, ocs[..j]) + [Record(l, ocs[j])];
  }

  lemma LayerRecordsAll(l: int, ocs: seq<OverlayContour>)
    ensures LayerRecords(l, ocs[..|ocs|]) == LayerRecords(l, ocs)
  {
    assert ocs[..|ocs|] == ocs;
  }

  /** `full` is `full0` after the good assignments `done`. */
  ghost predicate InjectedSoFar(full: FullData, full0: FullData, done: seq<Record>)
    requires ValidFull(full0)
  {
    AllGood(full0, done) && full == Relabel(full0, done)
  }

  /** What the loop body checks and does for the next assignment `r`. */
  lemma InjectStep(full: FullData, full0: FullData, done: seq<Record>, r: Record)
    requires ValidFull(full0) && InjectedSoFar(full, full0, done)
    ensures ValidFull(full)
    ensures Good(full0, r) <==> r.entry.labelText.Some? && r.layer in full.vals && r.entry.id in full.vals[r.layer].vals
    ensures r.layer in full.vals <==> r.layer in full0.vals
    ensures Good(full0, r) ==>
              InjectedSoFar(SetLabel(full, r.layer, r.entry.id, r.entry.labelText), full0, done + [r])
  {
    RelabelSpec(full0, done);
    if Good(full0, r) {
      RelabelStep(full0, done, r);
      AllGoodSnoc(full0, done, r);
    }
  }

  lemma AllGoodSnoc(full: FullData, rs: seq<Record>, r: Record)
    requires AllGood(full, rs) && Good(full, r)
    ensures AllGood(full, rs + [r])
  {
    forall k | 0 <= k < |rs| + 1
      ensures Good(full, (rs + [r])[k])
    {
      if k < |rs| {
        assert (rs + [r])[k] == rs[k];
      }
    }
  }

  /** `full_data[layer_id][contour_id]["label"] = contour["label"]` for every overlay entry. */
  method InjectLabels(full0: FullData, feudLayers: ODict<int, OverlayLayer>) returns (r: Result<FullData, LoadError>)
    requires ValidFull(full0) && Valid(feudLayers)
    ensures r == InjectSpec(full0, feudLayers)
  {
    var full := full0;
    ghost var rs := OverlayRecords(feudLayers);
    ghost var done: seq<Record> := [];
    RelabelNothing(full0);
    for i := 0 to |feudLayers.keys|
      invariant done == RecordsUpTo(feudLayers, i)
      invariant InjectedSoFar(full, full0, done)
    {
      var l := feudLayers.keys[i];
      var ocs := feudLayers.vals[l].contours.GetOr([]);
      for j := 0 to |ocs|
        invariant done == RecordsUpTo(feudLayers, i) + LayerRecords(l, ocs[..j])
        invariant InjectedSoFar(full, full0, done)
      {
        var oc := ocs[j];
        NextRecord(feudLayers, i, j);
        InjectStep(full, full0, done, Record(l, oc));
        if oc.labelText.None? || l !in full.vals || oc.id !in full.vals[l].vals {
          FirstBadAt(full0, rs, done, Record(l, oc));
          if oc.labelText.None? {
            return Err(MissingLabel(l, oc.id));
          } else if l !in full.vals {
            return Err(UnknownLayer(l));
          } else {
            return Err(UnknownContour(l, oc.id));
          }
        }
        full := SetLabel(full, l, oc.id, oc.labelText);
        LayerRecordsStep(RecordsUpTo(feudLayers, i), l, ocs, j);
        done := done + [Record(l, oc)];
      }
      LayerRecordsAll(l, ocs);
    }
    return Ok(full);
  }

  /** `data_frame.append(...)` for every contour of every layer. */
  method BuildDataFrame(full: FullData) returns (rows: seq<Row>)
    requires ValidFull(full)
    ensures rows == Flatten(full)
  {
    rows := [];
    for i := 0 to |full.keys|
      invariant rows == FlattenUpTo(full, i)
    {
      var l := full.keys[i];
      var layer := full.vals[l];
      for j := 0 to |layer.keys|
        invariant rows == FlattenUpTo(full, i) + LayerRows(l, layer, j)
      {
        var c := layer.keys[j];
        var ct := layer.vals[c];
        rows := rows + [Row(l, c, ct.centroidX, ct.centroidY, ct.pixelCount,
                            ct.colorAvg.r, ct.colorAvg.g, ct.colorAvg.b,
                            ct.colorStd.r, ct.colorStd.g, ct.colorStd.b,
                            ct.points, ct.labelText.GetOr(""))];
      }
    }
  }

  /**
    `SilhouetteFile(filename)`, given the parsed files: checks the argument,
    builds `layers`, `feud_layers` and `full_data`, injects the overlay labels
    and flattens `full_data` into the data frame.
  */
  method Load(arg: FileArg, ids: seq<int>, files: map<int, LayerFile>, overlay: seq<OverlayLayer>)
    returns (r: Result<SilhouetteFile, LoadError>)
    ensures r == LoadSpec(arg, ids, files, overlay)
  {
    var filename: Path;
    match arg {
      case PathArg(p) => filename := p;
      case StrArg(s) => filename := Path(s);
      case OtherArg => return Err(NotAPath);
    }
    var layers := ReadLayers(ids, files);
    if layers.Err? {
      return Err(layers.error);
    }
    var feudLayers := ReadOverlay(overlay);
    var full := BuildFullData(layers.value);
    var labelled := InjectLabels(full, feudLayers);
    if labelled.Err? {
      return Err(labelled.error);
    }
    var rows := BuildDataFrame(labelled.value);
    r := Ok(SilhouetteFile(filename, labelled.value, rows));
  }
}
