/**
  The label raster `tmp_im` of one contour: a 16-bit page of zeros, the
  polygon interior painted with the contour id, and, when border removal is
  on, the polygon outline painted back to 0. The polygon rasteriser itself
  is abstracted as the `Footprint` it produces: the pixels the filled
  polygon covers and the pixels its one-pixel outline covers.
*/
module LabelRaster {
  import opened Reductions

  /** A pixel as (row, column). */
  type Pixel = (int, int)

  /** What the polygon rasteriser draws for one contour's `points`. */
  datatype Footprint = Footprint(interior: set<Pixel>, outline: set<Pixel>)

  const U16Max: int := 65535

  /** The value a 16-bit raster stores when asked to store `v`: clamped to `[0, 65535]`. */
  function SaturateU16(v: int): (r: int)
    ensures 0 <= r <= U16Max
    ensures 0 <= v <= U16Max ==> r == v
    ensures v < 0 ==> r == 0
    ensures v > U16Max ==> r == U16Max
  {
    if v < 0 then 0 else if v > U16Max then U16Max else v
  }

  /**
    The label at pixel `p` after the interior fill with `cid` and, when
    `removeBorder`, the outline erase.
  */
  function LabelAt(fp: Footprint, cid: int, removeBorder: bool, p: Pixel): (r: int)
    ensures 0 < cid <= U16Max ==> (r == cid <==> p in fp.interior && !(removeBorder && p in fp.outline))
    ensures cid == 0 ==> r == cid
    ensures (cid < 0 || cid > U16Max) ==> r != cid
    ensures removeBorder && p in fp.outline ==> r == 0
    ensures !(removeBorder && p in fp.outline) ==> r == LabelAt(fp, cid, false, p)
  {
    if removeBorder && p in fp.outline then 0
    else if p in fp.interior then SaturateU16(cid)
    else 0
  }

  /** The whole `h` by `w` label raster. */
  function LabelGrid(h: nat, w: nat, fp: Footprint, cid: int, removeBorder: bool): (g: seq<seq<int>>)
    ensures Shaped(g, h, w)
    ensures forall i, j :: 0 <= i < h && 0 <= j < w ==> g[i][j] == LabelAt(fp, cid, removeBorder, (i, j))
  {
    seq(h, i requires 0 <= i < h => seq(w, j requires 0 <= j < w => LabelAt(fp, cid, removeBorder, (i, j))))
  }

  /**
    With border removal, a pixel that carries the contour id also carries it
    without border removal.
  */
  lemma BorderRemovalSubset(h: nat, w: nat, fp: Footprint, cid: int)
    ensures forall i, j :: 0 <= i < h && 0 <= j < w && LabelGrid(h, w, fp, cid, true)[i][j] == cid ==>
              LabelGrid(h, w, fp, cid, false)[i][j] == cid
  {
    forall i, j | 0 <= i < h && 0 <= j < w && LabelGrid(h, w, fp, cid, true)[i][j] == cid
      ensures LabelGrid(h, w, fp, cid, false)[i][j] == cid
    {
      assert LabelAt(fp, cid, true, (i, j)) == cid;
    }
  }

  /** Border removal never increases the number of pixels a channel's statistics cover. */
  lemma BorderRemovalNeverAddsPixels(plane: Grid, h: nat, w: nat, fp: Footprint, cid: int)
    requires Shaped(plane, h, w)
    ensures |Included(plane, LabelGrid(h, w, fp, cid, true), cid)| <= |Included(plane, LabelGrid(h, w, fp, cid, false), cid)|
  {
    BorderRemovalSubset(h, w, fp, cid);
    IncludedMonotone(plane, LabelGrid(h, w, fp, cid, true), LabelGrid(h, w, fp, cid, false), cid);
  }

  /**
    `cv2.drawContours` with a single colour: every in-bounds pixel of
    `pixels` becomes `value`; nothing else changes.
  */
  method Draw(tmp: array2<int>, pixels: set<Pixel>, value: int)
    modifies tmp
    ensures forall i, j :: 0 <= i < tmp.Length0 && 0 <= j < tmp.Length1 ==>
              tmp[i, j] == if (i, j) in pixels then value else old(tmp[i, j])
  {
    for i := 0 to tmp.Length0
      invariant forall a, b :: 0 <= a < tmp.Length0 && 0 <= b < tmp.Length1 ==>
                  tmp[a, b] == if a < i && (a, b) in pixels then value else old(tmp[a, b])
    {
      for j := 0 to tmp.Length1
        invariant forall a, b :: 0 <= a < tmp.Length0 && 0 <= b < tmp.Length1 ==>
                    tmp[a, b] == if (a < i || (a == i && b < j)) && (a, b) in pixels then value else old(tmp[a, b])
      {
        if (i, j) in pixels {
          tmp[i, j] := value;
        }
      }
    }
  }

  /**
    `tmp_im = np.zeros(im_shape, dtype=np.uint16)`, the interior filled with
    the contour id, then, when `removeBorder`, the outline drawn with 0.
  */
  method BuildLabelRaster(h: nat, w: nat, fp: Footprint, cid: int, removeBorder: bool) returns (tmp: array2<int>)
    ensures fresh(tmp) && tmp.Length0 == h && tmp.Length1 == w
    ensures forall i, j :: 0 <= i < h && 0 <= j < w ==> tmp[i, j] == LabelAt(fp, cid, removeBorder, (i, j))
  {
    tmp := new int[h, w]((i, j) => 0);
    Draw(tmp, fp.interior, SaturateU16(cid));
    if removeBorder {
      Draw(tmp, fp.outline, 0);
    }
  }

  /** The cells of a raster built for a contour are that contour's label grid. */
  lemma CellsAreLabelGrid(tmp: array2<int>, fp: Footprint, cid: int, removeBorder: bool)
    requires forall i, j :: 0 <= i < tmp.Length0 && 0 <= j < tmp.Length1 ==> tmp[i, j] == LabelAt(fp, cid, removeBorder, (i, j))
    ensures Cells(tmp) == LabelGrid(tmp.Length0, tmp.Length1, fp, cid, removeBorder)
  {
    var c := Cells(tmp);
    var g := LabelGrid(tmp.Length0, tmp.Length1, fp, cid, removeBorder);
    forall i | 0 <= i < tmp.Length0
      ensures c[i] == g[i]
    {
    }
  }
}
