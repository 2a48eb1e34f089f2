/**
 * From the ratio grid to the `xsapr_clutter` field: select the gates whose
 * ratio passes the thresholds, widen them into the marker grid, attach the
 * ratio grid's mask and wrap the result with the field's fixed metadata.
 */
module ClutterField {
  import opened Wrappers
  import opened Grids
  import opened ClutterSelect
  import opened ClutterMarker

  /** The field dictionary `_clutter_to_dict` builds. */
  datatype ClutterDict = ClutterDict(
    units: string,
    data: MaskedGrid,
    standardName: string,
    longName: string,
    notes: string)

  /** `_clutter_to_dict`: the marker grid with the field's fixed metadata. */
  function ToDict(a: MaskedGrid): (d: ClutterDict)
    ensures d.data == a
    ensures d.units == "unitless" && d.standardName == "xsapr_clutter"
    ensures d.longName == "X-SAPR Clutter" && d.notes == "0: No Clutter, 1: Clutter"
  {
    ClutterDict("unitless", a, "xsapr_clutter", "X-SAPR Clutter", "0: No Clutter, 1: Clutter")
  }

  /** `np.ma.getmask(clutter_values)`: the gates whose ratio is masked. */
  function MaskOf(values: Ratios): (m: seq<seq<bool>>)
    ensures SameShape(m, values)
    ensures forall i, j :: InGrid(m, i, j) ==> (m[i][j] <==> values[i][j].None?)
  {
    seq(|values|, i requires 0 <= i < |values| =>
      seq(|values[i]|, j requires 0 <= j < |values[i]| => values[i][j].None?))
  }

  /**
   * The end of `tall_clutter`: selection, marker and field dictionary for
   * a `rows` by `cols` ratio grid.
   */
  method MarkClutter(values: Ratios, rows: nat, cols: nat, lo: real, hi: real, radius: nat)
    returns (d: ClutterDict)
    requires Shaped(values, rows, cols)
    ensures d == ToDict(MaskedGrid(Dilate(Select(values, lo, hi), rows, cols, radius), MaskOf(values)))
  {
    var mask := MaskOf(values);
    var isClutters := Select(values, lo, hi);
    SelectInGrid(values, lo, hi, rows, cols);
    var clutterArray := ClutterMarker.ClutterMarker(isClutters, rows, cols, mask, radius);
    d := ToDict(clutterArray);
  }

  /**
   * A gate of the field is marked iff some gate of the grid whose ratio
   * lies strictly between the thresholds is within `radius` of it.
   */
  lemma MarkedIff(values: Ratios, rows: nat, cols: nat, lo: real, hi: real, radius: nat, i: nat, j: nat)
    requires Shaped(values, rows, cols) && i < rows && j < cols
    ensures Dilate(Select(values, lo, hi), rows, cols, radius)[i][j] == 1 <==>
            exists i2, j2 :: 0 <= i2 < rows && 0 <= j2 < cols && IsClutter(values[i2][j2], lo, hi) &&
                             InDisk(i - i2, j - j2, radius)
  {
    var cs := Select(values, lo, hi);
    DilateIff(cs, rows, cols, radius, i, j);
    if exists k :: 0 <= k < |cs| && Near(cs[k], i, j, radius) {
      var k :| 0 <= k < |cs| && Near(cs[k], i, j, radius);
      var c := cs[k];
      assert c.ray < rows && IsClutter(values[c.ray][c.gate], lo, hi);
    }
    if exists i2, j2 :: 0 <= i2 < rows && 0 <= j2 < cols && IsClutter(values[i2][j2], lo, hi) &&
                        InDisk(i - i2, j - j2, radius) {
      var i2, j2 :| 0 <= i2 < rows && 0 <= j2 < cols && IsClutter(values[i2][j2], lo, hi) &&
                    InDisk(i - i2, j - j2, radius);
      var c := Coord(i2, j2);
      SelectMembers(values, lo, hi, c);
      assert c in cs;
      var k :| 0 <= k < |cs| && cs[k] == c;
      assert Near(c, i, j, radius);
    }
  }
}
