/** The parsed description of a palette and its keys, shared by both palette
    implementations, and the geometry computed from it: the grid size of a
    palette and the one-based grid placement of each key. */
module KeyModel {

  datatype Option<+T> = None | Some(value: T)

  /** A key's zero-based, end-exclusive rectangle as written in the palette
      definition. */
  datatype Rect = Rect(left: int, top: int, right: int, bottom: int)

  /** The rectangle invariant of the palette definition format. */
  predicate ValidRect(r: Rect)
  {
    0 <= r.left < r.right && 0 <= r.top < r.bottom
  }

  datatype Image = Image(url: string)

  /** The `type` tag of a key. `Branch` carries the key's `target`, `None`
      standing for a null target; a missing tag or any other tag behaves as
      `Normal`. */
  datatype Role = Normal | Branch(target: Option<string>) | BranchBack

  datatype Key = Key(rect: Rect, keyLabel: Option<string>, image: Option<Image>, role: Role)

  /** One `keys` member of a palette definition: its key identifier and the
      key. A sequence of these keeps the `Object.keys` enumeration order. */
  type Entry = (string, Key)

  /** A parsed palette definition. */
  datatype Definition = Definition(name: string, keys: seq<Entry>, isDynamic: bool)

  /** `Object.values(keys)`: the keys in enumeration order. */
  function Values(entries: seq<Entry>): (ks: seq<Key>)
    ensures |ks| == |entries|
    ensures forall i :: 0 <= i < |entries| ==> ks[i] == entries[i].1
  {
    seq(|entries|, i requires 0 <= i < |entries| => entries[i].1)
  }

  // ---------------------------------------------------------------------
  // Grid placement

  /** One-based, end-exclusive CSS-grid coordinates of a key. */
  datatype Placement = Placement(colStart: int, colEnd: int, rowStart: int, rowEnd: int)

  predicate ValidPlacement(p: Placement)
  {
    1 <= p.colStart < p.colEnd && 1 <= p.rowStart < p.rowEnd
  }

  /** Shifts every edge of the rectangle by one; the width and the height of
      the key are kept, and so is the direction of each edge pair. */
  function PlacementOf(r: Rect): (p: Placement)
    ensures p.colEnd - p.colStart == r.right - r.left
    ensures p.rowEnd - p.rowStart == r.bottom - r.top
    ensures r.right > r.left <==> p.colEnd > p.colStart
    ensures r.bottom > r.top <==> p.rowEnd > p.rowStart
  {
    Placement(r.left + 1, r.right + 1, r.top + 1, r.bottom + 1)
  }

  /** The inverse conversion, from grid coordinates back to the rectangle. */
  function RectOf(p: Placement): (r: Rect)
  {
    Rect(p.colStart - 1, p.rowStart - 1, p.colEnd - 1, p.rowEnd - 1)
  }

  lemma PlacementRoundTrip(r: Rect)
    ensures RectOf(PlacementOf(r)) == r
    ensures ValidRect(r) <==> ValidPlacement(PlacementOf(r))
  {
  }

  lemma PlacementInjective(a: Rect, b: Rect)
    requires PlacementOf(a) == PlacementOf(b)
    ensures a == b
  {
    PlacementRoundTrip(a);
    PlacementRoundTrip(b);
  }

  // ---------------------------------------------------------------------
  // Grid size

  datatype Axis = Cols | Rows

  /** The far edge of a key along an axis: `right` for columns, `bottom`
      for rows. */
  function Extent(k: Key, a: Axis): (e: int)
  {
    match a
    case Cols => k.rect.right
    case Rows => k.rect.bottom
  }

  /** The accumulator of `countRowsColumns`, folded left to right from 0:
      a later key replaces the running value only when its extent is
      strictly larger. The result is the least non-negative bound of all
      extents: it bounds every key and is either 0 or some key's extent. */
  function MaxExtent(keys: seq<Key>, a: Axis): (r: int)
    ensures 0 <= r
    ensures forall k :: 0 <= k < |keys| ==> Extent(keys[k], a) <= r
    ensures r == 0 || exists k :: 0 <= k < |keys| && Extent(keys[k], a) == r
  {
    if |keys| == 0 then 0
    else
      var m := MaxExtent(keys[..|keys| - 1], a);
      var e := Extent(keys[|keys| - 1], a);
      assert forall k :: 0 <= k < |keys| - 1 ==> keys[..|keys| - 1][k] == keys[k];
      if e > m then e else m
  }

  /** With well-formed rectangles, a palette with keys has a grid exactly as
      large as its largest key edge. */
  lemma MaxExtentAttained(keys: seq<Key>, a: Axis)
    requires |keys| > 0
    requires forall k :: 0 <= k < |keys| ==> ValidRect(keys[k].rect)
    ensures exists k :: 0 <= k < |keys| && Extent(keys[k], a) == MaxExtent(keys, a)
  {
    assert Extent(keys[0], a) <= MaxExtent(keys, a);
  }

  /** Any other bound of all the extents is at least the grid size. */
  lemma MaxExtentLeast(keys: seq<Key>, a: Axis, b: int)
    requires 0 <= b
    requires forall k :: 0 <= k < |keys| ==> Extent(keys[k], a) <= b
    ensures MaxExtent(keys, a) <= b
  {
  }

  /** The two-key palette `A = [0,0,2,1]`, `B = [2,0,4,1]` is one row by four
      columns, and `A` is placed at columns 1 to 3 of row 1 to 2. */
  lemma TwoKeyExample()
    ensures var a := Key(Rect(0, 0, 2, 1), None, None, Normal);
            var b := Key(Rect(2, 0, 4, 1), None, None, Normal);
            MaxExtent([a, b], Rows) == 1 && MaxExtent([a, b], Cols) == 4 &&
            PlacementOf(a.rect) == Placement(1, 3, 1, 2)
  {
    var a := Key(Rect(0, 0, 2, 1), None, None, Normal);
    var b := Key(Rect(2, 0, 4, 1), None, None, Normal);
    assert [a, b][..1] == [a];
    assert [a][..0] == [];
  }
}
