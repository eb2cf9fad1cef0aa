/** The component-based palette: the grid size of a palette definition,
    the one widget built per key, and the palette component that puts the
    two together. Widgets and the component's output are values standing
    for the `PaletteKey` elements and the markup handed to the renderer. */
module PreactPalette {

  import opened KeyModel

  datatype RowsCols = RowsCols(rows: int, cols: int)

  /** `countRowsColumns(paletteDefinition)`: the largest `bottom` and the
      largest `right` over the keys, 0/0 for a palette without keys. It only
      reads the definition, so equal definitions give equal results. */
  method CountRowsColumns(def: Definition) returns (rc: RowsCols)
    ensures rc.rows == MaxExtent(Values(def.keys), Rows)
    ensures rc.cols == MaxExtent(Values(def.keys), Cols)
  {
    var rowCount, colCount := 0, 0;
    var items := Values(def.keys);
    for i := 0 to |items|
      invariant rowCount == MaxExtent(items[..i], Rows)
      invariant colCount == MaxExtent(items[..i], Cols)
    {
      assert items[..i + 1][..i] == items[..i];
      if items[i].rect.right > colCount {
        colCount := items[i].rect.right;
      }
      if items[i].rect.bottom > rowCount {
        rowCount := items[i].rect.bottom;
      }
    }
    assert items[..|items|] == items;
    rc := RowsCols(rowCount, colCount);
  }

  /** The properties a `PaletteKey` is created with: `id` and children are
      the key's label, its grid placement, and an image source when the key
      has an image. */
  datatype PaletteKeyWidget = PaletteKeyWidget(id: string, place: Placement, src: Option<string>, children: string)

  const ImageDirectory := "./src/keyboards/"

  /** `anItem.label || ""`. */
  function LabelOf(k: Key): string
  {
    match k.keyLabel
    case None => ""
    case Some(s) => s
  }

  /** The widget for one key: the label (empty when the key has none) is
      both its id and its text, it sits at the key's rectangle shifted by
      one on every edge, and it shows an image exactly when the key has
      one, found under the keyboards directory by the image's url. */
  function WidgetFor(k: Key): (w: PaletteKeyWidget)
    ensures w.id == w.children
    ensures k.keyLabel.None? ==> w.id == ""
    ensures k.keyLabel.Some? ==> w.id == k.keyLabel.value
    ensures w.place.colEnd - w.place.colStart == k.rect.right - k.rect.left
    ensures w.place.rowEnd - w.place.rowStart == k.rect.bottom - k.rect.top
    ensures RectOf(w.place) == k.rect
    ensures w.src.Some? <==> k.image.Some?
    ensures k.image.Some? ==> w.src.value == ImageDirectory + k.image.value.url
  {
    PlacementRoundTrip(k.rect);
    var src := match k.image
      case None => None
      case Some(img) => Some(ImageDirectory + img.url);
    PaletteKeyWidget(LabelOf(k), PlacementOf(k.rect), src, LabelOf(k))
  }

  /** `layoutPalette`: one widget per key, in `Object.values` order. The
      widget returned at position `i` is the one the source also stores as
      the `widget` of the `i`-th key. */
  method LayoutPalette(def: Definition) returns (keysArray: seq<PaletteKeyWidget>)
    ensures |keysArray| == |def.keys|
    ensures forall i :: 0 <= i < |def.keys| ==> keysArray[i] == WidgetFor(def.keys[i].1)
  {
    var items := Values(def.keys);
    keysArray := [];
    for i := 0 to |items|
      invariant |keysArray| == i
      invariant forall j :: 0 <= j < i ==> keysArray[j] == WidgetFor(items[j])
    {
      keysArray := keysArray + [WidgetFor(items[i])];
    }
  }

  /** What the `Palette` component renders: the palette's name as heading,
      a grid of `columns` columns, and the key widgets. */
  datatype PaletteView = PaletteView(heading: string, columns: int, keys: seq<PaletteKeyWidget>)

  /** The `Palette` component: a grid as wide as the rightmost key edge,
      holding exactly one widget per key, in key order. */
  method Palette(def: Definition) returns (view: PaletteView)
    ensures view.heading == def.name
    ensures view.columns == MaxExtent(Values(def.keys), Cols)
    ensures |view.keys| == |def.keys|
    ensures forall i :: 0 <= i < |def.keys| ==> view.keys[i] == WidgetFor(def.keys[i].1)
  {
    var rowsCols := CountRowsColumns(def);
    var paletteKeys := LayoutPalette(def);
    view := PaletteView(def.name, rowsCols.cols, paletteKeys);
  }
}
