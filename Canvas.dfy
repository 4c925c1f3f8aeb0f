/**
 * The element data of the canvas template editor and the pure per-element
 * transforms its handlers build new element lists with: patching one element,
 * removing one, the z-order folds, grid snapping and the paint order.
 */
module Canvas {
  import opened Wrappers
  import Seqs

  /** Element ids. The source builds them as `elem_<Date.now()>`; here the timestamp part. */
  type ElementId = nat

  /** Grid pitch used for snapping while dragging. */
  const GridSize: real := 10.0
  /** Canvas width used by the alignment tools. */
  const CanvasWidth: real := 800.0
  /** Offset applied to both coordinates of a pasted copy. */
  const PasteOffset: real := 20.0
  /** Where a palette element is first placed. */
  const SpawnX: real := 50.0
  const SpawnY: real := 50.0

  datatype ElementType = TextBox | Image | Shape
  datatype ShapeType = Rectangle | Circle | Triangle | Arrow | Line
  datatype TextAlign = AlignLeft | AlignCenter | AlignRight

  /** The optional style object of an element; an absent style reads as all fields unset. */
  datatype Style = Style(
    fontSize: Option<real>,
    fontFamily: Option<string>,
    color: Option<string>,
    backgroundColor: Option<string>,
    borderColor: Option<string>,
    borderWidth: Option<real>,
    bold: Option<bool>,
    italic: Option<bool>,
    underline: Option<bool>,
    textAlign: Option<TextAlign>)

  datatype CanvasElement = CanvasElement(
    id: ElementId,
    elementType: ElementType,
    shapeType: Option<ShapeType>,
    x: real,
    y: real,
    width: real,
    height: real,
    zIndex: int,
    content: Option<string>,
    imageUrl: Option<string>,
    style: Style)

  /** The seven entries of the "Add Elements" palette. */
  datatype PaletteItem = TextBoxItem | ImageItem | ShapeItem(shape: ShapeType)

  // ---------------------------------------------------------------------------
  // Style fields

  datatype StyleField =
    | FontSizeField | FontFamilyField | ColorField | BackgroundColorField | BorderColorField
    | BorderWidthField | BoldField | ItalicField | UnderlineField | TextAlignField

  /** What one style field holds. */
  datatype StyleValue = Unset | Number(n: real) | Text(s: string) | Flag(b: bool) | Alignment(a: TextAlign)

  /** One `handleStyleChange(property, value)` call: a property name with a value of its type. */
  datatype StyleChange =
    | SetFontSize(size: real)
    | SetFontFamily(family: string)
    | SetColor(color: string)
    | SetBackgroundColor(color: string)
    | SetBorderColor(color: string)
    | SetBorderWidth(width: real)
    | SetBold(on: bool)
    | SetItalic(on: bool)
    | SetUnderline(on: bool)
    | SetTextAlign(align: TextAlign)

  function FieldOf(c: StyleChange): StyleField {
    match c
    case SetFontSize(_) => FontSizeField
    case SetFontFamily(_) => FontFamilyField
    case SetColor(_) => ColorField
    case SetBackgroundColor(_) => BackgroundColorField
    case SetBorderColor(_) => BorderColorField
    case SetBorderWidth(_) => BorderWidthField
    case SetBold(_) => BoldField
    case SetItalic(_) => ItalicField
    case SetUnderline(_) => UnderlineField
    case SetTextAlign(_) => TextAlignField
  }

  function ValueOf(c: StyleChange): StyleValue {
    match c
    case SetFontSize(v) => Number(v)
    case SetFontFamily(v) => Text(v)
    case SetColor(v) => Text(v)
    case SetBackgroundColor(v) => Text(v)
    case SetBorderColor(v) => Text(v)
    case SetBorderWidth(v) => Number(v)
    case SetBold(v) => Flag(v)
    case SetItalic(v) => Flag(v)
    case SetUnderline(v) => Flag(v)
    case SetTextAlign(v) => Alignment(v)
  }

  function OptNumber(o: Option<real>): StyleValue { if o.Some? then Number(o.value) else Unset }
  function OptText(o: Option<string>): StyleValue { if o.Some? then Text(o.value) else Unset }
  function OptFlag(o: Option<bool>): StyleValue { if o.Some? then Flag(o.value) else Unset }

  /** Reads one field of a style object (`style[property]`). */
  function ReadStyle(s: Style, f: StyleField): StyleValue {
    match f
    case FontSizeField => OptNumber(s.fontSize)
    case FontFamilyField => OptText(s.fontFamily)
    case ColorField => OptText(s.color)
    case BackgroundColorField => OptText(s.backgroundColor)
    case BorderColorField => OptText(s.borderColor)
    case BorderWidthField => OptNumber(s.borderWidth)
    case BoldField => OptFlag(s.bold)
    case ItalicField => OptFlag(s.italic)
    case UnderlineField => OptFlag(s.underline)
    case TextAlignField => if s.textAlign.Some? then Alignment(s.textAlign.value) else Unset
  }

  /** `{ ...style, [property]: value }`. */
  function ApplyStyle(s: Style, c: StyleChange): Style {
    match c
    case SetFontSize(v) => s.(fontSize := Some(v))
    case SetFontFamily(v) => s.(fontFamily := Some(v))
    case SetColor(v) => s.(color := Some(v))
    case SetBackgroundColor(v) => s.(backgroundColor := Some(v))
    case SetBorderColor(v) => s.(borderColor := Some(v))
    case SetBorderWidth(v) => s.(borderWidth := Some(v))
    case SetBold(v) => s.(bold := Some(v))
    case SetItalic(v) => s.(italic := Some(v))
    case SetUnderline(v) => s.(underline := Some(v))
    case SetTextAlign(v) => s.(textAlign := Some(v))
  }

  /** A style change overwrites exactly the field it names and leaves every other field as it was. */
  lemma ApplyStyleOverwritesOneField(s: Style, c: StyleChange)
    ensures ReadStyle(ApplyStyle(s, c), FieldOf(c)) == ValueOf(c)
    ensures forall f :: f != FieldOf(c) ==> ReadStyle(ApplyStyle(s, c), f) == ReadStyle(s, f)
  {
    forall f | f != FieldOf(c)
      ensures ReadStyle(ApplyStyle(s, c), f) == ReadStyle(s, f)
    {
      match c
      case SetFontSize(_) =>
      case SetFontFamily(_) =>
      case SetColor(_) =>
      case SetBackgroundColor(_) =>
      case SetBorderColor(_) =>
      case SetBorderWidth(_) =>
      case SetBold(_) =>
      case SetItalic(_) =>
      case SetUnderline(_) =>
      case SetTextAlign(_) =>
    }
  }

  // ---------------------------------------------------------------------------
  // Palette elements

  /** The style every palette element starts with; shapes get a grey fill. */
  function DefaultStyle(isShape: bool): Style {
    Style(Some(14.0), Some("Arial"), Some("#000000"),
          Some(if isShape then "#e2e8f0" else "transparent"),
          Some("#94a3b8"), Some(1.0), Some(false), Some(false), Some(false), Some(AlignLeft))
  }

  /** The element `handleDragFromSidebar` builds for a palette entry. */
  function PaletteElement(item: PaletteItem, id: ElementId, z: int): CanvasElement {
    CanvasElement(
      id,
      match item { case TextBoxItem => TextBox case ImageItem => Image case ShapeItem(_) => Shape },
      if item.ShapeItem? then Some(item.shape) else None,
      SpawnX, SpawnY,
      if item.TextBoxItem? then 200.0 else if item == ShapeItem(Line) then 150.0 else 100.0,
      if item.TextBoxItem? then 100.0 else if item == ShapeItem(Line) then 5.0 else 100.0,
      z,
      Some(if item.TextBoxItem? then "Double-click to edit" else ""),
      if item.ImageItem? then Some("") else None,
      DefaultStyle(item.ShapeItem?))
  }

  // ---------------------------------------------------------------------------
  // Patching and removing elements

  /** A partial element update, as the `{ ...elem, field: value }` spreads of the handlers write it. */
  datatype Patch =
    | MoveTo(nx: real, ny: real)
    | SetX(nx: real)
    | SetY(ny: real)
    | SetWidth(w: real)
    | SetHeight(h: real)
    | SetZ(z: int)
    | SetContent(text: string)
    | SetImage(url: string)
    | Restyle(change: StyleChange)

  function ApplyPatch(e: CanvasElement, p: Patch): (r: CanvasElement)
    ensures r.id == e.id
  {
    match p
    case MoveTo(nx, ny) => e.(x := nx, y := ny)
    case SetX(nx) => e.(x := nx)
    case SetY(ny) => e.(y := ny)
    case SetWidth(w) => e.(width := w)
    case SetHeight(h) => e.(height := h)
    case SetZ(z) => e.(zIndex := z)
    case SetContent(text) => e.(content := Some(text))
    case SetImage(url) => e.(imageUrl := Some(url))
    case Restyle(c) => e.(style := ApplyStyle(e.style, c))
  }

  /** `elements.map(elem => elem.id === id ? patched(elem) : elem)`. */
  function UpdateElement(es: seq<CanvasElement>, id: ElementId, p: Patch): (r: seq<CanvasElement>)
    ensures |r| == |es|
  {
    seq(|es|, i requires 0 <= i < |es| => if es[i].id == id then ApplyPatch(es[i], p) else es[i])
  }

  /**
   * Patching keeps the list's length, order and ids; every element with the id gets the
   * patch, every other element is unchanged, and a list without the id comes back as it was.
   */
  lemma UpdateElementChangesOnlyTarget(es: seq<CanvasElement>, id: ElementId, p: Patch)
    ensures |UpdateElement(es, id, p)| == |es|
    ensures forall i :: 0 <= i < |es| ==> UpdateElement(es, id, p)[i].id == es[i].id
    ensures forall i :: 0 <= i < |es| && es[i].id != id ==> UpdateElement(es, id, p)[i] == es[i]
    ensures forall i :: 0 <= i < |es| && es[i].id == id ==> UpdateElement(es, id, p)[i] == ApplyPatch(es[i], p)
    ensures !HasId(es, id) ==> UpdateElement(es, id, p) == es
  {
  }

  predicate HasId(es: seq<CanvasElement>, id: ElementId) {
    exists i :: 0 <= i < |es| && es[i].id == id
  }

  /** `elements.filter(elem => elem.id !== id)`. */
  function RemoveId(es: seq<CanvasElement>, id: ElementId): seq<CanvasElement> {
    Seqs.Filter(es, OtherId(id))
  }

  /** The filter test of `RemoveId`. */
  function OtherId(id: ElementId): CanvasElement -> bool {
    (e: CanvasElement) => e.id != id
  }

  /**
   * Removing an id leaves no element with that id, keeps every other element, and keeps
   * the survivors in their order: on a list with unique ids it removes exactly the one
   * position holding the id.
   */
  lemma {:induction false} RemoveIdSpec(es: seq<CanvasElement>, id: ElementId)
    ensures !HasId(RemoveId(es, id), id)
    ensures forall e :: e in RemoveId(es, id) <==> e in es && e.id != id
    ensures !HasId(es, id) ==> RemoveId(es, id) == es
    ensures forall k :: 0 <= k < |es| && es[k].id == id && UniqueIds(es) ==> RemoveId(es, id) == Seqs.RemoveAt(es, k)
  {
    var keep := OtherId(id);
    forall e ensures e in RemoveId(es, id) <==> e in es && e.id != id {
      Seqs.FilterMembership(es, keep, e);
    }
    if !HasId(es, id) {
      Seqs.FilterAllKept(es, keep);
    }
    forall k | 0 <= k < |es| && es[k].id == id && UniqueIds(es)
      ensures RemoveId(es, id) == Seqs.RemoveAt(es, k)
    {
      Seqs.FilterRemovesOne(es, k, keep);
    }
  }

  /** `elements.find(e => e.id === id)`: the first element with the id. */
  function Find(es: seq<CanvasElement>, id: ElementId): (r: Option<CanvasElement>)
    ensures r.None? <==> !HasId(es, id)
    ensures r.Some? ==> r.value in es && r.value.id == id
    ensures r.Some? ==> exists k :: 0 <= k < |es| && es[k] == r.value && forall j :: 0 <= j < k ==> es[j].id != id
  {
    if es == [] then None
    else if es[0].id == id then Some(es[0])
    else
      var r := Find(es[1..], id);
      assert r.Some? ==> exists k :: 0 <= k < |es| && es[k] == r.value && forall j :: 0 <= j < k ==> es[j].id != id by {
        if r.Some? {
          var k :| 0 <= k < |es[1..]| && es[1..][k] == r.value && forall j :: 0 <= j < k ==> es[1..][j].id != id;
          assert es[k + 1] == r.value;
          assert forall j :: 0 <= j < k + 1 ==> es[j].id != id by {
            forall j | 0 <= j < k + 1 ensures es[j].id != id {
              if j > 0 { assert es[j] == es[1..][j - 1]; }
            }
          }
        }
      }
      r
  }

  // ---------------------------------------------------------------------------
  // Ids

  predicate UniqueIds(es: seq<CanvasElement>) {
    forall i, j :: 0 <= i < j < |es| ==> es[i].id != es[j].id
  }

  predicate IdsBelow(es: seq<CanvasElement>, bound: ElementId) {
    forall i :: 0 <= i < |es| ==> es[i].id < bound
  }

  /** A fresh id (at least every id on the page) keeps a page's ids unique when appended. */
  lemma AppendFreshKeepsUnique(es: seq<CanvasElement>, e: CanvasElement, bound: ElementId)
    requires UniqueIds(es) && IdsBelow(es, bound) && bound <= e.id
    ensures UniqueIds(es + [e]) && !HasId(es, e.id)
  {
  }

  lemma UpdateElementKeepsIds(es: seq<CanvasElement>, id: ElementId, p: Patch, bound: ElementId)
    ensures IdsBelow(es, bound) ==> IdsBelow(UpdateElement(es, id, p), bound)
    ensures UniqueIds(es) ==> UniqueIds(UpdateElement(es, id, p))
  {
  }

  lemma {:induction false} RemoveIdKeepsIds(es: seq<CanvasElement>, id: ElementId, bound: ElementId)
    ensures IdsBelow(es, bound) ==> IdsBelow(RemoveId(es, id), bound)
    ensures UniqueIds(es) ==> UniqueIds(RemoveId(es, id))
  {
    var keep := OtherId(id);
    if es != [] {
      RemoveIdKeepsIds(es[1..], id, bound);
      var rest := RemoveId(es[1..], id);
      assert RemoveId(es, id) == (if keep(es[0]) then [es[0]] else []) + rest;
      if IdsBelow(es, bound) {
        forall e | e in rest ensures e.id < bound {
          Seqs.FilterMembership(es[1..], keep, e);
        }
      }
      if UniqueIds(es) {
        forall e | e in rest ensures e.id != es[0].id {
          Seqs.FilterMembership(es[1..], keep, e);
        }
      }
    }
  }

  // ---------------------------------------------------------------------------
  // z-order

  function Max(a: int, b: int): int { if a < b then b else a }
  function Min(a: int, b: int): int { if a < b then a else b }

  /** `Math.max(...elements.map(e => e.zIndex))` on a non-empty page. */
  function MaxZ(es: seq<CanvasElement>): (r: int)
    requires |es| > 0
    ensures forall i :: 0 <= i < |es| ==> es[i].zIndex <= r
    ensures exists i :: 0 <= i < |es| && es[i].zIndex == r
  {
    if |es| == 1 then es[0].zIndex
    else
      var m := MaxZ(es[1..]);
      assert forall i :: 1 <= i < |es| ==> es[i].zIndex <= m by {
        forall i | 1 <= i < |es| ensures es[i].zIndex <= m { assert es[i] == es[1..][i - 1]; }
      }
      var k :| 0 <= k < |es[1..]| && es[1..][k].zIndex == m;
      assert es[k + 1].zIndex == m;
      Max(es[0].zIndex, m)
  }

  /** `Math.min(...elements.map(e => e.zIndex))` on a non-empty page. */
  function MinZ(es: seq<CanvasElement>): (r: int)
    requires |es| > 0
    ensures forall i :: 0 <= i < |es| ==> r <= es[i].zIndex
    ensures exists i :: 0 <= i < |es| && es[i].zIndex == r
  {
    if |es| == 1 then es[0].zIndex
    else
      var m := MinZ(es[1..]);
      assert forall i :: 1 <= i < |es| ==> m <= es[i].zIndex by {
        forall i | 1 <= i < |es| ensures m <= es[i].zIndex { assert es[i] == es[1..][i - 1]; }
      }
      var k :| 0 <= k < |es[1..]| && es[1..][k].zIndex == m;
      assert es[k + 1].zIndex == m;
      Min(es[0].zIndex, m)
  }

  /**
   * The zIndex a new topmost element gets: one above the page's maximum, or 1 on an
   * empty page (the rule of `handleDragFromSidebar`, and the corrected rule for paste).
   */
  function NextZ(es: seq<CanvasElement>): (r: int)
    ensures forall i :: 0 <= i < |es| ==> es[i].zIndex < r
    ensures es == [] ==> r == 1
    ensures es != [] ==> exists i :: 0 <= i < |es| && r == es[i].zIndex + 1
  {
    if es == [] then 1 else MaxZ(es) + 1
  }

  /**
   * The zIndex send-to-back gives: one below the page's minimum. On an empty page no
   * element can receive it, so its value there is immaterial; it is 0 - 1.
   */
  function PrevZ(es: seq<CanvasElement>): (r: int)
    ensures forall i :: 0 <= i < |es| ==> r < es[i].zIndex
    ensures es != [] ==> exists i :: 0 <= i < |es| && r == es[i].zIndex - 1
  {
    if es == [] then -1 else MinZ(es) - 1
  }

  /** A JavaScript number as `Math.max(...[])` can produce it: an integer or minus infinity. */
  datatype ExtInt = NegInfinity | Finite(n: int)

  /**
   * The zIndex `handlePaste` computes as written: `Math.max(...zs) + 1`, where the maximum of
   * no numbers is minus infinity, and minus infinity plus one stays minus infinity.
   */
  function PasteZAsWritten(es: seq<CanvasElement>): ExtInt {
    if es == [] then NegInfinity else Finite(MaxZ(es) + 1)
  }

  /**
   * As written, paste agrees with the add-from-palette rule on every non-empty page and
   * yields minus infinity, which is no integer zIndex, on an empty page.
   */
  lemma PasteZAsWrittenDiffersOnlyOnEmptyPage(es: seq<CanvasElement>)
    ensures es != [] ==> PasteZAsWritten(es) == Finite(NextZ(es))
    ensures PasteZAsWritten(es).NegInfinity? <==> es == []
    ensures PasteZAsWritten([]) != Finite(NextZ([]))
  {
  }

  // ---------------------------------------------------------------------------
  // Grid snapping

  /** JavaScript's `Math.round`: the nearest integer, halves rounded up. */
  function Round(v: real): (r: int)
    ensures r as real - 0.5 <= v < r as real + 0.5
  {
    (v + 0.5).Floor
  }

  /** `Math.round(v / gridSize) * gridSize`. */
  function SnapToGrid(v: real): real {
    Round(v / GridSize) as real * GridSize
  }

  /** The `k`-th grid line. */
  function GridLine(k: nat): real { k as real * GridSize }

  /** `Math.max(0, v)`. */
  function Clamp0(v: real): real { if v < 0.0 then 0.0 else v }

  /** A dragged coordinate as `handleMouseMove` stores it: snapped when snapping is on, then clamped at 0. */
  function DragCoordinate(v: real, snap: bool): real {
    Clamp0(if snap then SnapToGrid(v) else v)
  }

  /**
   * A dragged coordinate is never negative. With snapping on it is a non-negative multiple
   * of the grid size, the nearest one to the pointer value (within half a grid cell), and 0
   * for pointer values more than half a cell left of or above the canvas. With snapping off
   * it is the pointer value clamped at 0.
   */
  lemma DragCoordinateSpec(v: real, snap: bool)
    ensures DragCoordinate(v, snap) >= 0.0
    ensures snap ==> exists k: nat :: DragCoordinate(v, snap) == GridLine(k)
    ensures snap && v >= -GridSize / 2.0 ==> v - GridSize / 2.0 < DragCoordinate(v, snap) <= v + GridSize / 2.0
    ensures snap && v < -GridSize / 2.0 ==> DragCoordinate(v, snap) == 0.0
    ensures !snap ==> DragCoordinate(v, snap) == (if v < 0.0 then 0.0 else v)
  {
    if snap {
      var k := Round(v / GridSize);
      if k >= 0 {
        assert DragCoordinate(v, snap) == GridLine(k as nat);
      } else {
        assert DragCoordinate(v, snap) == GridLine(0);
      }
    }
  }

  /** Snapping happens before clamping: 15 snaps to 20, 14 to 10, and -12 is clamped to 0. */
  lemma DragCoordinateExamples()
    ensures DragCoordinate(15.0, true) == 20.0
    ensures DragCoordinate(14.0, true) == 10.0
    ensures DragCoordinate(-12.0, true) == 0.0
    ensures DragCoordinate(-12.0, false) == 0.0
    ensures DragCoordinate(17.5, false) == 17.5
  {
    assert Round(1.5) == 2;
    assert Round(1.4) == 1;
    assert Round(-1.2) == -1;
  }

  // ---------------------------------------------------------------------------
  // Paint order

  predicate SortedByZ(es: seq<CanvasElement>) {
    forall i, j :: 0 <= i < j < |es| ==> es[i].zIndex <= es[j].zIndex
  }

  /** Every element of `es` has a zIndex of at least `b`. */
  predicate AllAtLeast(es: seq<CanvasElement>, b: int) {
    forall i :: 0 <= i < |es| ==> b <= es[i].zIndex
  }

  /** Inserts `e` before the first element whose zIndex is not below its own. */
  function InsertByZ(e: CanvasElement, sorted: seq<CanvasElement>): (r: seq<CanvasElement>)
    ensures multiset(r) == multiset(sorted) + multiset{e}
    ensures forall b :: AllAtLeast(sorted, b) && b <= e.zIndex ==> AllAtLeast(r, b)
    ensures SortedByZ(sorted) ==> SortedByZ(r)
  {
    if sorted == [] || e.zIndex <= sorted[0].zIndex then [e] + sorted
    else
      var rest := InsertByZ(e, sorted[1..]);
      InsertByZStep(e, sorted, rest);
      [sorted[0]] + rest
  }

  /** The recursive case of `InsertByZ`: the head stays in front of the insertion into the tail. */
  lemma InsertByZStep(e: CanvasElement, sorted: seq<CanvasElement>, rest: seq<CanvasElement>)
    requires sorted != [] && sorted[0].zIndex < e.zIndex
    requires multiset(rest) == multiset(sorted[1..]) + multiset{e}
    requires forall b :: AllAtLeast(sorted[1..], b) && b <= e.zIndex ==> AllAtLeast(rest, b)
    requires SortedByZ(sorted[1..]) ==> SortedByZ(rest)
    ensures multiset([sorted[0]] + rest) == multiset(sorted) + multiset{e}
    ensures forall b :: AllAtLeast(sorted, b) && b <= e.zIndex ==> AllAtLeast([sorted[0]] + rest, b)
    ensures SortedByZ(sorted) ==> SortedByZ([sorted[0]] + rest)
  {
    assert sorted == [sorted[0]] + sorted[1..];
    forall b | AllAtLeast(sorted, b) && b <= e.zIndex
      ensures AllAtLeast([sorted[0]] + rest, b)
    {
      assert AllAtLeast(sorted[1..], b);
      assert AllAtLeast(rest, b);
    }
    if SortedByZ(sorted) {
      assert AllAtLeast(sorted[1..], sorted[0].zIndex);
      assert AllAtLeast(rest, sorted[0].zIndex);
    }
  }

  /**
   * `[...elements].sort((a, b) => a.zIndex - b.zIndex)`: the order elements are painted in.
   * The sort is stable, so elements on one layer keep their list order.
   */
  function RenderOrder(es: seq<CanvasElement>): (r: seq<CanvasElement>)
    ensures multiset(r) == multiset(es)
    ensures SortedByZ(r)
  {
    if es == [] then []
    else
      assert es == [es[0]] + es[1..];
      InsertByZ(es[0], RenderOrder(es[1..]))
  }

  /** The elements of one layer, in list order. */
  function AtLayer(es: seq<CanvasElement>, z: int): seq<CanvasElement> {
    Seqs.Filter(es, OnLayer(z))
  }

  /** The filter test of `AtLayer`. */
  function OnLayer(z: int): CanvasElement -> bool {
    (e: CanvasElement) => e.zIndex == z
  }

  lemma {:induction false} InsertByZLayers(e: CanvasElement, sorted: seq<CanvasElement>, z: int)
    requires SortedByZ(sorted)
    ensures AtLayer(InsertByZ(e, sorted), z) == AtLayer([e] + sorted, z)
  {
    if sorted != [] && e.zIndex > sorted[0].zIndex {
      var head, tail := sorted[0], sorted[1..];
      var rest := InsertByZ(e, tail);
      assert InsertByZ(e, sorted) == [head] + rest;
      assert sorted == [head] + tail;
      InsertByZLayers(e, tail, z);
      SwapLayers(head, e, tail, rest, z);
    }
  }

  /** Two elements on different layers, or one of them on neither, can trade places in a layer view. */
  lemma SwapLayers(head: CanvasElement, e: CanvasElement, tail: seq<CanvasElement>, rest: seq<CanvasElement>, z: int)
    requires head.zIndex != e.zIndex
    requires AtLayer(rest, z) == AtLayer([e] + tail, z)
    ensures AtLayer([head] + rest, z) == AtLayer([e] + ([head] + tail), z)
  {
    var keep := OnLayer(z);
    Seqs.FilterAppend([head], rest, keep);
    Seqs.FilterAppend([e], tail, keep);
    Seqs.FilterAppend([e], [head] + tail, keep);
    Seqs.FilterAppend([head], tail, keep);
    var fh, fe := Seqs.Filter([head], keep), Seqs.Filter([e], keep);
    assert fh == [] || fe == [] by {
      assert [head][1..] == [] && [e][1..] == [];
    }
    calc {
      AtLayer([head] + rest, z);
      fh + AtLayer(rest, z);
      fh + (fe + Seqs.Filter(tail, keep));
      fe + (fh + Seqs.Filter(tail, keep));
      AtLayer([e] + ([head] + tail), z);
    }
  }

  /**
   * The paint order is a permutation of the page sorted by zIndex, and it is stable: the
   * elements of every layer appear in the order they have on the page.
   */
  lemma {:induction false} RenderOrderStable(es: seq<CanvasElement>, z: int)
    ensures AtLayer(RenderOrder(es), z) == AtLayer(es, z)
  {
    if es != [] {
      var head, tail := es[0], es[1..];
      var r := RenderOrder(tail);
      RenderOrderStable(tail, z);
      InsertByZLayers(head, r, z);
      var front := if head.zIndex == z then [head] else [];
      assert ([head] + r)[0] == head && ([head] + r)[1..] == r;
      assert AtLayer([head] + r, z) == front + AtLayer(r, z);
      assert AtLayer(es, z) == front + AtLayer(tail, z);
    }
  }
}
