/**
 * The canvas template editor of `DragDropTemplateEditor-Complete.tsx` as a state machine.
 *
 * `EditorState` holds the component's state fields; one pure transition per handler says
 * what that handler does to them, and the lemmas state what the handlers promise. The class
 * `TemplateEditor` at the end holds the same fields as mutable variables and updates them
 * step by step as the handlers do; each of its methods is proved to perform the matching
 * transition.
 *
 * As in the source there is ONE history track shared by all pages: undo and redo write a
 * snapshot into whichever page is current, and adding or deleting a page leaves the history
 * alone. Every recorded edit, including every pointer move of a drag, appends one snapshot.
 */
module Editor {
  import opened Wrappers
  import opened Canvas
  import Seqs

  /** One history entry: the element list of the page at that point. */
  datatype HistoryState = HistoryState(elements: seq<CanvasElement>)

  /** The pointer position inside the dragged element when the drag began. */
  datatype Offset = Offset(x: real, y: real)

  datatype EditorState = EditorState(
    pages: seq<seq<CanvasElement>>,
    currentPage: nat,
    history: seq<HistoryState>,
    historyIndex: nat,
    selectedElement: Option<ElementId>,
    copiedElement: Option<CanvasElement>,
    isDragging: bool,
    draggedElement: Option<CanvasElement>,
    dragOffset: Offset,
    snapToGrid: bool,
    nextId: ElementId)

  /**
   * What every reachable state satisfies: a current page and a current history entry exist,
   * and every id in the state was handed out by the id counter before (so the next id is fresh).
   */
  predicate Inv(s: EditorState) {
    && |s.pages| >= 1 && s.currentPage < |s.pages|
    && |s.history| >= 1 && s.historyIndex < |s.history|
    && (forall p :: 0 <= p < |s.pages| ==> IdsBelow(s.pages[p], s.nextId))
    && (forall h :: 0 <= h < |s.history| ==> IdsBelow(s.history[h].elements, s.nextId))
    && (s.copiedElement.Some? ==> s.copiedElement.value.id < s.nextId)
  }

  /** The current page and the current history entry exist. */
  predicate InRange(s: EditorState) {
    s.currentPage < |s.pages| && s.historyIndex < |s.history|
  }

  /** `pages[currentPage]`: the elements of the current page. */
  function Elements(s: EditorState): seq<CanvasElement>
    requires s.currentPage < |s.pages|
  {
    s.pages[s.currentPage]
  }

  /** The current history entry shows the current page. */
  predicate Synced(s: EditorState)
    requires Inv(s)
  {
    s.history[s.historyIndex].elements == Elements(s)
  }

  predicate CanUndo(s: EditorState) { s.historyIndex > 0 }
  predicate CanRedo(s: EditorState) { s.historyIndex + 1 < |s.history| }

  /** Ids are unique on every page and in every history entry. */
  predicate AllUnique(s: EditorState) {
    && (forall p :: 0 <= p < |s.pages| ==> UniqueIds(s.pages[p]))
    && (forall h :: 0 <= h < |s.history| ==> UniqueIds(s.history[h].elements))
  }

  /**
   * `t` differs from `s` only in the current page's elements and in the history: the same
   * pages elsewhere, the same current page, selection, clipboard, drag, snapping and counter.
   */
  predicate EditsOnlyCurrentPage(s: EditorState, t: EditorState)
    requires InRange(s)
  {
    && |t.pages| == |s.pages|
    && t == s.(pages := s.pages[s.currentPage := t.pages[s.currentPage]],
               history := t.history, historyIndex := t.historyIndex)
  }

  // ---------------------------------------------------------------------------
  // Initial state

  /** One more than every id on any of the pages. */
  function FreshIdAbove(pages: seq<seq<CanvasElement>>): (r: ElementId)
    ensures forall p :: 0 <= p < |pages| ==> IdsBelow(pages[p], r)
  {
    if pages == [] then 0
    else
      var rest := FreshIdAbove(pages[1..]);
      var here := FreshIdOnPage(pages[0]);
      var r := if rest < here then here else rest;
      assert forall p :: 1 <= p < |pages| ==> IdsBelow(pages[p], r) by {
        forall p | 1 <= p < |pages| ensures IdsBelow(pages[p], r) { assert pages[p] == pages[1..][p - 1]; }
      }
      r
  }

  /** One more than every id on the page. */
  function FreshIdOnPage(es: seq<CanvasElement>): (r: ElementId)
    ensures IdsBelow(es, r)
  {
    Seqs.KeyBound(es, (e: CanvasElement) => e.id)
  }

  /**
   * The state at mount: the template's pages (or one empty page), page 0 current, one history
   * entry holding page 0, nothing selected, copied or dragged, and snapping on. The id counter
   * starts above every id in the template.
   */
  function Initial(initialPages: Option<seq<seq<CanvasElement>>>): EditorState
    requires initialPages.Some? ==> |initialPages.value| >= 1
  {
    var pages := initialPages.GetOr([[]]);
    EditorState(pages, 0, [HistoryState(pages[0])], 0, None, None, false, None, Offset(0.0, 0.0), true,
                FreshIdAbove(pages))
  }

  lemma InitialSpec(initialPages: Option<seq<seq<CanvasElement>>>)
    requires initialPages.Some? ==> |initialPages.value| >= 1
    ensures Inv(Initial(initialPages)) && Synced(Initial(initialPages))
    ensures !CanUndo(Initial(initialPages)) && !CanRedo(Initial(initialPages))
    ensures initialPages.None? ==> Initial(initialPages).pages == [[]]
  {
  }

  // ---------------------------------------------------------------------------
  // History

  /**
   * `setElements(newElements)`: the current page becomes `es`; the history is cut after the
   * current entry, `es` is appended, and the index moves to that last entry.
   */
  function Record(s: EditorState, es: seq<CanvasElement>): EditorState
    requires InRange(s)
  {
    s.(pages := s.pages[s.currentPage := es],
       history := s.history[..s.historyIndex + 1] + [HistoryState(es)],
       historyIndex := s.historyIndex + 1)
  }

  /**
   * Recording keeps the history up to the current entry, appends exactly one snapshot and
   * makes it current, so that redo is no longer possible and the new state is in sync. Only
   * the current page changes; everything else is left as it was.
   */
  lemma RecordSpec(s: EditorState, es: seq<CanvasElement>)
    requires Inv(s)
    ensures var t := Record(s, es);
      && |t.history| == s.historyIndex + 2
      && t.history[..s.historyIndex + 1] == s.history[..s.historyIndex + 1]
      && t.historyIndex == |t.history| - 1
      && t.history[t.historyIndex] == HistoryState(es)
      && !CanRedo(t) && CanUndo(t)
      && |t.pages| == |s.pages| && t.currentPage == s.currentPage
      && t.pages[t.currentPage] == es
      && (forall p :: 0 <= p < |s.pages| && p != s.currentPage ==> t.pages[p] == s.pages[p])
      && t.selectedElement == s.selectedElement && t.copiedElement == s.copiedElement
      && t.isDragging == s.isDragging && t.draggedElement == s.draggedElement
      && t.nextId == s.nextId
    ensures IdsBelow(es, s.nextId) ==> Inv(Record(s, es)) && Synced(Record(s, es))
  {
    if IdsBelow(es, s.nextId) {
      RecordKeepsInv(s, es);
    }
  }

  lemma RecordKeepsInv(s: EditorState, es: seq<CanvasElement>)
    requires Inv(s) && IdsBelow(es, s.nextId)
    ensures Inv(Record(s, es)) && Record(s, es).nextId == s.nextId
  {
  }

  /** `handleUndo`: steps the index back and writes that snapshot into the current page. */
  function Undo(s: EditorState): EditorState
    requires Inv(s)
  {
    if s.historyIndex > 0 then
      s.(historyIndex := s.historyIndex - 1,
         pages := s.pages[s.currentPage := s.history[s.historyIndex - 1].elements])
    else s
  }

  /** `handleRedo`: steps the index forward and writes that snapshot into the current page. */
  function Redo(s: EditorState): EditorState
    requires Inv(s)
  {
    if s.historyIndex < |s.history| - 1 then
      s.(historyIndex := s.historyIndex + 1,
         pages := s.pages[s.currentPage := s.history[s.historyIndex + 1].elements])
    else s
  }

  /**
   * Undo is a no-op on the first entry; otherwise it moves the index one back and the current
   * page (whichever page that is) shows the earlier snapshot, with the history untouched.
   */
  lemma UndoSpec(s: EditorState)
    requires Inv(s)
    ensures Inv(Undo(s))
    ensures !CanUndo(s) ==> Undo(s) == s
    ensures CanUndo(s) ==>
      && Undo(s).historyIndex == s.historyIndex - 1
      && Undo(s).history == s.history
      && Elements(Undo(s)) == s.history[s.historyIndex - 1].elements
      && Synced(Undo(s)) && CanRedo(Undo(s))
      && (forall p :: 0 <= p < |s.pages| && p != s.currentPage ==> Undo(s).pages[p] == s.pages[p])
  {
  }

  /** Redo is a no-op on the last entry; otherwise it is the mirror image of undo. */
  lemma RedoSpec(s: EditorState)
    requires Inv(s)
    ensures Inv(Redo(s))
    ensures !CanRedo(s) ==> Redo(s) == s
    ensures CanRedo(s) ==>
      && Redo(s).historyIndex == s.historyIndex + 1
      && Redo(s).history == s.history
      && Elements(Redo(s)) == s.history[s.historyIndex + 1].elements
      && Synced(Redo(s)) && CanUndo(Redo(s))
      && (forall p :: 0 <= p < |s.pages| && p != s.currentPage ==> Redo(s).pages[p] == s.pages[p])
  {
  }

  /**
   * Undo followed by redo restores the state exactly when the current page was in sync with
   * the current history entry; in any case it restores the index and the page shows the
   * snapshot the index points at.
   */
  lemma UndoThenRedo(s: EditorState)
    requires Inv(s) && CanUndo(s)
    ensures Redo(Undo(s)).historyIndex == s.historyIndex
    ensures Elements(Redo(Undo(s))) == s.history[s.historyIndex].elements
    ensures Synced(s) ==> Redo(Undo(s)) == s
  {
    UndoSpec(s);
  }

  lemma RedoThenUndo(s: EditorState)
    requires Inv(s) && CanRedo(s)
    ensures Undo(Redo(s)).historyIndex == s.historyIndex
    ensures Elements(Undo(Redo(s))) == s.history[s.historyIndex].elements
    ensures Synced(s) ==> Undo(Redo(s)) == s
  {
    RedoSpec(s);
  }

  /**
   * The history does not branch: after an undo, a new edit `d` replaces the undone entry and
   * everything after it, so the history is the entries before the old index followed by `d`,
   * the index is back where it was, and nothing can be redone.
   */
  lemma EditAfterUndoDiscardsRedo(s: EditorState, d: seq<CanvasElement>)
    requires Inv(s) && CanUndo(s)
    ensures Record(Undo(s), d).history == s.history[..s.historyIndex] + [HistoryState(d)]
    ensures Record(Undo(s), d).historyIndex == s.historyIndex
    ensures Elements(Record(Undo(s), d)) == d
    ensures !CanRedo(Record(Undo(s), d))
  {
    UndoSpec(s);
    assert Undo(s).history[..Undo(s).historyIndex + 1] == s.history[..s.historyIndex];
  }

  /** The same on three entries [a, b, c] at index 2: undo, then edit `d`, leaves [a, b, d]. */
  lemma EditAfterUndoExample(s: EditorState, a: seq<CanvasElement>, b: seq<CanvasElement>,
                             c: seq<CanvasElement>, d: seq<CanvasElement>)
    requires Inv(s)
    requires s.history == [HistoryState(a), HistoryState(b), HistoryState(c)] && s.historyIndex == 2
    ensures Record(Undo(s), d).history == [HistoryState(a), HistoryState(b), HistoryState(d)]
  {
    EditAfterUndoDiscardsRedo(s, d);
    assert s.history[..2] == [HistoryState(a), HistoryState(b)];
  }

  /** Records each list of `ess` in turn. */
  function RecordAll(s: EditorState, ess: seq<seq<CanvasElement>>): (r: EditorState)
    requires InRange(s)
    ensures InRange(r) && r.nextId == s.nextId && r.currentPage == s.currentPage && |r.pages| == |s.pages|
    ensures r.copiedElement == s.copiedElement
    decreases |ess|
  {
    if ess == [] then s else RecordAll(Record(s, ess[0]), ess[1..])
  }

  /** Recording lists whose ids were all handed out keeps the invariant. */
  lemma {:induction false} RecordAllKeepsInv(s: EditorState, ess: seq<seq<CanvasElement>>)
    requires Inv(s)
    requires forall k :: 0 <= k < |ess| ==> IdsBelow(ess[k], s.nextId)
    ensures Inv(RecordAll(s, ess))
    decreases |ess|
  {
    if ess != [] {
      RecordKeepsInv(s, ess[0]);
      var rest := ess[1..];
      assert forall k :: 0 <= k < |rest| ==> rest[k] == ess[k + 1];
      RecordAllKeepsInv(Record(s, ess[0]), rest);
    }
  }

  /** Undoes `n` times. */
  function UndoN(s: EditorState, n: nat): (r: EditorState)
    requires Inv(s)
    ensures Inv(r)
    decreases n
  {
    if n == 0 then s
    else
      UndoSpec(s);
      UndoN(Undo(s), n - 1)
  }

  function Snapshots(ess: seq<seq<CanvasElement>>): (r: seq<HistoryState>)
    ensures |r| == |ess|
    ensures forall k :: 0 <= k < |ess| ==> r[k] == HistoryState(ess[k])
  {
    seq(|ess|, k requires 0 <= k < |ess| => HistoryState(ess[k]))
  }

  /** After recording `ess`, the history holds the entries up to the old index and then one snapshot per list. */
  lemma {:induction false} RecordAllSpec(s: EditorState, ess: seq<seq<CanvasElement>>)
    requires InRange(s)
    ensures |ess| > 0 ==> RecordAll(s, ess).history == s.history[..s.historyIndex + 1] + Snapshots(ess)
    ensures RecordAll(s, ess).historyIndex == s.historyIndex + |ess|
    decreases |ess|
  {
    RecordAllIndex(s, ess);
    if ess != [] {
      var t := Record(s, ess[0]);
      var rest := ess[1..];
      var prefix := s.history[..s.historyIndex + 1];
      assert t.history == prefix + [HistoryState(ess[0])];
      if rest == [] {
        assert Snapshots(ess) == [HistoryState(ess[0])];
      } else {
        RecordAllSpec(t, rest);
        assert t.history[..t.historyIndex + 1] == t.history;
        SnapshotsCons(prefix, ess);
      }
    }
  }

  lemma {:induction false} RecordAllIndex(s: EditorState, ess: seq<seq<CanvasElement>>)
    requires InRange(s)
    ensures RecordAll(s, ess).historyIndex == s.historyIndex + |ess|
    decreases |ess|
  {
    if ess != [] {
      RecordAllIndex(Record(s, ess[0]), ess[1..]);
    }
  }

  lemma SnapshotsCons(prefix: seq<HistoryState>, ess: seq<seq<CanvasElement>>)
    requires ess != []
    ensures prefix + [HistoryState(ess[0])] + Snapshots(ess[1..]) == prefix + Snapshots(ess)
  {
    assert Snapshots(ess) == [HistoryState(ess[0])] + Snapshots(ess[1..]);
  }

  lemma {:induction false} UndoNSpec(s: EditorState, n: nat)
    requires Inv(s) && n <= s.historyIndex
    ensures UndoN(s, n).history == s.history
    ensures UndoN(s, n).historyIndex == s.historyIndex - n
    ensures UndoN(s, n).currentPage == s.currentPage
    ensures n > 0 ==> Elements(UndoN(s, n)) == s.history[s.historyIndex - n].elements
    decreases n
  {
    if n > 0 {
      UndoSpec(s);
      UndoNSpec(Undo(s), n - 1);
    }
  }

  /**
   * History round trip: starting from a state whose current page is in sync with the
   * history, recording any number of edits on that page and then undoing as many times
   * gives the page back as it was.
   */
  lemma RecordsThenUndosRestorePage(s: EditorState, ess: seq<seq<CanvasElement>>)
    requires Inv(s) && Synced(s)
    requires forall k :: 0 <= k < |ess| ==> IdsBelow(ess[k], s.nextId)
    ensures Inv(RecordAll(s, ess))
    ensures Elements(UndoN(RecordAll(s, ess), |ess|)) == Elements(s)
    ensures UndoN(RecordAll(s, ess), |ess|).historyIndex == s.historyIndex
  {
    RecordAllKeepsInv(s, ess);
    if ess != [] {
      RecordAllSpec(s, ess);
      UndoNSpec(RecordAll(s, ess), |ess|);
      PrefixEntry(s.history, s.historyIndex, Snapshots(ess));
    }
  }

  lemma PrefixEntry(h: seq<HistoryState>, i: nat, rest: seq<HistoryState>)
    requires i < |h|
    ensures (h[..i + 1] + rest)[i] == h[i]
  {
  }

  // ---------------------------------------------------------------------------
  // Adding elements, clipboard

  /**
   * `handleDragFromSidebar(type)`: appends a palette element with a fresh id on top of the
   * current page and records the new list.
   */
  function AddFromPalette(s: EditorState, item: PaletteItem): EditorState
    requires Inv(s)
  {
    var es := Elements(s);
    Record(s.(nextId := s.nextId + 1), es + [PaletteElement(item, s.nextId, NextZ(es))])
  }

  /**
   * Adding from the palette appends exactly one element to the current page and keeps the
   * existing ones. The new element has an id no element has, the zIndex one above the page's
   * top (so above every element on the page, and 1 on an empty page), sits at (50, 50), is 200 by 100 for a text box, 150 by 5 for
   * a line and 100 by 100 otherwise. The selection is not changed.
   */
  lemma AddFromPaletteSpec(s: EditorState, item: PaletteItem)
    requires Inv(s)
    ensures Inv(AddFromPalette(s, item)) && Synced(AddFromPalette(s, item))
    ensures var es, t := Elements(s), Elements(AddFromPalette(s, item));
      && |t| == |es| + 1 && t[..|es|] == es
      && !HasId(es, t[|es|].id)
      && t[|es|].zIndex == NextZ(es)
      && (forall i :: 0 <= i < |es| ==> es[i].zIndex < t[|es|].zIndex)
      && (es == [] ==> t[|es|].zIndex == 1)
      && t[|es|].x == 50.0 && t[|es|].y == 50.0
      && (item.TextBoxItem? ==> t[|es|].width == 200.0 && t[|es|].height == 100.0)
      && (item == ShapeItem(Line) ==> t[|es|].width == 150.0 && t[|es|].height == 5.0)
      && (!item.TextBoxItem? && item != ShapeItem(Line) ==> t[|es|].width == 100.0 && t[|es|].height == 100.0)
    ensures AddFromPalette(s, item).selectedElement == s.selectedElement
    ensures |AddFromPalette(s, item).history| == s.historyIndex + 2
  {
    var s1 := s.(nextId := s.nextId + 1);
    var es := Elements(s);
    var e := PaletteElement(item, s.nextId, NextZ(es));
    assert IdsBelow(es + [e], s1.nextId);
    RecordSpec(s1, es + [e]);
    assert (es + [e])[..|es|] == es;
  }

  /** Adding from the palette is taking an id, then recording the page with the element appended. */
  lemma AddFromPaletteStep(s: EditorState, item: PaletteItem, e: CanvasElement)
    requires Inv(s) && e == PaletteElement(item, s.nextId, NextZ(Elements(s)))
    ensures Inv(s.(nextId := s.nextId + 1))
    ensures IdsBelow(Elements(s) + [e], s.nextId + 1)
    ensures AddFromPalette(s, item) == Record(s.(nextId := s.nextId + 1), Elements(s) + [e])
  {
  }

  /** `handleCopy`: the clipboard takes the first element on the page with the selected id, if any. */
  function Copy(s: EditorState): EditorState
    requires Inv(s)
  {
    var found := if s.selectedElement.Some? then Find(Elements(s), s.selectedElement.value) else None;
    if found.Some? then s.(copiedElement := found) else s
  }

  /**
   * Copy holds a value copy of the first element of the current page with the selected id,
   * when there is one, and otherwise changes nothing; it changes nothing but the clipboard.
   */
  lemma CopySpec(s: EditorState)
    requires Inv(s)
    ensures Inv(Copy(s))
    ensures Copy(s) == s.(copiedElement := Copy(s).copiedElement)
    ensures s.selectedElement.Some? && HasId(Elements(s), s.selectedElement.value) ==>
      var es, id := Elements(s), s.selectedElement.value;
      && Copy(s).copiedElement.Some?
      && Copy(s).copiedElement.value.id == id
      && exists k :: 0 <= k < |es| && es[k] == Copy(s).copiedElement.value
                     && forall j :: 0 <= j < k ==> es[j].id != id
    ensures s.selectedElement.None? || !HasId(Elements(s), s.selectedElement.value) ==> Copy(s) == s
  {
    if s.selectedElement.Some? {
      var found := Find(Elements(s), s.selectedElement.value);
      if found.Some? {
        var k :| 0 <= k < |Elements(s)| && Elements(s)[k] == found.value;
        assert found.value.id < s.nextId by { assert IdsBelow(s.pages[s.currentPage], s.nextId); }
      }
    }
  }

  /** The element a paste adds: the clipboard element moved by (20, 20) with a fresh id, on top. */
  function PastedElement(s: EditorState): CanvasElement
    requires Inv(s) && s.copiedElement.Some?
  {
    var c := s.copiedElement.value;
    c.(id := s.nextId, x := c.x + PasteOffset, y := c.y + PasteOffset, zIndex := NextZ(Elements(s)))
  }

  /**
   * `handlePaste`: with a clipboard element, appends the pasted copy to the current page,
   * records it and selects it. The zIndex follows the add-from-palette rule (see the finding
   * on pasting onto an empty page).
   */
  function Paste(s: EditorState): EditorState
    requires Inv(s)
  {
    if s.copiedElement.Some? then
      var e := PastedElement(s);
      Record(s.(nextId := s.nextId + 1), Elements(s) + [e]).(selectedElement := Some(e.id))
    else s
  }

  /** Pasting is taking an id, recording the page with the copy appended, then selecting the copy. */
  lemma PasteStep(s: EditorState, e: CanvasElement)
    requires Inv(s) && s.copiedElement.Some? && e == PastedElement(s)
    ensures Inv(s.(nextId := s.nextId + 1))
    ensures IdsBelow(Elements(s) + [e], s.nextId + 1)
    ensures Paste(s) == Record(s.(nextId := s.nextId + 1), Elements(s) + [e]).(selectedElement := Some(e.id))
  {
  }

  /**
   * A paste adds one element that equals the clipboard element except for a fresh id (one
   * that neither the clipboard element nor any element on the page has), coordinates moved by
   * +20, +20 and the zIndex one above the page's top (1 on an empty page, where the source
   * computes minus infinity; see the finding). It selects the new element and
   * leaves the clipboard as it was. Without a clipboard element nothing changes.
   */
  lemma PasteSpec(s: EditorState)
    requires Inv(s)
    ensures Inv(Paste(s))
    ensures s.copiedElement.None? ==> Paste(s) == s
    ensures s.copiedElement.Some? ==>
      var c, es, t := s.copiedElement.value, Elements(s), Elements(Paste(s));
      && |t| == |es| + 1 && t[..|es|] == es
      && t[|es|].id != c.id && !HasId(es, t[|es|].id)
      && t[|es|] == c.(id := t[|es|].id, x := c.x + 20.0, y := c.y + 20.0, zIndex := NextZ(es))
      && (forall i :: 0 <= i < |es| ==> es[i].zIndex < t[|es|].zIndex)
      && Paste(s).selectedElement == Some(t[|es|].id)
      && Paste(s).copiedElement == s.copiedElement
      && Synced(Paste(s)) && !CanRedo(Paste(s))
  {
    if s.copiedElement.Some? {
      var s1 := s.(nextId := s.nextId + 1);
      var es := Elements(s);
      var e := PastedElement(s);
      assert IdsBelow(es + [e], s1.nextId);
      RecordSpec(s1, es + [e]);
      var r := Record(s1, es + [e]);
      assert Paste(s) == r.(selectedElement := Some(e.id));
      assert Synced(r);
      assert (es + [e])[..|es|] == es;
    }
  }

  /**
   * Pasting twice from one copy gives two elements with the same geometry and different ids:
   * the clipboard is not moved by a paste.
   */
  lemma RepeatedPasteSameGeometry(s: EditorState)
    requires Inv(s) && s.copiedElement.Some?
    ensures Inv(Paste(s))
    ensures var t, u := Paste(s), Paste(Paste(s));
      && |Elements(u)| == |Elements(s)| + 2
      && Elements(u)[|Elements(s)|].x == Elements(u)[|Elements(s)| + 1].x
      && Elements(u)[|Elements(s)|].y == Elements(u)[|Elements(s)| + 1].y
      && Elements(u)[|Elements(s)|].id != Elements(u)[|Elements(s)| + 1].id
  {
    PasteSpec(s);
    PasteSpec(Paste(s));
  }

  // ---------------------------------------------------------------------------
  // Selection and dragging

  /** `handleElementMouseDown`: selects the element and starts dragging it. */
  function ElementMouseDown(s: EditorState, e: CanvasElement, offsetX: real, offsetY: real): EditorState {
    s.(selectedElement := Some(e.id), isDragging := true, draggedElement := Some(e),
       dragOffset := Offset(offsetX, offsetY))
  }

  /**
   * `handleMouseMove`, with the pointer given in canvas coordinates: while dragging, moves
   * the dragged element so that the grab point follows the pointer, snapped and clamped,
   * and records the new list (one history entry per move).
   */
  function MouseMove(s: EditorState, pointerX: real, pointerY: real): EditorState
    requires Inv(s)
  {
    if !s.isDragging || s.draggedElement.None? then s
    else
      var nx := DragCoordinate(pointerX - s.dragOffset.x, s.snapToGrid);
      var ny := DragCoordinate(pointerY - s.dragOffset.y, s.snapToGrid);
      Record(s, UpdateElement(Elements(s), s.draggedElement.value.id, MoveTo(nx, ny)))
  }

  /** `handleMouseUp`: ends the drag. */
  function MouseUp(s: EditorState): EditorState {
    s.(isDragging := false, draggedElement := None)
  }

  /** The canvas' `onClick`: clears the selection. */
  function CanvasClick(s: EditorState): EditorState {
    s.(selectedElement := None)
  }

  /**
   * A press and release on an element as the component is written: the element has no click
   * handler and its mouse-down handler stops only the mouse-down, so the click that follows
   * bubbles up to the canvas' `onClick`, which clears the selection the press has just made.
   */
  function ElementClickAsWritten(s: EditorState, e: CanvasElement, offsetX: real, offsetY: real): EditorState {
    CanvasClick(MouseUp(ElementMouseDown(s, e, offsetX, offsetY)))
  }

  /** As written, clicking an element leaves nothing selected, whatever was selected before. */
  lemma ElementClickAsWrittenLosesSelection(s: EditorState, e: CanvasElement, offsetX: real, offsetY: real)
    ensures ElementClickAsWritten(s, e, offsetX, offsetY).selectedElement.None?
    ensures ElementClickAsWritten(s, e, offsetX, offsetY).selectedElement != ElementClick(s, e, offsetX, offsetY).selectedElement
  {
  }

  /**
   * A press and release on an element as intended: the element is selected and the drag is
   * over. The events of `Step` follow this reading, with the canvas click standing for a click
   * on the canvas background only.
   */
  function ElementClick(s: EditorState, e: CanvasElement, offsetX: real, offsetY: real): EditorState {
    MouseUp(ElementMouseDown(s, e, offsetX, offsetY))
  }

  /** The intended click selects the element, ends the drag and changes no page and no history. */
  lemma ElementClickSelects(s: EditorState, e: CanvasElement, offsetX: real, offsetY: real)
    requires Inv(s)
    ensures var t := ElementClick(s, e, offsetX, offsetY);
      && t.selectedElement == Some(e.id) && !t.isDragging && t.draggedElement.None?
      && t.pages == s.pages && t.history == s.history && t.historyIndex == s.historyIndex
      && t.copiedElement == s.copiedElement && t.nextId == s.nextId
    ensures Run(s, [ElementPress(e, offsetX, offsetY), PointerRelease]) == ElementClick(s, e, offsetX, offsetY)
  {
    var s1 := ElementMouseDown(s, e, offsetX, offsetY);
    assert Run(s, [ElementPress(e, offsetX, offsetY), PointerRelease]) == Run(s1, [PointerRelease]);
    assert Run(s1, [PointerRelease]) == Run(MouseUp(s1), []);
  }

  /**
   * A pointer move outside a drag changes nothing. During a drag it changes only `x` and `y`
   * of the elements carrying the dragged id, to the drag coordinates of the pointer minus the
   * grab offset: both end up non-negative, and with snapping on each is a multiple of the grid
   * size. It appends exactly one history entry and changes nothing outside the current page.
   */
  lemma MouseMoveSpec(s: EditorState, pointerX: real, pointerY: real)
    requires Inv(s)
    ensures Inv(MouseMove(s, pointerX, pointerY))
    ensures !s.isDragging || s.draggedElement.None? ==> MouseMove(s, pointerX, pointerY) == s
    ensures s.isDragging && s.draggedElement.Some? ==>
      var es, t, id := Elements(s), Elements(MouseMove(s, pointerX, pointerY)), s.draggedElement.value.id;
      && |t| == |es|
      && |MouseMove(s, pointerX, pointerY).history| == s.historyIndex + 2
      && (forall i :: 0 <= i < |es| && es[i].id != id ==> t[i] == es[i])
      && EditsOnlyCurrentPage(s, MouseMove(s, pointerX, pointerY))
      && (forall i :: 0 <= i < |es| && es[i].id == id ==>
            && t[i] == es[i].(x := DragCoordinate(pointerX - s.dragOffset.x, s.snapToGrid),
                              y := DragCoordinate(pointerY - s.dragOffset.y, s.snapToGrid))
            && t[i].x >= 0.0 && t[i].y >= 0.0
            && (s.snapToGrid ==> (exists k: nat :: t[i].x == GridLine(k)) && (exists k: nat :: t[i].y == GridLine(k))))
  {
    if s.isDragging && s.draggedElement.Some? {
      var nx := DragCoordinate(pointerX - s.dragOffset.x, s.snapToGrid);
      var ny := DragCoordinate(pointerY - s.dragOffset.y, s.snapToGrid);
      var id := s.draggedElement.value.id;
      DragCoordinateSpec(pointerX - s.dragOffset.x, s.snapToGrid);
      DragCoordinateSpec(pointerY - s.dragOffset.y, s.snapToGrid);
      UpdateElementKeepsIds(Elements(s), id, MoveTo(nx, ny), s.nextId);
      RecordSpec(s, UpdateElement(Elements(s), id, MoveTo(nx, ny)));
    }
  }

  /** Mouse-up clears the dragging state and nothing else; a move after it changes nothing. */
  lemma MouseUpEndsDrag(s: EditorState, pointerX: real, pointerY: real)
    requires Inv(s)
    ensures Inv(MouseUp(s))
    ensures !MouseUp(s).isDragging && MouseUp(s).draggedElement.None?
    ensures MouseUp(s).pages == s.pages && MouseUp(s).history == s.history
    ensures MouseMove(MouseUp(s), pointerX, pointerY) == MouseUp(s)
  {
  }

  /**
   * Double-clicking a text box writes the confirmed prompt text into it; cancelling the
   * prompt changes nothing.
   */
  function EditText(s: EditorState, e: CanvasElement, promptResult: Option<string>): EditorState
    requires Inv(s)
  {
    if e.elementType == TextBox && promptResult.Some? then
      Record(s, UpdateElement(Elements(s), e.id, SetContent(promptResult.value)))
    else s
  }

  /** Double-clicking an image without a picture opens the file chooser. */
  predicate OpensFilePicker(e: CanvasElement) {
    e.elementType == Image && (e.imageUrl.None? || e.imageUrl.value == "")
  }

  /** The file reader's result for a chosen file becomes the selected element's picture. */
  function ImageLoaded(s: EditorState, dataUrl: Option<string>): EditorState
    requires Inv(s)
  {
    if dataUrl.Some? && s.selectedElement.Some? then
      Record(s, UpdateElement(Elements(s), s.selectedElement.value, SetImage(dataUrl.value)))
    else s
  }

  // ---------------------------------------------------------------------------
  // Layers and alignment

  /** Applies `p` to the selected element and records the result; no-op without a selection. */
  function PatchSelected(s: EditorState, p: Patch): EditorState
    requires Inv(s)
  {
    if s.selectedElement.None? then s
    else Record(s, UpdateElement(Elements(s), s.selectedElement.value, p))
  }

  /** `handleBringToFront`: the selected element goes one above the page's top zIndex. */
  function BringToFront(s: EditorState): EditorState
    requires Inv(s)
  {
    PatchSelected(s, SetZ(NextZ(Elements(s))))
  }

  /** `handleSendToBack`: the selected element goes one below the page's bottom zIndex. */
  function SendToBack(s: EditorState): EditorState
    requires Inv(s)
  {
    PatchSelected(s, SetZ(PrevZ(Elements(s))))
  }

  /** `handleAlignLeft`. */
  function AlignToLeft(s: EditorState): EditorState
    requires Inv(s)
  {
    PatchSelected(s, SetX(0.0))
  }

  /** `handleAlignCenter`: only when the selected element is on the page. */
  function AlignToCenter(s: EditorState): EditorState
    requires Inv(s)
  {
    if s.selectedElement.None? then s
    else
      match Find(Elements(s), s.selectedElement.value)
      case None => s
      case Some(e) => PatchSelected(s, SetX((CanvasWidth - e.width) / 2.0))
  }

  /** `handleAlignRight`: only when the selected element is on the page. */
  function AlignToRight(s: EditorState): EditorState
    requires Inv(s)
  {
    if s.selectedElement.None? then s
    else
      match Find(Elements(s), s.selectedElement.value)
      case None => s
      case Some(e) => PatchSelected(s, SetX(CanvasWidth - e.width))
  }

  /**
   * Patching the selection records one snapshot in which exactly the elements carrying the
   * selected id are patched; without a selection it changes nothing.
   */
  lemma PatchSelectedSpec(s: EditorState, p: Patch)
    requires Inv(s)
    ensures Inv(PatchSelected(s, p))
    ensures s.selectedElement.None? ==> PatchSelected(s, p) == s
    ensures s.selectedElement.Some? ==>
      && Elements(PatchSelected(s, p)) == UpdateElement(Elements(s), s.selectedElement.value, p)
      && |PatchSelected(s, p).history| == s.historyIndex + 2
      && EditsOnlyCurrentPage(s, PatchSelected(s, p))
  {
    if s.selectedElement.Some? {
      UpdateElementKeepsIds(Elements(s), s.selectedElement.value, p, s.nextId);
      RecordSpec(s, UpdateElement(Elements(s), s.selectedElement.value, p));
    }
  }

  /**
   * Bring-to-front gives the selected element the zIndex one above the page's top, so strictly
   * above that of every element of the page, its own old value included, and changes no other
   * element, no other page and no other field.
   */
  lemma BringToFrontSpec(s: EditorState)
    requires Inv(s)
    ensures Inv(BringToFront(s))
    ensures s.selectedElement.None? ==> BringToFront(s) == s
    ensures s.selectedElement.Some? ==>
      var es, t, id := Elements(s), Elements(BringToFront(s)), s.selectedElement.value;
      && |t| == |es| && |BringToFront(s).history| == s.historyIndex + 2
      && EditsOnlyCurrentPage(s, BringToFront(s))
      && (forall i :: 0 <= i < |es| && es[i].id != id ==> t[i] == es[i])
      && (forall i :: 0 <= i < |es| && es[i].id == id ==>
            t[i] == es[i].(zIndex := NextZ(es)) && forall j :: 0 <= j < |es| ==> es[j].zIndex < t[i].zIndex)
  {
    PatchSelectedSpec(s, SetZ(NextZ(Elements(s))));
  }

  /** Send-to-back: the mirror image, one below the page's bottom, strictly below every element. */
  lemma SendToBackSpec(s: EditorState)
    requires Inv(s)
    ensures Inv(SendToBack(s))
    ensures s.selectedElement.None? ==> SendToBack(s) == s
    ensures s.selectedElement.Some? ==>
      var es, t, id := Elements(s), Elements(SendToBack(s)), s.selectedElement.value;
      && |t| == |es| && |SendToBack(s).history| == s.historyIndex + 2
      && EditsOnlyCurrentPage(s, SendToBack(s))
      && (forall i :: 0 <= i < |es| && es[i].id != id ==> t[i] == es[i])
      && (forall i :: 0 <= i < |es| && es[i].id == id ==>
            t[i] == es[i].(zIndex := PrevZ(es)) && forall j :: 0 <= j < |es| ==> t[i].zIndex < es[j].zIndex)
  {
    PatchSelectedSpec(s, SetZ(PrevZ(Elements(s))));
  }

  /**
   * Left-align sets only `x` of the selected element, to 0. It records even when the selected
   * element is not on the page.
   */
  lemma AlignLeftSpec(s: EditorState)
    requires Inv(s)
    ensures Inv(AlignToLeft(s))
    ensures s.selectedElement.None? ==> AlignToLeft(s) == s
    ensures s.selectedElement.Some? ==>
      var es, t, id := Elements(s), Elements(AlignToLeft(s)), s.selectedElement.value;
      && |t| == |es| && |AlignToLeft(s).history| == s.historyIndex + 2
      && EditsOnlyCurrentPage(s, AlignToLeft(s))
      && (forall i :: 0 <= i < |es| && es[i].id != id ==> t[i] == es[i])
      && (forall i :: 0 <= i < |es| && es[i].id == id ==> t[i] == es[i].(x := 0.0))
      && (!HasId(es, id) ==> t == es)
  {
    PatchSelectedSpec(s, SetX(0.0));
    if s.selectedElement.Some? {
      UpdateElementChangesOnlyTarget(Elements(s), s.selectedElement.value, SetX(0.0));
    }
  }

  /**
   * Center-align sets only `x` of the elements with the selected id, to (800 - width) / 2,
   * unclamped, where the width is that of the first element with the id (the one `find`
   * returns), and records one snapshot; when the selected element is not on the page nothing
   * changes.
   */
  lemma AlignCenterSpec(s: EditorState)
    requires Inv(s)
    ensures Inv(AlignToCenter(s))
    ensures s.selectedElement.None? || !HasId(Elements(s), s.selectedElement.value) ==> AlignToCenter(s) == s
    ensures s.selectedElement.Some? && HasId(Elements(s), s.selectedElement.value) ==>
      var es, t, id := Elements(s), Elements(AlignToCenter(s)), s.selectedElement.value;
      && |t| == |es| && |AlignToCenter(s).history| == s.historyIndex + 2
      && EditsOnlyCurrentPage(s, AlignToCenter(s))
      && (forall i :: 0 <= i < |es| && es[i].id != id ==> t[i] == es[i])
      && (forall i :: 0 <= i < |es| && es[i].id == id ==> t[i] == es[i].(x := (800.0 - Find(es, id).value.width) / 2.0))
  {
    if s.selectedElement.Some? {
      var id := s.selectedElement.value;
      var es := Elements(s);
      var found := Find(es, id);
      if found.Some? {
        var w := found.value.width;
        PatchSelectedSpec(s, SetX((CanvasWidth - w) / 2.0));
        UpdateElementChangesOnlyTarget(es, id, SetX((CanvasWidth - w) / 2.0));
      }
    }
  }

  /** With unique ids the width is the aligned element's own: its `x` becomes (800 - width) / 2. */
  lemma AlignCenterOwnWidth(s: EditorState)
    requires Inv(s) && s.selectedElement.Some? && UniqueIds(Elements(s))
    ensures var es, t, id := Elements(s), Elements(AlignToCenter(s)), s.selectedElement.value;
      forall i :: 0 <= i < |es| && es[i].id == id ==> |t| == |es| && t[i] == es[i].(x := (800.0 - es[i].width) / 2.0)
  {
    AlignCenterSpec(s);
    if HasId(Elements(s), s.selectedElement.value) {
      SelectedIsFound(Elements(s), s.selectedElement.value);
    }
  }

  /**
   * Right-align sets only `x` of the elements with the selected id, to 800 - width,
   * unclamped, with the width of the first element with the id, and records one snapshot;
   * when the selected element is not on the page nothing changes.
   */
  lemma AlignRightSpec(s: EditorState)
    requires Inv(s)
    ensures Inv(AlignToRight(s))
    ensures s.selectedElement.None? || !HasId(Elements(s), s.selectedElement.value) ==> AlignToRight(s) == s
    ensures s.selectedElement.Some? && HasId(Elements(s), s.selectedElement.value) ==>
      var es, t, id := Elements(s), Elements(AlignToRight(s)), s.selectedElement.value;
      && |t| == |es| && |AlignToRight(s).history| == s.historyIndex + 2
      && EditsOnlyCurrentPage(s, AlignToRight(s))
      && (forall i :: 0 <= i < |es| && es[i].id != id ==> t[i] == es[i])
      && (forall i :: 0 <= i < |es| && es[i].id == id ==> t[i] == es[i].(x := 800.0 - Find(es, id).value.width))
  {
    if s.selectedElement.Some? {
      var id := s.selectedElement.value;
      var es := Elements(s);
      var found := Find(es, id);
      if found.Some? {
        var w := found.value.width;
        PatchSelectedSpec(s, SetX(CanvasWidth - w));
        UpdateElementChangesOnlyTarget(es, id, SetX(CanvasWidth - w));
      }
    }
  }

  /** With unique ids the width is the aligned element's own: its `x` becomes 800 - width. */
  lemma AlignRightOwnWidth(s: EditorState)
    requires Inv(s) && s.selectedElement.Some? && UniqueIds(Elements(s))
    ensures var es, t, id := Elements(s), Elements(AlignToRight(s)), s.selectedElement.value;
      forall i :: 0 <= i < |es| && es[i].id == id ==> |t| == |es| && t[i] == es[i].(x := 800.0 - es[i].width)
  {
    AlignRightSpec(s);
    if HasId(Elements(s), s.selectedElement.value) {
      SelectedIsFound(Elements(s), s.selectedElement.value);
    }
  }

  /** With unique ids, the element `Find` returns is the one at every index carrying the id. */
  lemma SelectedIsFound(es: seq<CanvasElement>, id: ElementId)
    requires UniqueIds(es) && HasId(es, id)
    ensures forall i :: 0 <= i < |es| && es[i].id == id ==> es[i] == Find(es, id).value
  {
    var k :| 0 <= k < |es| && es[k] == Find(es, id).value && forall j :: 0 <= j < k ==> es[j].id != id;
    assert Find(es, id).Some? && Find(es, id).value.id == id;
    assert forall i :: 0 <= i < |es| && es[i].id == id ==> i == k;
  }

  // ---------------------------------------------------------------------------
  // Pages

  /** `handleAddPage`: appends an empty page and makes it current; history and selection stay. */
  function AddPage(s: EditorState): EditorState {
    s.(pages := s.pages + [[]], currentPage := |s.pages|)
  }

  /** `handleDeletePage`: refused on the last page; otherwise removes the current page. */
  function DeletePage(s: EditorState): EditorState
    requires Inv(s)
  {
    if |s.pages| <= 1 then s
    else s.(pages := Seqs.RemoveAt(s.pages, s.currentPage),
            currentPage := if s.currentPage == 0 then 0 else s.currentPage - 1)
  }

  /** A page tab click. */
  function SelectPage(s: EditorState, index: nat): EditorState
    requires index < |s.pages|
  {
    s.(currentPage := index)
  }

  lemma AddPageSpec(s: EditorState)
    requires Inv(s)
    ensures Inv(AddPage(s))
    ensures AddPage(s).pages == s.pages + [[]] && AddPage(s).currentPage == |s.pages|
    ensures Elements(AddPage(s)) == []
    ensures AddPage(s).history == s.history && AddPage(s).historyIndex == s.historyIndex
    ensures AddPage(s).selectedElement == s.selectedElement
  {
    assert forall p :: 0 <= p < |s.pages| ==> AddPage(s).pages[p] == s.pages[p];
  }

  /**
   * Deleting a page is refused while one page remains. Otherwise exactly the current page
   * goes, the page before it (or page 0) becomes current, and history and selection are
   * left alone. Page 0 therefore always exists.
   */
  lemma DeletePageSpec(s: EditorState)
    requires Inv(s)
    ensures Inv(DeletePage(s)) && |DeletePage(s).pages| >= 1
    ensures |s.pages| <= 1 ==> DeletePage(s) == s
    ensures |s.pages| > 1 ==>
      && DeletePage(s).pages == s.pages[..s.currentPage] + s.pages[s.currentPage + 1..]
      && DeletePage(s).currentPage == (if s.currentPage == 0 then 0 else s.currentPage - 1)
      && DeletePage(s).history == s.history && DeletePage(s).historyIndex == s.historyIndex
      && DeletePage(s).selectedElement == s.selectedElement
  {
    if |s.pages| > 1 {
      var t := DeletePage(s);
      assert forall p :: 0 <= p < |t.pages| ==> t.pages[p] == s.pages[if p < s.currentPage then p else p + 1];
    }
  }

  /**
   * The shared history: undo right after adding a page fills the new page with the previous
   * snapshot of the other page, because there is one track for all pages.
   */
  lemma UndoOnNewPageWritesOtherPagesSnapshot(s: EditorState)
    requires Inv(s) && CanUndo(s)
    ensures Inv(AddPage(s))
    ensures Elements(Undo(AddPage(s))) == s.history[s.historyIndex - 1].elements
    ensures Undo(AddPage(s)).currentPage == |s.pages|
  {
    AddPageSpec(s);
  }

  // ---------------------------------------------------------------------------
  // Deleting, restyling, property fields

  /** `handleDeleteElement`: removes the selected id from the page and clears the selection. */
  function DeleteElement(s: EditorState): EditorState
    requires Inv(s)
  {
    if s.selectedElement.Some? then
      Record(s, RemoveId(Elements(s), s.selectedElement.value)).(selectedElement := None)
    else s
  }

  lemma DeleteElementSpec(s: EditorState)
    requires Inv(s)
    ensures Inv(DeleteElement(s))
    ensures s.selectedElement.None? ==> DeleteElement(s) == s
    ensures s.selectedElement.Some? ==>
      var es, t, id := Elements(s), Elements(DeleteElement(s)), s.selectedElement.value;
      && !HasId(t, id)
      && (forall e :: e in t <==> e in es && e.id != id)
      && (forall k :: 0 <= k < |es| && es[k].id == id && UniqueIds(es) ==> t == Seqs.RemoveAt(es, k))
      && DeleteElement(s).selectedElement.None?
  {
    if s.selectedElement.Some? {
      RemoveIdSpec(Elements(s), s.selectedElement.value);
      RemoveIdKeepsIds(Elements(s), s.selectedElement.value, s.nextId);
      RecordSpec(s, RemoveId(Elements(s), s.selectedElement.value));
    }
  }

  /** `handleStyleChange(property, value)`. */
  function ChangeStyle(s: EditorState, c: StyleChange): EditorState
    requires Inv(s)
  {
    PatchSelected(s, Restyle(c))
  }

  /**
   * A style change overwrites the named style field of the selected element and nothing
   * else: its other style fields, its other attributes, all other elements, the other pages,
   * the selection and the clipboard stay; one snapshot is recorded.
   */
  lemma StyleChangeSpec(s: EditorState, c: StyleChange)
    requires Inv(s)
    ensures Inv(ChangeStyle(s, c))
    ensures s.selectedElement.None? ==> ChangeStyle(s, c) == s
    ensures s.selectedElement.Some? ==>
      var es, t, id := Elements(s), Elements(ChangeStyle(s, c)), s.selectedElement.value;
      && |t| == |es| && |ChangeStyle(s, c).history| == s.historyIndex + 2
      && EditsOnlyCurrentPage(s, ChangeStyle(s, c))
      && (forall i :: 0 <= i < |es| && es[i].id != id ==> t[i] == es[i])
      && (forall i :: 0 <= i < |es| && es[i].id == id ==>
            && t[i] == es[i].(style := t[i].style)
            && ReadStyle(t[i].style, FieldOf(c)) == ValueOf(c)
            && (forall f :: f != FieldOf(c) ==> ReadStyle(t[i].style, f) == ReadStyle(es[i].style, f)))
  {
    PatchSelectedSpec(s, Restyle(c));
    if s.selectedElement.Some? {
      var es := Elements(s);
      forall i | 0 <= i < |es| && es[i].id == s.selectedElement.value
        ensures ReadStyle(ApplyStyle(es[i].style, c), FieldOf(c)) == ValueOf(c)
        ensures forall f :: f != FieldOf(c) ==> ReadStyle(ApplyStyle(es[i].style, c), f) == ReadStyle(es[i].style, f)
      {
        ApplyStyleOverwritesOneField(es[i].style, c);
      }
    }
  }

  /** The four number fields of the "Position & Size" panel. */
  datatype GeometryField = XField | YField | WidthField | HeightField

  function GeometryPatch(f: GeometryField, v: real): Patch {
    match f
    case XField => SetX(v)
    case YField => SetY(v)
    case WidthField => SetWidth(v)
    case HeightField => SetHeight(v)
  }

  /**
   * A keystroke in a "Position & Size" field: the field of the elements with the selected id
   * takes the number, unclamped, and the list is recorded, one entry per keystroke (and a
   * recording of the unchanged list when nothing is selected).
   */
  function GeometryInput(s: EditorState, f: GeometryField, v: real): EditorState
    requires Inv(s)
  {
    var es := Elements(s);
    Record(s, if s.selectedElement.Some? then UpdateElement(es, s.selectedElement.value, GeometryPatch(f, v)) else es)
  }

  // ---------------------------------------------------------------------------
  // Keyboard

  datatype KeyAction = UndoKey | RedoKey | CopyKey | PasteKey | DeleteKey | NoKey

  /** The shortcut a keydown triggers, from its key, its modifiers and the current state. */
  function KeyCommand(key: string, ctrlOrMeta: bool, shift: bool, hasSelection: bool, hasClipboard: bool): KeyAction {
    if ctrlOrMeta then
      if key == "z" && !shift then UndoKey
      else if (key == "z" && shift) || key == "y" then RedoKey
      else if key == "c" && hasSelection then CopyKey
      else if key == "v" && hasClipboard then PasteKey
      else NoKey
    else if key == "Delete" && hasSelection then DeleteKey
    else NoKey
  }

  /** The window's keydown listener. */
  function KeyDown(s: EditorState, key: string, ctrlOrMeta: bool, shift: bool): EditorState
    requires Inv(s)
  {
    match KeyCommand(key, ctrlOrMeta, shift, s.selectedElement.Some?, s.copiedElement.Some?)
    case UndoKey => Undo(s)
    case RedoKey => Redo(s)
    case CopyKey => Copy(s)
    case PasteKey => Paste(s)
    case DeleteKey => DeleteElement(s)
    case NoKey => s
  }

  /**
   * Each keystroke dispatches to at most one handler: Ctrl/Cmd+Z undoes, Ctrl/Cmd+Shift+Z and
   * Ctrl/Cmd+Y redo, Ctrl/Cmd+C copies and Delete deletes when something is selected,
   * Ctrl/Cmd+V pastes when something was copied; every other key changes nothing.
   */
  lemma KeyDownSpec(s: EditorState, key: string, ctrlOrMeta: bool, shift: bool)
    requires Inv(s)
    ensures ctrlOrMeta && key == "z" && !shift ==> KeyDown(s, key, ctrlOrMeta, shift) == Undo(s)
    ensures ctrlOrMeta && (key == "y" || (key == "z" && shift)) ==> KeyDown(s, key, ctrlOrMeta, shift) == Redo(s)
    ensures ctrlOrMeta && key == "c" ==> KeyDown(s, key, ctrlOrMeta, shift) == Copy(s)
    ensures ctrlOrMeta && key == "v" ==> KeyDown(s, key, ctrlOrMeta, shift) == Paste(s)
    ensures !ctrlOrMeta && key == "Delete" ==> KeyDown(s, key, ctrlOrMeta, shift) == DeleteElement(s)
    ensures ctrlOrMeta && key != "z" && key != "y" && key != "c" && key != "v" ==> KeyDown(s, key, ctrlOrMeta, shift) == s
    ensures !ctrlOrMeta && key != "Delete" ==> KeyDown(s, key, ctrlOrMeta, shift) == s
  {
  }

  lemma KeyDownPreservesInv(s: EditorState, key: string, ctrlOrMeta: bool, shift: bool)
    requires Inv(s)
    ensures Inv(KeyDown(s, key, ctrlOrMeta, shift)) && s.nextId <= KeyDown(s, key, ctrlOrMeta, shift).nextId
  {
    var t := KeyDown(s, key, ctrlOrMeta, shift);
    match KeyCommand(key, ctrlOrMeta, shift, s.selectedElement.Some?, s.copiedElement.Some?)
    case UndoKey => assert t == Undo(s); UndoSpec(s);
    case RedoKey => assert t == Redo(s); RedoSpec(s);
    case CopyKey => assert t == Copy(s); CopySpec(s);
    case PasteKey => assert t == Paste(s); PasteSpec(s);
    case DeleteKey => assert t == DeleteElement(s); DeleteElementSpec(s);
    case NoKey =>
  }

  // ---------------------------------------------------------------------------
  // Runs of events

  /** One user event the editor reacts to. Pointer positions are in canvas coordinates. */
  datatype Event =
    | PaletteClick(item: PaletteItem)
    | UndoClick
    | RedoClick
    | KeyPress(key: string, ctrlOrMeta: bool, shift: bool)
    | CopyClick
    | PasteClick
    | ElementPress(element: CanvasElement, offsetX: real, offsetY: real)
    | PointerMove(pointerX: real, pointerY: real)
    | PointerRelease
    | CanvasBackgroundClick
    | ElementDoubleClick(element: CanvasElement, promptResult: Option<string>)
    | ImageRead(dataUrl: Option<string>)
    | FrontClick
    | BackClick
    | AlignLeftClick
    | AlignCenterClick
    | AlignRightClick
    | AddPageClick
    | DeletePageClick
    | PageTabClick(index: nat)
    | SnapToggle(on: bool)
    | DeleteClick
    | StyleEdit(change: StyleChange)
    | GeometryEdit(field: GeometryField, value: real)

  /** The transition of one event. Only existing page tabs can be clicked. */
  function Step(s: EditorState, ev: Event): EditorState
    requires Inv(s)
  {
    match ev
    case PaletteClick(item) => AddFromPalette(s, item)
    case UndoClick => Undo(s)
    case RedoClick => Redo(s)
    case KeyPress(key, m, sh) => KeyDown(s, key, m, sh)
    case CopyClick => Copy(s)
    case PasteClick => Paste(s)
    case ElementPress(e, ox, oy) => ElementMouseDown(s, e, ox, oy)
    case PointerMove(px, py) => MouseMove(s, px, py)
    case PointerRelease => MouseUp(s)
    case CanvasBackgroundClick => CanvasClick(s)
    case ElementDoubleClick(e, r) => EditText(s, e, r)
    case ImageRead(url) => ImageLoaded(s, url)
    case FrontClick => BringToFront(s)
    case BackClick => SendToBack(s)
    case AlignLeftClick => AlignToLeft(s)
    case AlignCenterClick => AlignToCenter(s)
    case AlignRightClick => AlignToRight(s)
    case AddPageClick => AddPage(s)
    case DeletePageClick => DeletePage(s)
    case PageTabClick(i) => if i < |s.pages| then SelectPage(s, i) else s
    case SnapToggle(on) => s.(snapToGrid := on)
    case DeleteClick => DeleteElement(s)
    case StyleEdit(c) => ChangeStyle(s, c)
    case GeometryEdit(f, v) => GeometryInput(s, f, v)
  }

  /** Every event keeps the invariant, and the id counter never goes back. */
  lemma StepPreservesInv(s: EditorState, ev: Event)
    requires Inv(s)
    ensures Inv(Step(s, ev)) && s.nextId <= Step(s, ev).nextId
  {
    match ev
    case PaletteClick(_) | UndoClick | RedoClick | KeyPress(_, _, _) | CopyClick | PasteClick =>
      HistoryEventPreservesInv(s, ev);
    case ElementPress(_, _, _) | PointerMove(_, _) | PointerRelease | CanvasBackgroundClick
       | ElementDoubleClick(_, _) | ImageRead(_) =>
      PointerEventPreservesInv(s, ev);
    case FrontClick | BackClick | AlignLeftClick | AlignCenterClick | AlignRightClick
       | DeleteClick | StyleEdit(_) | GeometryEdit(_, _) =>
      ToolbarEventPreservesInv(s, ev);
    case AddPageClick => AddPageSpec(s);
    case DeletePageClick => DeletePageSpec(s);
    case PageTabClick(i) =>
    case SnapToggle(on) =>
  }

  lemma HistoryEventPreservesInv(s: EditorState, ev: Event)
    requires Inv(s)
    requires ev.PaletteClick? || ev.UndoClick? || ev.RedoClick? || ev.KeyPress? || ev.CopyClick? || ev.PasteClick?
    ensures Inv(Step(s, ev)) && s.nextId <= Step(s, ev).nextId
  {
    match ev
    case PaletteClick(item) => AddFromPaletteSpec(s, item);
    case UndoClick => UndoSpec(s);
    case RedoClick => RedoSpec(s);
    case KeyPress(key, m, sh) => KeyDownPreservesInv(s, key, m, sh);
    case CopyClick => CopySpec(s);
    case PasteClick => PasteSpec(s);
  }

  lemma PointerEventPreservesInv(s: EditorState, ev: Event)
    requires Inv(s)
    requires ev.ElementPress? || ev.PointerMove? || ev.PointerRelease? || ev.CanvasBackgroundClick?
          || ev.ElementDoubleClick? || ev.ImageRead?
    ensures Inv(Step(s, ev)) && s.nextId <= Step(s, ev).nextId
  {
    match ev
    case ElementPress(e, ox, oy) =>
    case PointerMove(px, py) => MouseMoveSpec(s, px, py);
    case PointerRelease =>
    case CanvasBackgroundClick =>
    case ElementDoubleClick(e, r) =>
      if e.elementType == TextBox && r.Some? {
        UpdateElementKeepsIds(Elements(s), e.id, SetContent(r.value), s.nextId);
        RecordSpec(s, UpdateElement(Elements(s), e.id, SetContent(r.value)));
      }
    case ImageRead(url) =>
      if url.Some? && s.selectedElement.Some? {
        UpdateElementKeepsIds(Elements(s), s.selectedElement.value, SetImage(url.value), s.nextId);
        RecordSpec(s, UpdateElement(Elements(s), s.selectedElement.value, SetImage(url.value)));
      }
  }

  lemma ToolbarEventPreservesInv(s: EditorState, ev: Event)
    requires Inv(s)
    requires ev.FrontClick? || ev.BackClick? || ev.AlignLeftClick? || ev.AlignCenterClick? || ev.AlignRightClick?
          || ev.DeleteClick? || ev.StyleEdit? || ev.GeometryEdit?
    ensures Inv(Step(s, ev)) && s.nextId <= Step(s, ev).nextId
  {
    if ev.DeleteClick? || ev.StyleEdit? || ev.GeometryEdit? {
      EditEventPreservesInv(s, ev);
    } else {
      ArrangeEventPreservesInv(s, ev);
    }
  }

  lemma ArrangeEventPreservesInv(s: EditorState, ev: Event)
    requires Inv(s)
    requires ev.FrontClick? || ev.BackClick? || ev.AlignLeftClick? || ev.AlignCenterClick? || ev.AlignRightClick?
    ensures Inv(Step(s, ev)) && s.nextId <= Step(s, ev).nextId
  {
    match ev
    case FrontClick => BringToFrontSpec(s);
    case BackClick => SendToBackSpec(s);
    case AlignLeftClick => AlignLeftSpec(s);
    case AlignCenterClick => AlignCenterSpec(s);
    case AlignRightClick => AlignRightSpec(s);
  }

  lemma EditEventPreservesInv(s: EditorState, ev: Event)
    requires Inv(s)
    requires ev.DeleteClick? || ev.StyleEdit? || ev.GeometryEdit?
    ensures Inv(Step(s, ev)) && s.nextId <= Step(s, ev).nextId
  {
    match ev
    case DeleteClick => DeleteElementSpec(s);
    case StyleEdit(c) => StyleChangeSpec(s, c);
    case GeometryEdit(f, v) =>
      var es := Elements(s);
      if s.selectedElement.Some? {
        UpdateElementKeepsIds(es, s.selectedElement.value, GeometryPatch(f, v), s.nextId);
      }
      RecordSpec(s, if s.selectedElement.Some? then UpdateElement(es, s.selectedElement.value, GeometryPatch(f, v)) else es);
  }

  /** The state after a run of events. */
  function Run(s: EditorState, evs: seq<Event>): (r: EditorState)
    requires Inv(s)
    ensures Inv(r)
    decreases |evs|
  {
    if evs == [] then s
    else
      StepPreservesInv(s, evs[0]);
      Run(Step(s, evs[0]), evs[1..])
  }

  /**
   * Whatever the user does from the initial state, page 0 exists, the current page and the
   * history index are in range, and the next id is fresh for every page and history entry.
   */
  lemma RunFromInitial(initialPages: Option<seq<seq<CanvasElement>>>, evs: seq<Event>)
    requires initialPages.Some? ==> |initialPages.value| >= 1
    ensures Inv(Initial(initialPages))
    ensures var r := Run(Initial(initialPages), evs);
      |r.pages| >= 1 && r.currentPage < |r.pages| && r.historyIndex < |r.history|
  {
    InitialSpec(initialPages);
  }

  /** If ids start unique on every page and snapshot, every event keeps them unique. */
  lemma StepPreservesUniqueIds(s: EditorState, ev: Event)
    requires Inv(s) && AllUnique(s)
    ensures AllUnique(Step(s, ev))
  {
    match ev
    case PaletteClick(_) | UndoClick | RedoClick | KeyPress(_, _, _) | CopyClick | PasteClick =>
      HistoryEventKeepsUnique(s, ev);
    case ElementPress(_, _, _) | PointerMove(_, _) | PointerRelease | CanvasBackgroundClick
       | ElementDoubleClick(_, _) | ImageRead(_) =>
      PointerEventKeepsUnique(s, ev);
    case FrontClick | BackClick | AlignLeftClick | AlignCenterClick | AlignRightClick
       | DeleteClick | StyleEdit(_) | GeometryEdit(_, _) =>
      ToolbarEventKeepsUnique(s, ev);
    case AddPageClick | DeletePageClick | PageTabClick(_) | SnapToggle(_) =>
      PageEventKeepsUnique(s, ev);
  }

  lemma PageEventKeepsUnique(s: EditorState, ev: Event)
    requires Inv(s) && AllUnique(s)
    requires ev.AddPageClick? || ev.DeletePageClick? || ev.PageTabClick? || ev.SnapToggle?
    ensures AllUnique(Step(s, ev))
  {
    match ev
    case AddPageClick =>
      assert forall p :: 0 <= p < |s.pages| ==> AddPage(s).pages[p] == s.pages[p];
    case DeletePageClick =>
      if |s.pages| > 1 {
        var t := DeletePage(s);
        assert forall p :: 0 <= p < |t.pages| ==> t.pages[p] == s.pages[if p < s.currentPage then p else p + 1];
      }
    case PageTabClick(i) =>
    case SnapToggle(on) =>
  }

  lemma RecordKeepsUnique(s: EditorState, es: seq<CanvasElement>)
    requires Inv(s) && AllUnique(s) && UniqueIds(es)
    ensures AllUnique(Record(s, es))
  {
    var t := Record(s, es);
    assert forall h :: 0 <= h < s.historyIndex + 1 ==> t.history[h] == s.history[h];
  }

  lemma PatchKeepsUnique(s: EditorState, id: ElementId, p: Patch)
    requires Inv(s) && AllUnique(s)
    ensures AllUnique(Record(s, UpdateElement(Elements(s), id, p)))
  {
    UpdateElementKeepsIds(Elements(s), id, p, s.nextId);
    RecordKeepsUnique(s, UpdateElement(Elements(s), id, p));
  }

  lemma AppendKeepsUnique(s: EditorState, e: CanvasElement)
    requires Inv(s) && AllUnique(s) && e.id == s.nextId
    ensures AllUnique(Record(s.(nextId := s.nextId + 1), Elements(s) + [e]))
  {
    AppendFreshKeepsUnique(Elements(s), e, s.nextId);
    RecordKeepsUnique(s.(nextId := s.nextId + 1), Elements(s) + [e]);
  }

  lemma HistoryStepsKeepUnique(s: EditorState)
    requires Inv(s) && AllUnique(s)
    ensures AllUnique(Undo(s)) && AllUnique(Redo(s)) && AllUnique(Copy(s))
  {
  }

  lemma PasteKeepsUnique(s: EditorState)
    requires Inv(s) && AllUnique(s)
    ensures AllUnique(Paste(s))
  {
    if s.copiedElement.Some? {
      AppendKeepsUnique(s, PastedElement(s));
    }
  }

  lemma DeleteElementKeepsUnique(s: EditorState)
    requires Inv(s) && AllUnique(s)
    ensures AllUnique(DeleteElement(s))
  {
    if s.selectedElement.Some? {
      RemoveIdKeepsIds(Elements(s), s.selectedElement.value, s.nextId);
      RecordKeepsUnique(s, RemoveId(Elements(s), s.selectedElement.value));
    }
  }

  lemma PatchSelectedKeepsUnique(s: EditorState, p: Patch)
    requires Inv(s) && AllUnique(s)
    ensures AllUnique(PatchSelected(s, p))
  {
    if s.selectedElement.Some? {
      PatchKeepsUnique(s, s.selectedElement.value, p);
    }
  }

  lemma KeyDownKeepsUnique(s: EditorState, key: string, ctrlOrMeta: bool, shift: bool)
    requires Inv(s) && AllUnique(s)
    ensures AllUnique(KeyDown(s, key, ctrlOrMeta, shift))
  {
    HistoryStepsKeepUnique(s);
    PasteKeepsUnique(s);
    DeleteElementKeepsUnique(s);
  }

  lemma HistoryEventKeepsUnique(s: EditorState, ev: Event)
    requires Inv(s) && AllUnique(s)
    requires ev.PaletteClick? || ev.UndoClick? || ev.RedoClick? || ev.KeyPress? || ev.CopyClick? || ev.PasteClick?
    ensures AllUnique(Step(s, ev))
  {
    match ev
    case PaletteClick(item) =>
      assert Step(s, ev) == AddFromPalette(s, item);
      AppendKeepsUnique(s, PaletteElement(item, s.nextId, NextZ(Elements(s))));
    case UndoClick => HistoryStepsKeepUnique(s);
    case RedoClick => HistoryStepsKeepUnique(s);
    case KeyPress(key, m, sh) =>
      assert Step(s, ev) == KeyDown(s, key, m, sh);
      KeyDownKeepsUnique(s, key, m, sh);
    case CopyClick => HistoryStepsKeepUnique(s);
    case PasteClick =>
      assert Step(s, ev) == Paste(s);
      PasteKeepsUnique(s);
  }

  lemma PointerEventKeepsUnique(s: EditorState, ev: Event)
    requires Inv(s) && AllUnique(s)
    requires ev.ElementPress? || ev.PointerMove? || ev.PointerRelease? || ev.CanvasBackgroundClick?
          || ev.ElementDoubleClick? || ev.ImageRead?
    ensures AllUnique(Step(s, ev))
  {
    match ev
    case ElementPress(e, ox, oy) =>
    case PointerMove(px, py) =>
      if s.isDragging && s.draggedElement.Some? {
        PatchKeepsUnique(s, s.draggedElement.value.id,
          MoveTo(DragCoordinate(px - s.dragOffset.x, s.snapToGrid), DragCoordinate(py - s.dragOffset.y, s.snapToGrid)));
      }
    case PointerRelease =>
    case CanvasBackgroundClick =>
    case ElementDoubleClick(e, r) =>
      if r.Some? { PatchKeepsUnique(s, e.id, SetContent(r.value)); }
    case ImageRead(url) =>
      if url.Some? && s.selectedElement.Some? { PatchKeepsUnique(s, s.selectedElement.value, SetImage(url.value)); }
  }

  lemma ToolbarEventKeepsUnique(s: EditorState, ev: Event)
    requires Inv(s) && AllUnique(s)
    requires ev.FrontClick? || ev.BackClick? || ev.AlignLeftClick? || ev.AlignCenterClick? || ev.AlignRightClick?
          || ev.DeleteClick? || ev.StyleEdit? || ev.GeometryEdit?
    ensures AllUnique(Step(s, ev))
  {
    if ev.DeleteClick? || ev.StyleEdit? || ev.GeometryEdit? {
      EditEventKeepsUnique(s, ev);
    } else if ev.FrontClick? || ev.BackClick? || ev.AlignLeftClick? {
      ArrangeEventKeepsUnique(s, ev);
    } else {
      AlignEventKeepsUnique(s, ev);
    }
  }

  lemma ArrangeEventKeepsUnique(s: EditorState, ev: Event)
    requires Inv(s) && AllUnique(s)
    requires ev.FrontClick? || ev.BackClick? || ev.AlignLeftClick?
    ensures AllUnique(Step(s, ev))
  {
    var es := Elements(s);
    match ev
    case FrontClick => PatchSelectedKeepsUnique(s, SetZ(NextZ(es)));
    case BackClick => PatchSelectedKeepsUnique(s, SetZ(PrevZ(es)));
    case AlignLeftClick => PatchSelectedKeepsUnique(s, SetX(0.0));
  }

  lemma AlignEventKeepsUnique(s: EditorState, ev: Event)
    requires Inv(s) && AllUnique(s)
    requires ev.AlignCenterClick? || ev.AlignRightClick?
    ensures AllUnique(Step(s, ev))
  {
    if ev.AlignCenterClick? {
      assert Step(s, ev) == AlignToCenter(s);
      AlignCenterKeepsUnique(s);
    } else {
      assert Step(s, ev) == AlignToRight(s);
      AlignRightKeepsUnique(s);
    }
  }

  lemma AlignCenterKeepsUnique(s: EditorState)
    requires Inv(s) && AllUnique(s)
    ensures AllUnique(AlignToCenter(s))
  {
    if s.selectedElement.Some? {
      var found := Find(Elements(s), s.selectedElement.value);
      if found.Some? {
        PatchSelectedKeepsUnique(s, SetX((CanvasWidth - found.value.width) / 2.0));
      }
    }
  }

  lemma AlignRightKeepsUnique(s: EditorState)
    requires Inv(s) && AllUnique(s)
    ensures AllUnique(AlignToRight(s))
  {
    if s.selectedElement.Some? {
      var found := Find(Elements(s), s.selectedElement.value);
      if found.Some? {
        PatchSelectedKeepsUnique(s, SetX(CanvasWidth - found.value.width));
      }
    }
  }

  lemma EditEventKeepsUnique(s: EditorState, ev: Event)
    requires Inv(s) && AllUnique(s)
    requires ev.DeleteClick? || ev.StyleEdit? || ev.GeometryEdit?
    ensures AllUnique(Step(s, ev))
  {
    var es := Elements(s);
    match ev
    case DeleteClick => DeleteElementKeepsUnique(s);
    case StyleEdit(c) => PatchSelectedKeepsUnique(s, Restyle(c));
    case GeometryEdit(f, v) =>
      if s.selectedElement.Some? {
        PatchKeepsUnique(s, s.selectedElement.value, GeometryPatch(f, v));
      } else {
        RecordKeepsUnique(s, es);
      }
  }

  // ---------------------------------------------------------------------------
  // The component, with its state fields

  class TemplateEditor {
    var pages: seq<seq<CanvasElement>>
    var currentPage: nat
    var history: seq<HistoryState>
    var historyIndex: nat
    var selectedElement: Option<ElementId>
    var copiedElement: Option<CanvasElement>
    var isDragging: bool
    var draggedElement: Option<CanvasElement>
    var dragOffset: Offset
    var snapToGrid: bool
    /** Stands for `Date.now()`, assumed to give a new value at every call. */
    var nextId: ElementId

    function State(): EditorState
      reads this
    {
      EditorState(pages, currentPage, history, historyIndex, selectedElement, copiedElement,
                  isDragging, draggedElement, dragOffset, snapToGrid, nextId)
    }

    predicate Valid()
      reads this
    {
      Inv(State())
    }

    constructor (initialPages: Option<seq<seq<CanvasElement>>>)
      requires initialPages.Some? ==> |initialPages.value| >= 1
      ensures Valid() && State() == Initial(initialPages)
    {
      var ps := if initialPages.Some? then initialPages.value else [[]];
      pages := ps;
      currentPage := 0;
      history := [HistoryState(ps[0])];
      historyIndex := 0;
      selectedElement := None;
      copiedElement := None;
      isDragging := false;
      draggedElement := None;
      dragOffset := Offset(0.0, 0.0);
      snapToGrid := true;
      nextId := FreshIdAbove(ps);
      InitialSpec(initialPages);
    }

    /** `setElements`: writes the current page and appends a snapshot after the current entry. */
    method SetElements(es: seq<CanvasElement>)
      requires Valid() && IdsBelow(es, nextId)
      modifies this
      ensures Valid() && State() == Record(old(State()), es)
    {
      RecordSpec(State(), es);
      pages := pages[currentPage := es];
      var newHistory := history[..historyIndex + 1];
      newHistory := newHistory + [HistoryState(es)];
      history := newHistory;
      historyIndex := |newHistory| - 1;
    }

    /** Takes the next value of the id clock. */
    method NewId() returns (id: ElementId)
      modifies this
      ensures id == old(nextId) && nextId == old(nextId) + 1
      ensures State() == old(State()).(nextId := nextId)
    {
      id := nextId;
      nextId := nextId + 1;
    }

    method HandleDragFromSidebar(item: PaletteItem)
      requires Valid()
      modifies this
      ensures Valid() && State() == AddFromPalette(old(State()), item)
    {
      ghost var s0 := State();
      var elements := pages[currentPage];
      var maxZ := if |elements| > 0 then MaxZ(elements) else 0;
      assert maxZ + 1 == NextZ(Elements(s0));
      var id := NewId();
      var newElement := PaletteElement(item, id, maxZ + 1);
      AddFromPaletteStep(s0, item, newElement);
      SetElements(elements + [newElement]);
    }

    method HandleUndo()
      requires Valid()
      modifies this
      ensures Valid() && State() == Undo(old(State()))
    {
      UndoSpec(State());
      if historyIndex > 0 {
        historyIndex := historyIndex - 1;
        var prevState := history[historyIndex];
        pages := pages[currentPage := prevState.elements];
      }
    }

    method HandleRedo()
      requires Valid()
      modifies this
      ensures Valid() && State() == Redo(old(State()))
    {
      RedoSpec(State());
      if historyIndex < |history| - 1 {
        historyIndex := historyIndex + 1;
        var nextState := history[historyIndex];
        pages := pages[currentPage := nextState.elements];
      }
    }

    method HandleCopy()
      requires Valid()
      modifies this
      ensures Valid() && State() == Copy(old(State()))
    {
      CopySpec(State());
      var elem := if selectedElement.Some? then Find(pages[currentPage], selectedElement.value) else None;
      if elem.Some? {
        copiedElement := elem;
      }
    }

    method HandlePaste()
      requires Valid()
      modifies this
      ensures Valid() && State() == Paste(old(State()))
    {
      if copiedElement.Some? {
        ghost var s0 := State();
        var c := copiedElement.value;
        var elements := pages[currentPage];
        var z := NextZ(elements);
        var id := NewId();
        var newElement := c.(id := id, x := c.x + PasteOffset, y := c.y + PasteOffset, zIndex := z);
        PasteStep(s0, newElement);
        SetElements(elements + [newElement]);
        selectedElement := Some(id);
      }
    }

    method HandleElementMouseDown(element: CanvasElement, offsetX: real, offsetY: real)
      requires Valid()
      modifies this
      ensures Valid() && State() == ElementMouseDown(old(State()), element, offsetX, offsetY)
    {
      selectedElement := Some(element.id);
      isDragging := true;
      draggedElement := Some(element);
      dragOffset := Offset(offsetX, offsetY);
    }

    method HandleMouseMove(pointerX: real, pointerY: real)
      requires Valid()
      modifies this
      ensures Valid() && State() == MouseMove(old(State()), pointerX, pointerY)
    {
      MouseMoveSpec(State(), pointerX, pointerY);
      if !isDragging || draggedElement.None? {
        return;
      }
      var newX := pointerX - dragOffset.x;
      var newY := pointerY - dragOffset.y;
      if snapToGrid {
        newX := SnapToGrid(newX);
        newY := SnapToGrid(newY);
      }
      var elements := pages[currentPage];
      var id := draggedElement.value.id;
      UpdateElementKeepsIds(elements, id, MoveTo(Clamp0(newX), Clamp0(newY)), nextId);
      SetElements(UpdateElement(elements, id, MoveTo(Clamp0(newX), Clamp0(newY))));
    }

    method HandleMouseUp()
      requires Valid()
      modifies this
      ensures Valid() && State() == MouseUp(old(State()))
    {
      isDragging := false;
      draggedElement := None;
    }

    method HandleCanvasClick()
      requires Valid()
      modifies this
      ensures Valid() && State() == CanvasClick(old(State()))
    {
      selectedElement := None;
    }

    /** Returns whether the file chooser is opened. */
    method HandleElementDoubleClick(element: CanvasElement, promptResult: Option<string>) returns (openFilePicker: bool)
      requires Valid()
      modifies this
      ensures Valid() && State() == EditText(old(State()), element, promptResult)
      ensures openFilePicker == (element.elementType != TextBox && OpensFilePicker(element))
    {
      openFilePicker := false;
      if element.elementType == TextBox {
        if promptResult.Some? {
          var elements := pages[currentPage];
          UpdateElementKeepsIds(elements, element.id, SetContent(promptResult.value), nextId);
          SetElements(UpdateElement(elements, element.id, SetContent(promptResult.value)));
        }
      } else if element.elementType == Image && (element.imageUrl.None? || element.imageUrl.value == "") {
        openFilePicker := true;
      }
    }

    method HandleImageUpload(dataUrl: Option<string>)
      requires Valid()
      modifies this
      ensures Valid() && State() == ImageLoaded(old(State()), dataUrl)
    {
      if dataUrl.Some? && selectedElement.Some? {
        var elements := pages[currentPage];
        UpdateElementKeepsIds(elements, selectedElement.value, SetImage(dataUrl.value), nextId);
        SetElements(UpdateElement(elements, selectedElement.value, SetImage(dataUrl.value)));
      }
    }

    /** Shared body of the handlers that patch the selected element. */
    method PatchSelection(p: Patch)
      requires Valid()
      modifies this
      ensures Valid() && State() == PatchSelected(old(State()), p)
    {
      PatchSelectedSpec(State(), p);
      if selectedElement.None? {
        return;
      }
      var elements := pages[currentPage];
      UpdateElementKeepsIds(elements, selectedElement.value, p, nextId);
      SetElements(UpdateElement(elements, selectedElement.value, p));
    }

    method HandleBringToFront()
      requires Valid()
      modifies this
      ensures Valid() && State() == BringToFront(old(State()))
    {
      var maxZ := NextZ(pages[currentPage]) - 1;
      PatchSelection(SetZ(maxZ + 1));
    }

    method HandleSendToBack()
      requires Valid()
      modifies this
      ensures Valid() && State() == SendToBack(old(State()))
    {
      var minZ := PrevZ(pages[currentPage]) + 1;
      PatchSelection(SetZ(minZ - 1));
    }

    method HandleAlignLeft()
      requires Valid()
      modifies this
      ensures Valid() && State() == AlignToLeft(old(State()))
    {
      PatchSelection(SetX(0.0));
    }

    method HandleAlignCenter()
      requires Valid()
      modifies this
      ensures Valid() && State() == AlignToCenter(old(State()))
    {
      if selectedElement.None? {
        return;
      }
      var elem := Find(pages[currentPage], selectedElement.value);
      if elem.Some? {
        PatchSelection(SetX((CanvasWidth - elem.value.width) / 2.0));
      }
    }

    method HandleAlignRight()
      requires Valid()
      modifies this
      ensures Valid() && State() == AlignToRight(old(State()))
    {
      if selectedElement.None? {
        return;
      }
      var elem := Find(pages[currentPage], selectedElement.value);
      if elem.Some? {
        PatchSelection(SetX(CanvasWidth - elem.value.width));
      }
    }

    method HandleAddPage()
      requires Valid()
      modifies this
      ensures Valid() && State() == AddPage(old(State()))
    {
      AddPageSpec(State());
      currentPage := |pages|;
      pages := pages + [[]];
    }

    method HandleDeletePage()
      requires Valid()
      modifies this
      ensures Valid() && State() == DeletePage(old(State()))
    {
      DeletePageSpec(State());
      if |pages| <= 1 {
        return;
      }
      pages := Seqs.RemoveAt(pages, currentPage);
      currentPage := if currentPage == 0 then 0 else currentPage - 1;
    }

    method HandleSelectPage(index: nat)
      requires Valid() && index < |pages|
      modifies this
      ensures Valid() && State() == SelectPage(old(State()), index)
    {
      currentPage := index;
    }

    method HandleSnapToggle(on: bool)
      requires Valid()
      modifies this
      ensures Valid() && State() == old(State()).(snapToGrid := on)
    {
      snapToGrid := on;
    }

    method HandleDeleteElement()
      requires Valid()
      modifies this
      ensures Valid() && State() == DeleteElement(old(State()))
    {
      DeleteElementSpec(State());
      if selectedElement.Some? {
        var elements := pages[currentPage];
        RemoveIdKeepsIds(elements, selectedElement.value, nextId);
        SetElements(RemoveId(elements, selectedElement.value));
        selectedElement := None;
      }
    }

    method HandleStyleChange(c: StyleChange)
      requires Valid()
      modifies this
      ensures Valid() && State() == ChangeStyle(old(State()), c)
    {
      PatchSelection(Restyle(c));
    }

    method HandleGeometryInput(f: GeometryField, v: real)
      requires Valid()
      modifies this
      ensures Valid() && State() == GeometryInput(old(State()), f, v)
    {
      var elements := pages[currentPage];
      if selectedElement.Some? {
        UpdateElementKeepsIds(elements, selectedElement.value, GeometryPatch(f, v), nextId);
        SetElements(UpdateElement(elements, selectedElement.value, GeometryPatch(f, v)));
      } else {
        SetElements(elements);
      }
    }

    /** Returns whether the keystroke was claimed (`preventDefault`). */
    method HandleKeyDown(key: string, ctrlOrMeta: bool, shift: bool) returns (prevented: bool)
      requires Valid()
      modifies this
      ensures Valid() && State() == KeyDown(old(State()), key, ctrlOrMeta, shift)
      ensures prevented == (KeyCommand(key, ctrlOrMeta, shift, old(selectedElement).Some?, old(copiedElement).Some?) != NoKey)
    {
      prevented := true;
      if ctrlOrMeta {
        if key == "z" && !shift {
          HandleUndo();
        } else if (key == "z" && shift) || key == "y" {
          HandleRedo();
        } else if key == "c" && selectedElement.Some? {
          HandleCopy();
        } else if key == "v" && copiedElement.Some? {
          HandlePaste();
        } else {
          prevented := false;
        }
      } else if key == "Delete" && selectedElement.Some? {
        HandleDeleteElement();
      } else {
        prevented := false;
      }
    }

    /** The order the current page is painted in. */
    method SortedElements() returns (sorted: seq<CanvasElement>)
      requires Valid()
      ensures sorted == RenderOrder(pages[currentPage])
      ensures SortedByZ(sorted) && multiset(sorted) == multiset(pages[currentPage])
    {
      sorted := RenderOrder(pages[currentPage]);
    }
  }
}
