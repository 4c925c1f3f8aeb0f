# Order dashboard editors: a verified model

This project models the interactive core of an order-management dashboard written as React components. It covers five of them:

- the canvas **template editor**: pages of positioned elements, a shared undo/redo history, a clipboard, dragging with grid snapping, a z-order, alignment tools, style and geometry panels, and keyboard shortcuts;
- the **drag-and-drop order list**, which reorders orders by priority when one is dropped on another;
- the **order-processing modal**, which walks an order through e-mail check, quotation or invoice, e-mail draft and success, logging each step;
- the **workflow builder**, which creates, moves, configures and deletes blocks taken from a four-entry palette;
- the **text template editor**, with its template body, variables, `{{name}}` placeholders, field names formatted for display and comma-separated dropdown options.

## How the model is organised

Each component's state is a datatype, with one pure function per event handler. Lemmas state what the handlers promise about that state.

Components whose handlers reassign their fields also get a `class` with the same fields as mutable variables. Each method is proved to perform the same transition as its pure function: `ensures State() == Undo(old(State()))`, for example.

The modules are:

- `Wrappers`: `Option`.
- `Seqs`: filtering, removing at an index and inserting at an index, with their lemmas.
- `Canvas`: element data and the per-element transforms.
- `Editor`: the canvas editor's state machine and its class.
- `Orders`, `Processing`, `Workflow` and `TextTemplate`: the other four components.

Behaviour worth knowing, all of it modelled as the source does it:

- **One history for all pages.** The canvas editor has a single history track. Undo and redo write a snapshot into whichever page is current. Adding or deleting a page leaves the history alone.
- **Frequent snapshots.** Every recorded edit appends one snapshot. That includes every pointer move of a drag and every keystroke in a geometry field.
- **No clamping of panel values.** Widths and coordinates typed into the panel, and the x values the alignment tools compute, are not clamped.
- **Selection outlives a page change.** Changing page keeps the selection.
- **Fresh ids.** Element, block and variable ids are built from `Date.now()` in the source. Here they come from a counter that stands for it, and is assumed to give a new value at every call. The source's string ids (`elem_…`, `block_…`, `var_…`) are modelled as that number.
- **Missing dragged order.** When the dragged order is no longer in the list, `findIndex` gives -1. `splice(-1, 1)` then removes the LAST order, which is moved to the drop target.
- **Empty string counts as nothing dragged.** `!draggedItem` treats the empty id like no id.
- **Stored log misses its last line.** Completing the e-mail draft stores the processed details from the log as it was before that completion. The stored steps therefore miss the final "Email sent with attachment" line.
- **Untyped orders stay at the e-mail check.** An order without a type never leaves the e-mail check step.

## Model

| member | source | states |
|---|---|---|
| Canvas.ApplyStyleOverwritesOneField | src/components/DragDropTemplateEditor-Complete.tsx:330-338 | a style change sets exactly the named style field to the given value; every other style field reads as before |
| Canvas.UpdateElementChangesOnlyTarget | src/components/DragDropTemplateEditor-Complete.tsx:751-778 | an element update keeps length, order and ids, patches every element with the id, leaves every other element unchanged, and leaves a list without the id unchanged |
| Canvas.RemoveIdSpec | src/components/DragDropTemplateEditor-Complete.tsx:323-328 | after removing an id no element carries it; an element survives exactly when it was present with another id; a list without the id is unchanged; with unique ids exactly the one index is removed, the rest in their order |
| Canvas.Find | src/components/DragDropTemplateEditor-Complete.tsx:179-182 | the lookup fails exactly when no element has the id; otherwise it gives an element of the page with that id, and no earlier element has the id |
| Canvas.AppendFreshKeepsUnique | src/components/DragDropTemplateEditor-Complete.tsx:94-124 | appending an element whose id is at least the id counter keeps ids unique, and no element had that id |
| Canvas.MaxZ | src/components/DragDropTemplateEditor-Complete.tsx:264-270 | on a non-empty page the result is at least every zIndex and equals one of them |
| Canvas.MinZ | src/components/DragDropTemplateEditor-Complete.tsx:272-278 | on a non-empty page the result is at most every zIndex and equals one of them |
| Canvas.NextZ | src/components/DragDropTemplateEditor-Complete.tsx:97-107 | the new top zIndex is above every element's; it is 1 on an empty page, and one above some element's otherwise |
| Canvas.PrevZ | src/components/DragDropTemplateEditor-Complete.tsx:272-278 | the new bottom zIndex is below every element's, and one below some element's on a non-empty page |
| Canvas.PasteZAsWrittenDiffersOnlyOnEmptyPage | src/components/DragDropTemplateEditor-Complete.tsx:191 | the paste rule as written agrees with the add-from-palette rule on every non-empty page; it gives minus infinity exactly on an empty page, where the corrected rule gives 1 |
| Canvas.Round | src/components/DragDropTemplateEditor-Complete.tsx:219-222 | `Math.round` gives the integer within half a unit, halves rounded up |
| Canvas.DragCoordinateSpec | src/components/DragDropTemplateEditor-Complete.tsx:211-229 | a dragged coordinate is never negative. With snapping on, it is a grid multiple within half a cell of the pointer value, or 0 for pointer values left of or above the canvas by more than half a cell. With snapping off, it is the pointer value clamped at 0 |
| Canvas.DragCoordinateExamples | src/components/DragDropTemplateEditor-Complete.tsx:211-229 | snapping happens before clamping: 15 snaps to 20, 14 to 10, and -12 becomes 0 |
| Canvas.InsertByZ | src/components/DragDropTemplateEditor-Complete.tsx:408 | inserting into a list sorted by zIndex keeps it sorted and adds exactly the one element (as a multiset) |
| Canvas.RenderOrder | src/components/DragDropTemplateEditor-Complete.tsx:408 | the paint order is a permutation of the page, sorted by zIndex |
| Canvas.RenderOrderStable | src/components/DragDropTemplateEditor-Complete.tsx:408 | the sort is stable: the elements of each layer appear in the paint order as they do on the page |
| Editor.InitialSpec | src/components/DragDropTemplateEditor-Complete.tsx:44-58 | the mounted editor satisfies the invariant, its page is in sync with the single history entry, there is nothing to undo or redo, and no template means one empty page |
| Editor.RecordSpec | src/components/DragDropTemplateEditor-Complete.tsx:65-82 | recording keeps the history up to the current entry and appends exactly one snapshot, which becomes current; redo is then impossible and undo possible; only the current page changes; with fresh ids it keeps the invariant and the sync |
| Editor.UndoSpec | src/components/DragDropTemplateEditor-Complete.tsx:127-137 | undo does nothing on the first entry. Otherwise the index moves one back, the history is untouched, the current page shows the earlier snapshot and is in sync, redo becomes possible, and other pages are unchanged |
| Editor.RedoSpec | src/components/DragDropTemplateEditor-Complete.tsx:139-149 | the mirror image of undo, on the last entry and one step forward |
| Editor.UndoThenRedo | src/components/DragDropTemplateEditor-Complete.tsx:127-149 | undo then redo restores the index and the current snapshot, and the whole state when the page was in sync |
| Editor.RedoThenUndo | src/components/DragDropTemplateEditor-Complete.tsx:127-149 | redo then undo restores the index and the current snapshot, and the whole state when the page was in sync |
| Editor.EditAfterUndoDiscardsRedo | src/components/DragDropTemplateEditor-Complete.tsx:75-81 | the history does not branch: for every state that can undo, an undo followed by a new edit leaves the entries before the old index followed by the edit, back at the old index, with the edit on the page and nothing to redo |
| Editor.EditAfterUndoExample | src/components/DragDropTemplateEditor-Complete.tsx:75-81 | with entries [a, b, c] at index 2, an undo and an edit d leave [a, b, d] |
| Editor.RecordsThenUndosRestorePage | src/components/DragDropTemplateEditor-Complete.tsx:65-82 | recording any number of edits from a synced state and undoing as many times gives the page back, at the original history index |
| Editor.AddFromPaletteSpec | src/components/DragDropTemplateEditor-Complete.tsx:94-124 | adding from the palette appends exactly one element, keeping the others. The new element has an unused id and the zIndex one above the page's top (the maximum plus one, or 1 on an empty page), so above all others; it sits at (50, 50) and has the size of its kind (200×100 text, 150×5 line, 100×100 otherwise). The selection is kept and one snapshot is recorded |
| Editor.CopySpec | src/components/DragDropTemplateEditor-Complete.tsx:179-182 | when the selected element is on the page, the clipboard holds the first element of the page with that id, as `find` returns it; otherwise nothing changes; nothing but the clipboard ever changes |
| Editor.PasteSpec | src/components/DragDropTemplateEditor-Complete.tsx:184-196 | a paste appends one copy of the clipboard element with a new id, moved by (+20, +20), with the zIndex one above the page's top (1 on an empty page, the corrected rule of the finding); it selects the copy, keeps the clipboard and records one snapshot; without a clipboard nothing changes |
| Editor.RepeatedPasteSameGeometry | src/components/DragDropTemplateEditor-Complete.tsx:184-196 | two pastes of one copy give two elements at the same position with different ids |
| Editor.MouseMoveSpec | src/components/DragDropTemplateEditor-Complete.tsx:211-229 | a move outside a drag changes nothing. During a drag only x and y of the elements with the dragged id change, each to the drag coordinate of the pointer minus the grab offset (snapped when snapping is on, then clamped at 0), so both end non-negative and on grid lines when snapping is on. Exactly one snapshot is appended and nothing outside the current page changes |
| Editor.MouseUpEndsDrag | src/components/DragDropTemplateEditor-Complete.tsx:231-234 | mouse-up ends the drag and changes no page and no history; a move after it changes nothing |
| Editor.ElementClickAsWrittenLosesSelection | src/components/DragDropTemplateEditor-Complete.tsx:638-676 | as written, pressing and releasing on an element leaves nothing selected, because the click bubbles to the canvas' handler; that differs from the intended click |
| Editor.ElementClickSelects | src/components/DragDropTemplateEditor-Complete.tsx:198-234 | the intended click selects the element, ends the drag and changes no page, history, clipboard or counter; it is what the events of a press followed by a release do |
| Editor.PatchSelectedSpec | src/components/DragDropTemplateEditor-Complete.tsx:330-338 | without a selection nothing changes; otherwise exactly the elements with the selected id are patched, one snapshot is recorded, and nothing outside the current page changes |
| Editor.BringToFrontSpec | src/components/DragDropTemplateEditor-Complete.tsx:264-270 | the elements with the selected id alone change, only in their zIndex, which becomes the page's maximum plus one, strictly above every element of the page; one snapshot is recorded and the other pages, the selection, the clipboard and the counter are kept |
| Editor.SendToBackSpec | src/components/DragDropTemplateEditor-Complete.tsx:272-278 | the elements with the selected id alone change, only in their zIndex, which becomes the page's minimum minus one, strictly below every element of the page; one snapshot is recorded and the other pages, the selection, the clipboard and the counter are kept |
| Editor.AlignLeftSpec | src/components/DragDropTemplateEditor-Complete.tsx:281-286 | only x of the elements with the selected id changes, to 0; a snapshot is recorded even when the selected element is not on the page; nothing outside the current page changes |
| Editor.AlignCenterSpec | src/components/DragDropTemplateEditor-Complete.tsx:288-297 | when the selected element is on the page, only x of the elements with its id changes, to (800 − width) / 2 with the width of the first such element, and one snapshot is recorded; nothing outside the current page changes; nothing happens when it is not on the page |
| Editor.AlignCenterOwnWidth | src/components/DragDropTemplateEditor-Complete.tsx:288-297 | with unique ids the selected element's x becomes (800 − its own width) / 2 |
| Editor.AlignRightSpec | src/components/DragDropTemplateEditor-Complete.tsx:299-308 | when the selected element is on the page, only x of the elements with its id changes, to 800 − width with the width of the first such element, and one snapshot is recorded; nothing outside the current page changes; nothing happens when it is not on the page |
| Editor.AlignRightOwnWidth | src/components/DragDropTemplateEditor-Complete.tsx:299-308 | with unique ids the selected element's x becomes 800 − its own width |
| Editor.AddPageSpec | src/components/DragDropTemplateEditor-Complete.tsx:311-314 | an empty page is appended and becomes current; history and selection are kept |
| Editor.DeletePageSpec | src/components/DragDropTemplateEditor-Complete.tsx:316-321 | deleting is refused on the last page; otherwise exactly the current page goes, the one before it (or page 0) becomes current, history and selection are kept, and at least one page remains |
| Editor.UndoOnNewPageWritesOtherPagesSnapshot | src/components/DragDropTemplateEditor-Complete.tsx:127-137 | with one shared history, undo right after adding a page fills the new page with the previous snapshot of the other page |
| Editor.DeleteElementSpec | src/components/DragDropTemplateEditor-Complete.tsx:323-328 | no element with the selected id remains; the others are kept, and with unique ids they keep their order with just the one index removed; the selection is cleared |
| Editor.StyleChangeSpec | src/components/DragDropTemplateEditor-Complete.tsx:330-338 | a style change sets the named style field of the selected element and changes nothing else of it or of any other element; one snapshot is recorded and the other pages, the selection and the clipboard are kept |
| Editor.KeyDownSpec | src/components/DragDropTemplateEditor-Complete.tsx:152-176 | Ctrl/Cmd+Z undoes; Ctrl/Cmd+Shift+Z and Ctrl/Cmd+Y redo; Ctrl/Cmd+C copies; Ctrl/Cmd+V pastes; Delete without a modifier deletes; every other key changes nothing |
| Editor.KeyDownPreservesInv | src/components/DragDropTemplateEditor-Complete.tsx:152-176 | every keystroke keeps the invariant and never moves the id counter back |
| Editor.StepPreservesInv | src/components/DragDropTemplateEditor-Complete.tsx:44-58 | every user event keeps the invariant (current page and history entry exist, all ids below the counter) and never moves the counter back |
| Editor.RunFromInitial | src/components/DragDropTemplateEditor-Complete.tsx:44-58 | after any run of events from mount, a page exists, and the current page and the history index are in range |
| Editor.StepPreservesUniqueIds | src/components/DragDropTemplateEditor-Complete.tsx:94-124 | when ids are unique on every page and in every snapshot, every event keeps them so |
| Editor.TemplateEditor.constructor | src/components/DragDropTemplateEditor-Complete.tsx:44-58 | the fields start as the initial state |
| Editor.TemplateEditor.SetElements | src/components/DragDropTemplateEditor-Complete.tsx:65-82 | performs the recording transition |
| Editor.TemplateEditor.HandleDragFromSidebar | src/components/DragDropTemplateEditor-Complete.tsx:94-124 | performs AddFromPalette and keeps the invariant |
| Editor.TemplateEditor.HandleUndo | src/components/DragDropTemplateEditor-Complete.tsx:127-137 | performs Undo and keeps the invariant |
| Editor.TemplateEditor.HandleRedo | src/components/DragDropTemplateEditor-Complete.tsx:139-149 | performs Redo and keeps the invariant |
| Editor.TemplateEditor.HandleCopy | src/components/DragDropTemplateEditor-Complete.tsx:179-182 | performs Copy and keeps the invariant |
| Editor.TemplateEditor.HandlePaste | src/components/DragDropTemplateEditor-Complete.tsx:184-196 | performs Paste and keeps the invariant |
| Editor.TemplateEditor.HandleElementMouseDown | src/components/DragDropTemplateEditor-Complete.tsx:198-209 | selects the element and starts dragging it from the given grab offset |
| Editor.TemplateEditor.HandleMouseMove | src/components/DragDropTemplateEditor-Complete.tsx:211-229 | performs MouseMove and keeps the invariant |
| Editor.TemplateEditor.HandleMouseUp | src/components/DragDropTemplateEditor-Complete.tsx:231-234 | performs MouseUp |
| Editor.TemplateEditor.HandleCanvasClick | src/components/DragDropTemplateEditor-Complete.tsx:638 | clears the selection and nothing else |
| Editor.TemplateEditor.HandleElementDoubleClick | src/components/DragDropTemplateEditor-Complete.tsx:236-247 | a confirmed prompt on a text box sets its content; it reports opening the file chooser exactly for an image without a picture |
| Editor.TemplateEditor.HandleImageUpload | src/components/DragDropTemplateEditor-Complete.tsx:249-261 | a loaded file becomes the selected element's picture |
| Editor.TemplateEditor.HandleBringToFront | src/components/DragDropTemplateEditor-Complete.tsx:264-270 | performs BringToFront |
| Editor.TemplateEditor.HandleSendToBack | src/components/DragDropTemplateEditor-Complete.tsx:272-278 | performs SendToBack |
| Editor.TemplateEditor.HandleAlignLeft | src/components/DragDropTemplateEditor-Complete.tsx:281-286 | performs AlignToLeft |
| Editor.TemplateEditor.HandleAlignCenter | src/components/DragDropTemplateEditor-Complete.tsx:288-297 | performs AlignToCenter |
| Editor.TemplateEditor.HandleAlignRight | src/components/DragDropTemplateEditor-Complete.tsx:299-308 | performs AlignToRight |
| Editor.TemplateEditor.HandleAddPage | src/components/DragDropTemplateEditor-Complete.tsx:311-314 | performs AddPage |
| Editor.TemplateEditor.HandleDeletePage | src/components/DragDropTemplateEditor-Complete.tsx:316-321 | performs DeletePage |
| Editor.TemplateEditor.HandleSelectPage | src/components/DragDropTemplateEditor-Complete.tsx:583 | a page tab click makes that page current and changes nothing else |
| Editor.TemplateEditor.HandleSnapToggle | src/components/DragDropTemplateEditor-Complete.tsx:534 | sets the snapping flag and changes nothing else |
| Editor.TemplateEditor.HandleDeleteElement | src/components/DragDropTemplateEditor-Complete.tsx:323-328 | performs DeleteElement |
| Editor.TemplateEditor.HandleStyleChange | src/components/DragDropTemplateEditor-Complete.tsx:330-338 | performs ChangeStyle |
| Editor.TemplateEditor.HandleGeometryInput | src/components/DragDropTemplateEditor-Complete.tsx:751-778 | a keystroke in a position or size field sets that field of the selected element, unclamped, and records a snapshot |
| Editor.TemplateEditor.HandleKeyDown | src/components/DragDropTemplateEditor-Complete.tsx:152-176 | performs KeyDown; the default action is prevented exactly when a shortcut applies |
| Editor.TemplateEditor.SortedElements | src/components/DragDropTemplateEditor-Complete.tsx:408 | the current page in paint order: sorted by zIndex and a permutation of the page |
| Orders.FindIndex | src/components/DragDropOrders.tsx:44-45 | the result is -1 exactly when no order has the id; otherwise it is the first index with it |
| Orders.MovedSpec | src/components/DragDropOrders.tsx:47-49 | moving an order gives a permutation of the list with the moved order at the target index; taking it out again gives the list without it; moving to its own index changes nothing |
| Orders.MovedShifts | src/components/DragDropOrders.tsx:47-49 | orders outside the two indices stay put; those in between shift by one place towards the vacated index |
| Orders.DragDropOrders.constructor | src/components/DragDropOrders.tsx:20-21 | nothing dragged, nothing hovered |
| Orders.DragDropOrders.HandleDragStart | src/components/DragDropOrders.tsx:23-26 | the dragged id is set; the hovered id is kept |
| Orders.DragDropOrders.HandleDragOver | src/components/DragDropOrders.tsx:33-37 | the hovered id is set; the dragged id is kept |
| Orders.DragDropOrders.HandleDragEnd | src/components/DragDropOrders.tsx:28-31 | both ids are cleared |
| Orders.DragDropOrders.HandleDrop | src/components/DragDropOrders.tsx:39-52 | no reorder exactly when nothing (or the empty id) is dragged, or an order is dropped on itself. Otherwise the result is the list with the dragged order moved to the target's index. The dragged order is found by its first index, or is the last order when its id is absent |
| Orders.DropOfPresentOrder | src/components/DragDropOrders.tsx:39-52 | dropping a listed order on another gives the same orders, the dragged one at the target's index, and the others in their relative order |
| Orders.DropOfAbsentOrderMovesLast | src/components/DragDropOrders.tsx:44-48 | when the dragged id is not in the list, the last order is the one moved to the target's index |
| Processing.SuccessReportsProcessedOrder | src/components/OrderProcessingModal.tsx:73-89 | whatever run reaches the success step, finishing reports the order with its processed status, its other fields as given and the log without its last line as details, then closes |
| Processing.EmailCheckSpec | src/components/OrderProcessingModal.tsx:50-58 | one log line is appended, which line depending on the custom e-mail. Enquiries go to the quotation, purchase orders to the invoice, and untyped orders stay put. The working copy is unchanged |
| Processing.DocumentStepSpec | src/components/OrderProcessingModal.tsx:60-68 | each document step appends its line and moves to the e-mail draft, with the working copy unchanged |
| Processing.EmailDraftSpec | src/components/OrderProcessingModal.tsx:70-84 | the draft step appends the last line and moves to success. The working copy changes only in status (quotations for an enquiry, invoices otherwise) and in details, whose steps are the log without that last line |
| Processing.CompleteAppends | src/components/OrderProcessingModal.tsx:110-154 | a completion only appends to the log, and appends one line exactly when its component is rendered and records a step |
| Processing.CompleteAllAppends | src/components/OrderProcessingModal.tsx:110-154 | over any run the log keeps its prefix and grows by at most one line per completion |
| Processing.InitialConsistent | src/components/OrderProcessingModal.tsx:42-48 | the mounted modal is consistent |
| Processing.CompleteAllConsistent | src/components/OrderProcessingModal.tsx:110-154 | every run keeps it consistent: the quotation step only for an enquiry, the invoice step only for a purchase order, a working copy that differs from the order only in status and details, and at success the processed status and the details hold |
| Processing.UntypedOrderStaysAtEmailCheck | src/components/OrderProcessingModal.tsx:50-58 | an order without a type never leaves the e-mail check |
| Processing.EnquiryFlow | src/components/OrderProcessingModal.tsx:42-89 | a new enquiry goes through check, quotation and draft to success with three log lines; it ends with status quotations and the first two lines stored, and finishing reports it and closes |
| Processing.PurchaseOrderFlow | src/components/OrderProcessingModal.tsx:42-89 | the same for a purchase order, through the invoice step, ending with status invoices |
| Processing.OrderProcessingModal.constructor | src/components/OrderProcessingModal.tsx:37-48 | mounting sets the step the status selects, the working copy to the order and an empty log |
| Processing.OrderProcessingModal.HandleEmailCheckComplete | src/components/OrderProcessingModal.tsx:50-58 | performs EmailCheckComplete |
| Processing.OrderProcessingModal.HandleQuotationComplete | src/components/OrderProcessingModal.tsx:60-63 | performs QuotationComplete |
| Processing.OrderProcessingModal.HandleInvoiceComplete | src/components/OrderProcessingModal.tsx:65-68 | performs InvoiceComplete |
| Processing.OrderProcessingModal.HandleEmailDraftComplete | src/components/OrderProcessingModal.tsx:70-84 | performs EmailDraftComplete |
| Processing.OrderProcessingModal.HandleSuccess | src/components/OrderProcessingModal.tsx:86-89 | calls the processed callback with the working copy, then the close callback |
| Workflow.FindKind | src/components/WorkflowBuilder.tsx:85 | the lookup fails exactly when no palette entry has the type; otherwise it gives the first entry with it |
| Workflow.KnownBlockLookups | src/components/WorkflowBuilder.tsx:84-90 | the four palette types get their own icon and colour |
| Workflow.PaletteLookups | src/components/WorkflowBuilder.tsx:23-28 | every palette entry is what the icon and colour lookups give for its type |
| Workflow.UnknownBlockLookup | src/components/WorkflowBuilder.tsx:84-90 | any other type gets the package icon and grey |
| Workflow.MoveBlock | src/components/WorkflowBuilder.tsx:53-57 | a move keeps the number of blocks |
| Workflow.MoveBlockSpec | src/components/WorkflowBuilder.tsx:53-57 | only x and y of the blocks with the id change, to the given point; without the id nothing changes |
| Workflow.DeleteBlockSpec | src/components/WorkflowBuilder.tsx:59-62 | no block with the id remains; a block survives exactly when it was present with another id; with unique ids exactly the one index goes, the others in their order |
| Workflow.ConfigureBlock | src/components/WorkflowBuilder.tsx:64-70 | a configuration update keeps the number of blocks |
| Workflow.ConfigureBlockSpec | src/components/WorkflowBuilder.tsx:64-70 | without a selection nothing changes; otherwise exactly the blocks with the selected id get the new config |
| Workflow.EditConfigField | src/components/WorkflowBuilder.tsx:293-388 | typing into one field of the config panel sets that key of the selected block's config to the value; with unique ids every other key keeps its value; other blocks and every other attribute are kept |
| Workflow.FindBlock | src/components/WorkflowBuilder.tsx:92 | the lookup fails exactly when no block has the id; otherwise it gives the first block with it |
| Workflow.WorkflowBuilder.constructor | src/components/WorkflowBuilder.tsx:18-21 | name and blocks from the initial workflow, or empty; nothing selected or dragged |
| Workflow.WorkflowBuilder.HandleDragStart | src/components/WorkflowBuilder.tsx:30-39 | a pending block of the type with a fresh id, at (0, 0), with an empty config; blocks, selection and name are kept |
| Workflow.WorkflowBuilder.HandleDrop | src/components/WorkflowBuilder.tsx:41-51 | a pending block is appended at the drop point and cleared; without one nothing changes |
| Workflow.WorkflowBuilder.HandleBlockMove | src/components/WorkflowBuilder.tsx:53-57 | the blocks become MoveBlock of the old blocks; everything else is kept |
| Workflow.WorkflowBuilder.HandleBlockDelete | src/components/WorkflowBuilder.tsx:59-62 | the blocks become DeleteBlock of the old blocks; the selection is cleared exactly when it was the deleted id |
| Workflow.WorkflowBuilder.HandleBlockConfigUpdate | src/components/WorkflowBuilder.tsx:64-70 | the blocks become ConfigureBlock of the old blocks with the selection; everything else is kept |
| Workflow.WorkflowBuilder.SetWorkflowName | src/components/WorkflowBuilder.tsx:104 | sets the name and nothing else |
| Workflow.WorkflowBuilder.SelectBlock | src/components/WorkflowBuilder.tsx:197 | selects the clicked block and changes nothing else |
| Workflow.WorkflowBuilder.SelectedBlockData | src/components/WorkflowBuilder.tsx:92 | the panel shows the first block of the canvas with the selected id, as `find` returns it, and shows none exactly when nothing is selected or no block has that id |
| TextTemplate.Split | src/components/TemplateEditor.tsx:94 | a split gives at least one piece, and no piece contains the separator |
| TextTemplate.JoinSplit | src/components/TemplateEditor.tsx:94-96 | joining the pieces of a split with the separator gives the text back |
| TextTemplate.SplitJoin | src/components/TemplateEditor.tsx:94-96 | splitting a join of at least one separator-free piece gives the pieces back |
| TextTemplate.SplitCount | src/components/TemplateEditor.tsx:94 | a split gives one more piece than there are separators |
| TextTemplate.UpperCase | src/components/TemplateEditor.tsx:95 | upper-casing maps a space to a space and nothing else to a space |
| TextTemplate.Capitalize | src/components/TemplateEditor.tsx:95 | capitalizing keeps the length, upper-cases the first character, keeps the rest, and puts spaces where the word had them |
| TextTemplate.FormatFieldNameSpec | src/components/TemplateEditor.tsx:93-97 | for a name without spaces, the formatted name splits at spaces into exactly the capitalized pieces of the name. It has one more word than the name has underscores, each word as long as its piece |
| TextTemplate.FormatFieldNameExample | src/components/TemplateEditor.tsx:93-97 | `company_name` is shown as `Company Name` |
| TextTemplate.LeadingSpaces | src/components/TemplateEditor.tsx:398 | the length of the longest prefix made of white space |
| TextTemplate.TrailingSpaces | src/components/TemplateEditor.tsx:398 | the length of the longest suffix made of white space |
| TextTemplate.TrimSpec | src/components/TemplateEditor.tsx:398 | trimming keeps a contiguous part of the text and drops only white space on either side; the result neither starts nor ends with white space |
| TextTemplate.TrimIdempotent | src/components/TemplateEditor.tsx:398 | trimming twice is trimming once |
| TextTemplate.TrimOfTrimmed | src/components/TemplateEditor.tsx:398 | a text without white space at either end is its own trim |
| TextTemplate.TrimAllSpace | src/components/TemplateEditor.tsx:398 | a text of white space only trims to the empty text |
| TextTemplate.TrimExamples | src/components/TemplateEditor.tsx:398 | `"  Option 2 "` trims to `"Option 2"`, and blank texts trim to empty |
| TextTemplate.ParseOptionsOfTyped | src/components/TemplateEditor.tsx:396-399 | options typed as the hint shows them, separated by ", ", parse back to exactly those options when none contains a comma or starts or ends with white space |
| TextTemplate.ParseOptionsSpec | src/components/TemplateEditor.tsx:396-399 | there is one more option than there are commas; no option contains a comma or starts or ends with white space |
| TextTemplate.FreshDraftAddsNothing | src/components/TemplateEditor.tsx:46-57 | the draft reset after an add has no name, so pressing "Add" again adds nothing |
| TextTemplate.PlaceholderNamesDistinct | src/components/TemplateEditor.tsx:61-63 | two names give the same placeholder exactly when they are equal |
| TextTemplate.DeleteVariableSpec | src/components/TemplateEditor.tsx:69-71 | no variable with the id remains; a variable survives exactly when it was present with another id; with unique ids exactly the one index goes; deleting distributes over concatenation |
| TextTemplate.NextVariableId | src/components/TemplateEditor.tsx:23 | the id counter starts above every id of the initial variables |
| TextTemplate.TemplateEditor.constructor | src/components/TemplateEditor.tsx:18-27 | name, content and variables from the initial template, or empty; modal closed; a fresh text-typed draft |
| TextTemplate.TemplateEditor.HandleAddVariable | src/components/TemplateEditor.tsx:46-59 | without a usable name nothing changes. Otherwise the draft's variable with a fresh id is appended, the draft is reset and the modal closes. Unique ids stay unique; content and name are kept |
| TextTemplate.TemplateEditor.HandleInsertVariable | src/components/TemplateEditor.tsx:61-63 | the placeholder is appended to the content, which keeps its old text as a prefix; everything else is kept |
| TextTemplate.TemplateEditor.HandleInsertCompanyInfo | src/components/TemplateEditor.tsx:65-67 | the value is appended to the content; everything else is kept |
| TextTemplate.TemplateEditor.HandleDeleteVariable | src/components/TemplateEditor.tsx:69-71 | the variables become DeleteVariable of the old ones; everything else is kept |
| TextTemplate.TemplateEditor.SetTemplateName | src/components/TemplateEditor.tsx:131 | sets the name and nothing else |
| TextTemplate.TemplateEditor.EditContent | src/components/TemplateEditor.tsx:316 | sets the content and nothing else |
| TextTemplate.TemplateEditor.OpenVariableModal | src/components/TemplateEditor.tsx:245 | opens the modal and changes nothing else |
| TextTemplate.TemplateEditor.CloseVariableModal | src/components/TemplateEditor.tsx:419 | closes the modal, keeping the draft, and changes nothing else |
| TextTemplate.TemplateEditor.SetDraftName | src/components/TemplateEditor.tsx:371 | sets the draft name and nothing else |
| TextTemplate.TemplateEditor.SetDraftType | src/components/TemplateEditor.tsx:381 | sets the draft type and nothing else |
| TextTemplate.TemplateEditor.SetDraftDefault | src/components/TemplateEditor.tsx:411 | sets the draft default value and nothing else |
| TextTemplate.TemplateEditor.SetDraftOptions | src/components/TemplateEditor.tsx:396-399 | the draft options become the parsed comma-separated input, and nothing else changes |

## Left out

- Saving (`handleSave` in the canvas editor, the workflow builder and the text template editor) is left out: it only packages the state with clock values for the save callback.
- Timestamps are left out: those of history snapshots and processed details are never read.
- The priority colour lookups of the order list are left out: they only choose CSS classes.
- The pointer and layout are parameters: `getBoundingClientRect` and the pointer coordinates are given as canvas coordinates and grab offsets, and the canvas element is assumed mounted.
- The text prompt and the file reader are parameters: the prompt's answer and the image's data URL are passed to the handlers.
- The company details the text template editor loads from `localStorage` are left out: they arrive as the `field`/`value` parameters of the insert handler.
- The text template editor's formatting toggles (font, size, bold, italic, alignment) and the template type selector are left out; so is the canvas editor's format selector. They are plain setters that no handler reads.
- React's asynchronous state updates are not modelled: each handler is atomic on the current state.
- The stale closure of the canvas editor's keydown listener is not modelled. The listener is re-registered only when the selection, the clipboard or the history index changes, so after a page switch alone the real listener acts on the page of its last registration. The model acts on the current page.
- An initial canvas template with zero pages is not modelled: the constructor requires at least one page.
- Editor.StepPreservesUniqueIds: does not include uniqueness in the invariant. The initial template's ids are not checked by the source, so uniqueness is stated as preserved when it holds, not as always holding.
- TextTemplate.UpperCase: upper-cases only the ASCII letters a–z, because JavaScript's full Unicode case mapping is not modelled.
- TextTemplate.Split: models `split` with a one-character separator only, which is how every call in these components uses it.
- Orders.DragDropOrders.HandleDrop: requires the drop target to be in the list, since a drop can only land on a rendered order.
- JavaScript numbers are modelled as exact numbers: coordinates and sizes are `real` and zIndex is `int`, taken to be a whole number in the initial template too. There is no NaN, no infinity and no floating-point rounding, so `(800 - width) / 2`, the snapping `Math.round(v / 10) * 10` and the paste offset `+ 20` are exact here. The one place the source produces an infinity is the first finding below.
- Editor.PasteSpec: states the corrected empty-page rule, zIndex 1, and not the source's `-Infinity`; the rule as written is stated by Canvas.PasteZAsWrittenDiffersOnlyOnEmptyPage.
- DOM click bubbling is not composed into the event runs: the canvas click event of `Editor.Step` stands for a click on the canvas background only. What the bubbled click does after a press on an element is the second finding below.
- Element, block and variable ids are numbers from a counter standing for `Date.now()`. Two ids made within one millisecond would clash in the source; the counter cannot produce that.

## Findings

| source | as written | input that shows it | evidently intended | confidence | as-written member | corrected member |
|---|---|---|---|---|---|---|
| src/components/DragDropTemplateEditor-Complete.tsx:191 | a pasted element's zIndex is `Math.max(...elements.map(e => e.zIndex)) + 1` | copy an element, switch to an empty page, paste: the maximum of no numbers is minus infinity, so the zIndex is `-Infinity` | the element goes on top, with zIndex 1 on an empty page, as adding from the palette does | not executed | Canvas.PasteZAsWrittenDiffersOnlyOnEmptyPage | Canvas.NextZ |
| src/components/DragDropTemplateEditor-Complete.tsx:638 | the canvas has `onClick={() => setSelectedElement(null)}`, and the element divs inside it have no click handler; `handleElementMouseDown` stops only the mouse-down | press and release on an element: the mouse-down selects it, then the click event bubbles to the canvas and clears the selection, so the properties panel and the copy, delete, layer, align and style tools never get a selection from a click | a click on an element keeps it selected; only a click on the canvas background clears the selection (for example by stopping the click's propagation on the element, or checking `e.target === e.currentTarget`) | not executed | Editor.ElementClickAsWrittenLosesSelection | Editor.ElementClickSelects |
