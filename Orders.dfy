/**
 * The drag-and-drop priority list of `DragDropOrders.tsx`.
 *
 * The component keeps two fields, the id being dragged and the id being hovered, and on a
 * drop hands a reordered copy of its `orders` prop to `onOrdersReorder`. The reordering
 * takes the dragged order out of a copy of the list and puts it back at the drop target's
 * index, with two `splice` calls; `SpliceStart` carries JavaScript's reading of their start
 * argument, which matters when the dragged id is no longer in the list (`findIndex` gives -1).
 */
module Orders {
  import opened Wrappers
  import Seqs

  datatype Priority = High | Medium | Low
  datatype OrderStatus = Unread | Pending | Completed

  datatype Order = Order(
    id: string,
    client: string,
    summary: string,
    time: string,
    priority: Priority,
    isUrgent: bool,
    status: OrderStatus)

  predicate HasOrder(orders: seq<Order>, id: string) {
    exists i :: 0 <= i < |orders| && orders[i].id == id
  }

  /** `orders.findIndex(order => order.id === id)`: the first index carrying `id`, or -1. */
  function FindIndex(orders: seq<Order>, id: string): (r: int)
    ensures -1 <= r < |orders|
    ensures r == -1 <==> !HasOrder(orders, id)
    ensures 0 <= r ==> orders[r].id == id && forall j :: 0 <= j < r ==> orders[j].id != id
  {
    if orders == [] then -1
    else if orders[0].id == id then 0
    else
      var r := FindIndex(orders[1..], id);
      assert forall j :: 1 <= j < |orders| ==> orders[j] == orders[1..][j - 1];
      if r == -1 then -1 else r + 1
  }

  /**
   * The index `splice(start, ...)` starts at on an array of `length` elements: a negative
   * start counts from the end, and the result is clamped to the array.
   */
  function SpliceStart(start: int, length: nat): (r: nat)
    ensures r <= length
    ensures 0 <= start <= length ==> r == start
    ensures start < 0 && 0 <= length + start ==> r == length + start
    ensures start + length < 0 ==> r == 0
    ensures start > length ==> r == length
  {
    if start < 0 then (if length + start < 0 then 0 else length + start)
    else if start > length then length
    else start
  }

  /** `!draggedItem`: no id, or the empty string, counts as nothing being dragged. */
  predicate NothingDragged(draggedItem: Option<string>) {
    draggedItem.None? || draggedItem.value == ""
  }

  /** The index the first `splice` removes from: the dragged order's index, -1 read from the end. */
  function RemovalIndex(orders: seq<Order>, dragged: string): nat {
    SpliceStart(FindIndex(orders, dragged), |orders|)
  }

  /** Order `d` taken out and put back at index `t`. */
  function Moved(orders: seq<Order>, d: nat, t: nat): seq<Order>
    requires d < |orders| && t < |orders|
  {
    Seqs.InsertAt(Seqs.RemoveAt(orders, d), t, orders[d])
  }

  /**
   * Moving an order keeps the same orders (a permutation, so also the same length), puts the
   * moved order at index `t`, and leaves every other order in its relative order: taking
   * index `t` out of the result gives the list with index `d` taken out.
   */
  lemma MovedSpec(orders: seq<Order>, d: nat, t: nat)
    requires d < |orders| && t < |orders|
    ensures |Moved(orders, d, t)| == |orders|
    ensures multiset(Moved(orders, d, t)) == multiset(orders)
    ensures Moved(orders, d, t)[t] == orders[d]
    ensures Seqs.RemoveAt(Moved(orders, d, t), t) == Seqs.RemoveAt(orders, d)
    ensures d == t ==> Moved(orders, d, t) == orders
  {
    Seqs.MoveIsPermutation(orders, d, t);
    Seqs.RemoveInserted(Seqs.RemoveAt(orders, d), t, orders[d]);
    if d == t {
      assert Moved(orders, d, t) == orders[..d] + [orders[d]] + orders[d + 1..];
      assert orders == orders[..d] + [orders[d]] + orders[d + 1..];
    }
  }

  /**
   * Moving forward shifts the orders between the two indices one place towards the front;
   * moving backward shifts them one place towards the back. The rest stay where they were.
   */
  lemma MovedShifts(orders: seq<Order>, d: nat, t: nat)
    requires d < |orders| && t < |orders|
    ensures forall i :: 0 <= i < |orders| && i < d && i < t ==> Moved(orders, d, t)[i] == orders[i]
    ensures forall i :: 0 <= i < |orders| && i > d && i > t ==> Moved(orders, d, t)[i] == orders[i]
    ensures d < t ==> forall i :: d <= i < t ==> Moved(orders, d, t)[i] == orders[i + 1]
    ensures t < d ==> forall i :: t < i <= d ==> Moved(orders, d, t)[i] == orders[i - 1]
  {
  }

  class DragDropOrders {
    var draggedItem: Option<string>
    var dragOverItem: Option<string>

    constructor ()
      ensures draggedItem == None && dragOverItem == None
    {
      draggedItem := None;
      dragOverItem := None;
    }

    method HandleDragStart(orderId: string)
      modifies this
      ensures draggedItem == Some(orderId) && dragOverItem == old(dragOverItem)
    {
      draggedItem := Some(orderId);
    }

    method HandleDragOver(orderId: string)
      modifies this
      ensures dragOverItem == Some(orderId) && draggedItem == old(draggedItem)
    {
      dragOverItem := Some(orderId);
    }

    method HandleDragEnd()
      modifies this
      ensures draggedItem == None && dragOverItem == None
    {
      draggedItem := None;
      dragOverItem := None;
    }

    /**
     * `handleDrop` on the order `dropTargetId`, which is one of the rendered orders. Returns
     * the list passed to `onOrdersReorder`, or `None` when the callback is not called.
     */
    method HandleDrop(orders: seq<Order>, dropTargetId: string) returns (reordered: Option<seq<Order>>)
      requires HasOrder(orders, dropTargetId)
      ensures reordered.None? <==> NothingDragged(draggedItem) || draggedItem == Some(dropTargetId)
      ensures reordered.Some? ==>
        var d, t := RemovalIndex(orders, draggedItem.value), FindIndex(orders, dropTargetId);
        && d < |orders| && 0 <= t
        && reordered.value == Moved(orders, d, t)
        && (HasOrder(orders, draggedItem.value) ==> d == FindIndex(orders, draggedItem.value))
        && (!HasOrder(orders, draggedItem.value) ==> d == |orders| - 1)
    {
      if draggedItem.None? || draggedItem.value == "" || draggedItem.value == dropTargetId {
        return None;
      }
      var draggedIndex := FindIndex(orders, draggedItem.value);
      var targetIndex := FindIndex(orders, dropTargetId);

      var newOrders := orders;
      var start := SpliceStart(draggedIndex, |newOrders|);
      var draggedOrder := newOrders[start];
      newOrders := newOrders[..start] + newOrders[start + 1..];
      var at := SpliceStart(targetIndex, |newOrders|);
      newOrders := newOrders[..at] + [draggedOrder] + newOrders[at..];
      reordered := Some(newOrders);
    }
  }

  /**
   * What a drop promises when an order present in the list is dropped on another one: the
   * new list has the same orders, the dragged order sits at the target's original index,
   * and all other orders keep their relative order.
   */
  lemma DropOfPresentOrder(orders: seq<Order>, dragged: string, dropTargetId: string)
    requires HasOrder(orders, dropTargetId) && HasOrder(orders, dragged) && dragged != dropTargetId
    ensures var d, t := FindIndex(orders, dragged), FindIndex(orders, dropTargetId);
      && 0 <= d && 0 <= t && d != t
      && RemovalIndex(orders, dragged) == d
      && multiset(Moved(orders, d, t)) == multiset(orders)
      && Moved(orders, d, t)[t].id == dragged
      && Seqs.RemoveAt(Moved(orders, d, t), t) == Seqs.RemoveAt(orders, d)
  {
    var d, t := FindIndex(orders, dragged), FindIndex(orders, dropTargetId);
    MovedSpec(orders, d, t);
  }

  /**
   * A drag that began in another list (its id is not in `orders`) moves the LAST order to the
   * target's index, because `findIndex` gives -1 and `splice(-1, 1)` removes the last element.
   */
  lemma DropOfAbsentOrderMovesLast(orders: seq<Order>, dragged: string, dropTargetId: string)
    requires HasOrder(orders, dropTargetId) && !HasOrder(orders, dragged)
    ensures RemovalIndex(orders, dragged) == |orders| - 1
    ensures Moved(orders, |orders| - 1, FindIndex(orders, dropTargetId))[FindIndex(orders, dropTargetId)] == orders[|orders| - 1]
  {
    MovedSpec(orders, |orders| - 1, FindIndex(orders, dropTargetId));
  }
}
