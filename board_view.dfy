/**
 * `handleDragEnd` of the board page (frontend/src/pages/BoardView.tsx): a
 * drop either does nothing or asks the task store to move the dragged task,
 * and a failed move is swallowed.
 */
module BoardView {
  import opened Common
  import opened Entities
  import opened ClientCache
  import opened TaskStore

  /** Where a card was picked up or dropped: the list it is in and its index there. */
  datatype DraggableLocation = DraggableLocation(droppableId: string, index: int)

  /** What the drag-and-drop library reports at the end of a drag; a drop outside every list has no destination. */
  datatype DropResult = DropResult(draggableId: string, source: DraggableLocation, destination: Option<DraggableLocation>)

  /** The arguments of a `moveTask` call. */
  datatype MoveCall = MoveCall(id: string, newPosition: int, currentListId: string, newListId: string)

  /** The `moveTask` call a drop leads to, if any. */
  function DragEndCall(d: DropResult): (r: Option<MoveCall>)
    ensures r.None? <==> d.destination.None? || d.destination.value == d.source
    ensures r.Some? ==>
      r.value.id == d.draggableId &&
      r.value.newPosition == d.destination.value.index &&
      r.value.currentListId == d.source.droppableId &&
      r.value.newListId == d.destination.value.droppableId
  {
    if d.destination.None? then None
    else if d.destination.value.droppableId == d.source.droppableId && d.destination.value.index == d.source.index then None
    else Some(MoveCall(d.draggableId, d.destination.value.index, d.source.droppableId, d.destination.value.droppableId))
  }

  /** A drop within one list names that list as both source and destination. */
  lemma SameListDrop(d: DropResult)
    requires d.destination.Some? && d.destination.value.droppableId == d.source.droppableId
    requires d.destination.value.index != d.source.index
    ensures DragEndCall(d).Some? && DragEndCall(d).value.currentListId == DragEndCall(d).value.newListId
  {
  }

  /**
   * `handleDragEnd(result)`: moves the task when the drop calls for it; the
   * store's own error handling applies and nothing is rethrown.
   */
  method HandleDragEnd(store: TaskState, d: DropResult,
                       patched: Reply<()>, currentFetch: Reply<seq<Task>>, newFetch: Reply<seq<Task>>)
    modifies store
    ensures DragEndCall(d).None? ==>
      store.tasks == old(store.tasks) && store.isLoading == old(store.isLoading) && store.error == old(store.error)
    ensures DragEndCall(d).Some? ==>
      var c := DragEndCall(d).value;
      var o := MoveOutcome(old(store.tasks), c.currentListId, c.newListId, patched, currentFetch, newFetch);
      !store.isLoading &&
      (o.Answered? ==> store.tasks == o.data && store.error.None?) &&
      (o.Rejected? ==> store.tasks == old(store.tasks) && store.error == Some(ErrorText(o.message, "Error moving task")))
  {
    var call := DragEndCall(d);
    if call.Some? {
      var c := call.value;
      var _, _ := store.MoveTask(c.id, c.newPosition, c.currentListId, c.newListId, patched, currentFetch, newFetch);
    }
  }
}
