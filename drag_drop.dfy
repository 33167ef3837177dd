/** The drag-and-drop library's report of a finished drag, as both board views receive it. */
module DragDrop {
  import opened Wrappers

  datatype DraggableLocation = DraggableLocation(droppableId: string, index: int)

  /** Which task was dragged, from where, and where it was dropped; no destination means dropped outside. */
  datatype DropResult = DropResult(draggableId: string, source: DraggableLocation, destination: Option<DraggableLocation>)

  /** Dropped outside every column, or back at the droppable and index it came from. */
  predicate DroppedInPlace(drop: DropResult) {
    drop.destination.None? || drop.destination.value == drop.source
  }
}
