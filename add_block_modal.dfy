/**
 * The dialog that adds a block (frontend/src/components/modals/AddBlockModal.tsx):
 * five pieces of form state, the save that hands a new block to `onAdd` and
 * resets the form, the close that resets it, and the task editing of
 * ModalTasks applied to the form's task list.
 */
module AddBlockModal {
  import opened Wrappers
  import Shared
  import opened ModalTasks

  /** The argument of `onAdd`. */
  datatype NewBlock = NewBlock(
    blockLabel: string,
    category: Shared.BlockCategory,
    estimateMinutes: real,
    tasks: seq<BlockTask>,
    notes: string,
    useTaskEstimates: bool)

  /** The estimate the form starts with. */
  const DefaultEstimate: real := 60.0

  /** The saved tasks: the edited ones in order, not completed, with `order` their position. */
  function SavedTasks(drafts: seq<DraftTask>): (r: seq<BlockTask>)
    ensures |r| == |drafts|
    ensures forall i :: 0 <= i < |drafts| ==>
      r[i] == BlockTask(drafts[i].id, drafts[i].name, Some(drafts[i].estimateMinutes), false, i)
  {
    seq(|drafts|, i requires 0 <= i < |drafts| => BlockTask(drafts[i].id, drafts[i].name, Some(drafts[i].estimateMinutes), false, i))
  }

  /**
   * The block `handleSave` hands over: the trimmed label, which is never
   * blank and trims to itself, no notes, estimates not taken from tasks.
   */
  function NewBlockFrom(title: string, category: Shared.BlockCategory, estimateMinutes: real, drafts: seq<DraftTask>): (r: NewBlock)
    requires !Blank(title)
    ensures r.blockLabel == Trim(title) && r.blockLabel != "" && Trim(r.blockLabel) == r.blockLabel
    ensures r.category == category && r.estimateMinutes == estimateMinutes
    ensures r.tasks == SavedTasks(drafts) && r.notes == "" && !r.useTaskEstimates
  {
    TrimIdempotent(title);
    NewBlock(Trim(title), category, estimateMinutes, SavedTasks(drafts), "", false)
  }

  /** The dialog's state. */
  class AddBlockForm {
    var blockLabel: string
    var category: Shared.BlockCategory
    var estimateMinutes: real
    var tasks: seq<DraftTask>
    var newTaskName: string

    /** The state the form starts in and returns to after a save or a close. */
    predicate IsReset()
      reads this
    {
      blockLabel == "" && category == Shared.Work && estimateMinutes == DefaultEstimate && tasks == [] && newTaskName == ""
    }

    constructor()
      ensures IsReset()
    {
      blockLabel := "";
      category := Shared.Work;
      estimateMinutes := DefaultEstimate;
      tasks := [];
      newTaskName := "";
    }

    /**
     * `handleSave`: a blank label is refused and nothing changes; otherwise
     * the new block is returned and the form is reset.
     */
    method HandleSave() returns (added: Option<NewBlock>)
      modifies this
      ensures Blank(old(blockLabel)) ==> added.None? && unchanged(this)
      ensures !Blank(old(blockLabel)) ==>
        added == Some(NewBlockFrom(old(blockLabel), old(category), old(estimateMinutes), old(tasks))) && IsReset()
    {
      if Trim(blockLabel) == "" {
        return None;
      }
      added := Some(NewBlockFrom(blockLabel, category, estimateMinutes, tasks));
      Reset();
    }

    /** `handleClose`: the form goes back to its starting state. */
    method HandleClose()
      modifies this
      ensures IsReset()
    {
      Reset();
    }

    /** The five setter calls of lines 53-57 and 81-85. */
    method Reset()
      modifies this
      ensures IsReset()
    {
      blockLabel := "";
      category := Shared.Work;
      estimateMinutes := DefaultEstimate;
      tasks := [];
      newTaskName := "";
    }

    /** `handleAddTask`, with `id` from `generateId`; the other fields are kept. */
    method HandleAddTask(id: string)
      modifies this
      ensures TaskEditor(tasks, newTaskName) == AddTask(TaskEditor(old(tasks), old(newTaskName)), id)
      ensures blockLabel == old(blockLabel) && category == old(category) && estimateMinutes == old(estimateMinutes)
    {
      var e := AddTask(TaskEditor(tasks, newTaskName), id);
      tasks := e.tasks;
      newTaskName := e.newTaskName;
    }

    /** `handleRemoveTask`; the other fields are kept. */
    method HandleRemoveTask(taskId: string)
      modifies this
      ensures tasks == RemoveTask(old(tasks), taskId)
      ensures blockLabel == old(blockLabel) && category == old(category)
      ensures estimateMinutes == old(estimateMinutes) && newTaskName == old(newTaskName)
    {
      tasks := RemoveTask(tasks, taskId);
    }

    /** `handleTaskChange`; the other fields are kept. */
    method HandleTaskChange(taskId: string, edit: TaskEdit)
      modifies this
      ensures tasks == ChangeTask(old(tasks), taskId, edit)
      ensures blockLabel == old(blockLabel) && category == old(category)
      ensures estimateMinutes == old(estimateMinutes) && newTaskName == old(newTaskName)
    {
      tasks := ChangeTask(tasks, taskId, edit);
    }
  }
}
