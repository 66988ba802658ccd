/**
 * The edit dialog of a block (frontend/src/components/modals/EditBlockModal.tsx):
 * loading a block into the form, and `handleSave`, which merges the edited
 * task list into the block's tasks. The task editing itself is ModalTasks.
 *
 * The block type of this dialog carries a category, an optional actual-time
 * override and a task list; the dialog only copies these fields.
 */
module EditBlockModal {
  import opened Wrappers
  import Seqs
  import Shared
  import opened ModalTasks

  datatype EditableBlock = EditableBlock(
    id: string,
    blockLabel: string,
    category: Shared.BlockCategory,
    estimateMinutes: real,
    actualMinutesOverride: Option<real>,
    tasks: seq<BlockTask>)

  /** The dialog's form state. */
  datatype EditForm = EditForm(
    blockLabel: string,
    category: Shared.BlockCategory,
    estimateMinutes: real,
    actualMinutesOverride: Option<real>,
    editor: TaskEditor)

  /** The `Partial<Block>` handed to `onSave`. */
  datatype BlockUpdates = BlockUpdates(
    blockLabel: string,
    category: Shared.BlockCategory,
    estimateMinutes: real,
    actualMinutesOverride: Option<real>,
    tasks: seq<BlockTask>)

  /** The form before any block is loaded. */
  const InitialForm := EditForm("", Shared.Work, 60.0, None, TaskEditor([], ""))

  /** `t.estimateMinutes || 0`: an absent estimate becomes 0. */
  function EstimateOrZero(e: Option<real>): (r: real)
    ensures e.None? ==> r == 0.0
    ensures e.Some? ==> r == e.value
  {
    match e
    case None => 0.0
    case Some(x) => if x != 0.0 then x else 0.0
  }

  /** The task list loaded into the form: id, name and estimate of each task, in order. */
  function LoadTasks(ts: seq<BlockTask>): (r: seq<DraftTask>)
    ensures |r| == |ts|
    ensures forall i :: 0 <= i < |ts| ==> r[i] == DraftTask(ts[i].id, ts[i].name, EstimateOrZero(ts[i].estimateMinutes))
  {
    seq(|ts|, i requires 0 <= i < |ts| => DraftTask(ts[i].id, ts[i].name, EstimateOrZero(ts[i].estimateMinutes)))
  }

  /**
   * The effect of lines 28-42: with no block the form stays as it is;
   * otherwise every field comes from the block. The new-task input is left
   * alone.
   */
  function Load(block: Option<EditableBlock>, form: EditForm): (r: EditForm)
    ensures block.None? ==> r == form
    ensures block.Some? ==>
      && r.blockLabel == block.value.blockLabel && r.category == block.value.category
      && r.estimateMinutes == block.value.estimateMinutes && r.actualMinutesOverride == block.value.actualMinutesOverride
      && r.editor.tasks == LoadTasks(block.value.tasks) && r.editor.newTaskName == form.editor.newTaskName
  {
    match block
    case None => form
    case Some(b) =>
      EditForm(b.blockLabel, b.category, b.estimateMinutes, b.actualMinutesOverride,
        TaskEditor(LoadTasks(b.tasks), form.editor.newTaskName))
  }

  function BlockTaskHasId(id: string): BlockTask -> bool { (t: BlockTask) => t.id == id }

  /** `block.tasks.find(bt => bt.id === t.id)`: the first task of the block with the id. */
  function Original(ts: seq<BlockTask>, id: string): (r: Option<BlockTask>)
    ensures r.None? <==> forall k :: 0 <= k < |ts| ==> ts[k].id != id
    ensures r.Some? ==> r.value in ts && r.value.id == id
    ensures forall k :: 0 <= k < |ts| && ts[k].id == id && (forall j :: 0 <= j < k ==> ts[j].id != id) ==> r == Some(ts[k])
  {
    Seqs.Find(ts, BlockTaskHasId(id))
  }

  /** One saved task: the found task, or `{id, completed: false}`, with name, estimate and position written over it. */
  function MergeTask(ts: seq<BlockTask>, t: DraftTask, index: int): BlockTask
  {
    var base := match Original(ts, t.id) case Some(bt) => bt case None => BlockTask(t.id, "", None, false, 0);
    base.(name := t.name, estimateMinutes := Some(t.estimateMinutes), order := index)
  }

  /**
   * The task list of `handleSave`: one task per edited task, in the edited
   * order, with `order` its position. Name and estimate come from the form;
   * a task that was already in the block keeps its `completed`, a new one is
   * not completed.
   */
  function MergeTasks(ts: seq<BlockTask>, drafts: seq<DraftTask>): (r: seq<BlockTask>)
    ensures |r| == |drafts|
    ensures forall i :: 0 <= i < |drafts| ==>
      && r[i].id == drafts[i].id && r[i].name == drafts[i].name
      && r[i].estimateMinutes == Some(drafts[i].estimateMinutes) && r[i].order == i
    ensures forall i :: 0 <= i < |drafts| ==>
      r[i].completed == (Original(ts, drafts[i].id).Some? && Original(ts, drafts[i].id).value.completed)
    ensures forall i :: 0 <= i < |drafts| && (forall k :: 0 <= k < |ts| ==> ts[k].id != drafts[i].id) ==> !r[i].completed
  {
    seq(|drafts|, i requires 0 <= i < |drafts| => MergeTask(ts, drafts[i], i))
  }

  /** `handleSave`: nothing without a block; otherwise the block's id and the form's fields with the merged tasks. */
  function Save(block: Option<EditableBlock>, form: EditForm): (r: Option<(string, BlockUpdates)>)
    ensures r.None? <==> block.None?
    ensures block.Some? ==>
      && r.value.0 == block.value.id
      && r.value.1.blockLabel == form.blockLabel && r.value.1.category == form.category
      && r.value.1.estimateMinutes == form.estimateMinutes
      && r.value.1.actualMinutesOverride == form.actualMinutesOverride
      && r.value.1.tasks == MergeTasks(block.value.tasks, form.editor.tasks)
  {
    match block
    case None => None
    case Some(b) =>
      Some((b.id, BlockUpdates(form.blockLabel, form.category, form.estimateMinutes, form.actualMinutesOverride,
        MergeTasks(b.tasks, form.editor.tasks))))
  }

  predicate DistinctTaskIds(ts: seq<BlockTask>)
  {
    forall i, j :: 0 <= i < j < |ts| ==> ts[i].id != ts[j].id
  }

  /**
   * Opening a block and saving without edits gives back the block's own
   * fields and tasks, except that every task now has an estimate (0 for an
   * absent one) and `order` equal to its position.
   */
  lemma LoadThenSave(b: EditableBlock, form: EditForm)
    requires DistinctTaskIds(b.tasks)
    ensures var r := Save(Some(b), Load(Some(b), form));
      && r.Some? && r.value.0 == b.id
      && r.value.1.blockLabel == b.blockLabel && r.value.1.category == b.category
      && r.value.1.estimateMinutes == b.estimateMinutes && r.value.1.actualMinutesOverride == b.actualMinutesOverride
      && |r.value.1.tasks| == |b.tasks|
      && forall i :: 0 <= i < |b.tasks| ==>
           r.value.1.tasks[i] == b.tasks[i].(estimateMinutes := Some(EstimateOrZero(b.tasks[i].estimateMinutes)), order := i)
  {
    var drafts := LoadTasks(b.tasks);
    var merged := MergeTasks(b.tasks, drafts);
    forall i | 0 <= i < |b.tasks|
      ensures merged[i] == b.tasks[i].(estimateMinutes := Some(EstimateOrZero(b.tasks[i].estimateMinutes)), order := i)
    {
      assert drafts[i].id == b.tasks[i].id;
      assert Original(b.tasks, b.tasks[i].id) == Some(b.tasks[i]);
    }
  }

  /** Saving keeps completed tasks completed, whatever was edited in them. */
  lemma SaveKeepsCompleted(b: EditableBlock, form: EditForm, i: nat)
    requires DistinctTaskIds(b.tasks)
    requires i < |form.editor.tasks|
    requires exists k :: 0 <= k < |b.tasks| && b.tasks[k].id == form.editor.tasks[i].id && b.tasks[k].completed
    ensures Save(Some(b), form).value.1.tasks[i].completed
  {
    var k :| 0 <= k < |b.tasks| && b.tasks[k].id == form.editor.tasks[i].id && b.tasks[k].completed;
    assert Original(b.tasks, form.editor.tasks[i].id) == Some(b.tasks[k]);
  }
}
