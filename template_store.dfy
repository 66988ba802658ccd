/**
 * The block-template store (frontend/src/store/templateStore.ts): an ordered
 * list of templates, each holding an ordered list of task templates, with
 * append, update-by-id, delete-and-renumber and drag-reorder on both levels
 * and the "active" view. `order` is meant to equal the list position; the
 * predicates `Numbered` and `TasksNumbered` say when it does.
 *
 * The pure transformations are specification functions; the store class
 * applies them to its `templates` field, running the renumbering loops where
 * the source runs its `forEach` passes. Persistence (`saveTemplates`) is not
 * modelled.
 */
module TemplateStore {
  import opened Wrappers
  import Seqs

  datatype TaskTemplate = TaskTemplate(id: string, name: string, estimateMinutes: int, order: int)

  datatype BlockTemplate = BlockTemplate(
    id: string,
    name: string,
    defaultMinutes: int,
    category: string,
    tasks: seq<TaskTemplate>,
    useTaskEstimates: bool,
    isDefault: bool,
    isHidden: bool,
    order: int)

  /** `Partial<TaskTemplate>`: each present field replaces the task's own (`{ ...task, ...updates }`). */
  datatype TaskPatch = TaskPatch(id: Option<string>, name: Option<string>, estimateMinutes: Option<int>, order: Option<int>)

  /** `Partial<BlockTemplate>`. */
  datatype TemplatePatch = TemplatePatch(
    id: Option<string>,
    name: Option<string>,
    defaultMinutes: Option<int>,
    category: Option<string>,
    tasks: Option<seq<TaskTemplate>>,
    useTaskEstimates: Option<bool>,
    isDefault: Option<bool>,
    isHidden: Option<bool>,
    order: Option<int>)

  function PatchTask(t: TaskTemplate, u: TaskPatch): TaskTemplate
  {
    TaskTemplate(u.id.GetOr(t.id), u.name.GetOr(t.name), u.estimateMinutes.GetOr(t.estimateMinutes), u.order.GetOr(t.order))
  }

  function PatchTemplate(t: BlockTemplate, u: TemplatePatch): BlockTemplate
  {
    BlockTemplate(
      u.id.GetOr(t.id), u.name.GetOr(t.name), u.defaultMinutes.GetOr(t.defaultMinutes),
      u.category.GetOr(t.category), u.tasks.GetOr(t.tasks), u.useTaskEstimates.GetOr(t.useTaskEstimates),
      u.isDefault.GetOr(t.isDefault), u.isHidden.GetOr(t.isHidden), u.order.GetOr(t.order))
  }

  function HasId(id: string): BlockTemplate -> bool { (t: BlockTemplate) => t.id == id }
  function LacksId(id: string): BlockTemplate -> bool { (t: BlockTemplate) => t.id != id }
  function TaskHasId(id: string): TaskTemplate -> bool { (t: TaskTemplate) => t.id == id }
  function TaskLacksId(id: string): TaskTemplate -> bool { (t: TaskTemplate) => t.id != id }
  function WithOrder(t: BlockTemplate, i: int): BlockTemplate { t.(order := i) }
  function TaskWithOrder(t: TaskTemplate, i: int): TaskTemplate { t.(order := i) }
  function OrderOf(t: BlockTemplate): int { t.order }
  function Visible(t: BlockTemplate): bool { !t.isHidden }

  /** Every template's `order` is its position. */
  predicate Numbered(ts: seq<BlockTemplate>)
  {
    forall i :: 0 <= i < |ts| ==> ts[i].order == i
  }

  predicate TasksNumbered(ts: seq<TaskTemplate>)
  {
    forall i :: 0 <= i < |ts| ==> ts[i].order == i
  }

  // ----- templates -----

  /** `addTemplate`: one new template at the end with `order` = previous length; the rest are untouched. */
  function AddTemplateTo(ts: seq<BlockTemplate>, template: BlockTemplate, id: string): (r: seq<BlockTemplate>)
    ensures |r| == |ts| + 1 && r[..|ts|] == ts
    ensures r[|ts|] == template.(id := id, order := |ts|)
    ensures Numbered(ts) ==> Numbered(r)
  {
    ts + [template.(id := id, order := |ts|)]
  }

  /** `updateTemplate`: only templates with the id change; an unknown id changes nothing. */
  function UpdateTemplateIn(ts: seq<BlockTemplate>, id: string, u: TemplatePatch): (r: seq<BlockTemplate>)
    ensures |r| == |ts|
    ensures forall i :: 0 <= i < |ts| ==> r[i] == if ts[i].id == id then PatchTemplate(ts[i], u) else ts[i]
    ensures (forall i :: 0 <= i < |ts| ==> ts[i].id != id) ==> r == ts
    ensures Numbered(ts) && u.order.None? ==> Numbered(r)
  {
    Seqs.MapWhere(ts, HasId(id), (t: BlockTemplate) => PatchTemplate(t, u))
  }

  /**
   * `deleteTemplate`: the templates without the id, in their old relative
   * order, renumbered 0..n-1.
   */
  function DeleteTemplateFrom(ts: seq<BlockTemplate>, id: string): (r: seq<BlockTemplate>)
    ensures Numbered(r)
    ensures |r| == |Seqs.Filter(ts, LacksId(id))|
    ensures forall i :: 0 <= i < |r| ==> r[i] == Seqs.Filter(ts, LacksId(id))[i].(order := i)
    ensures forall i :: 0 <= i < |r| ==> r[i].id != id
  {
    var kept := Seqs.Filter(ts, LacksId(id));
    forall i | 0 <= i < |kept|
      ensures kept[i].id != id
    {
      Seqs.FilterMember(ts, LacksId(id), kept[i]);
    }
    Seqs.Renumbered(kept, WithOrder)
  }

  /** `reorderTemplates` on the list: `Seqs.Reorder` by template id. */
  function ReorderTemplatesIn(ts: seq<BlockTemplate>, activeId: string, overId: string): seq<BlockTemplate>
  {
    Seqs.Reorder(ts, HasId(activeId), HasId(overId), WithOrder)
  }

  /** `getActiveTemplates`: the non-hidden templates, stably sorted by `order`. */
  function ActiveTemplates(ts: seq<BlockTemplate>): (r: seq<BlockTemplate>)
    ensures Seqs.SortedBy(r, OrderOf)
    ensures multiset(r) == multiset(Seqs.Filter(ts, Visible))
  {
    Seqs.SortBySorted(Seqs.Filter(ts, Visible), OrderOf);
    Seqs.SortBy(Seqs.Filter(ts, Visible), OrderOf)
  }

  /** The active view holds exactly the templates that are not hidden. */
  lemma ActiveTemplatesMembers(ts: seq<BlockTemplate>, t: BlockTemplate)
    ensures t in ActiveTemplates(ts) <==> t in ts && !t.isHidden
  {
    Seqs.FilterMember(ts, Visible, t);
    assert t in ActiveTemplates(ts) <==> t in multiset(Seqs.Filter(ts, Visible));
  }

  /** On a numbered list the sort is the identity, so the active view is the plain filter. */
  lemma ActiveTemplatesOfNumbered(ts: seq<BlockTemplate>)
    requires Numbered(ts)
    ensures ActiveTemplates(ts) == Seqs.Filter(ts, Visible)
  {
    assert Seqs.SortedBy(ts, OrderOf);
    Seqs.FilterSorted(ts, OrderOf, Visible);
    Seqs.SortBySortedIsIdentity(Seqs.Filter(ts, Visible), OrderOf);
  }

  // ----- tasks inside one template -----

  /** `addTaskToTemplate`: each template with the id gains one task at the end with `order` = its task count. */
  function AddTaskIn(ts: seq<BlockTemplate>, templateId: string, task: TaskTemplate, taskId: string): (r: seq<BlockTemplate>)
    ensures |r| == |ts|
    ensures forall i :: 0 <= i < |ts| && ts[i].id != templateId ==> r[i] == ts[i]
    ensures forall i :: 0 <= i < |ts| && ts[i].id == templateId ==>
      r[i] == ts[i].(tasks := ts[i].tasks + [task.(id := taskId, order := |ts[i].tasks|)])
    ensures forall i :: 0 <= i < |ts| && ts[i].id == templateId && TasksNumbered(ts[i].tasks) ==>
      TasksNumbered(r[i].tasks)
  {
    Seqs.MapWhere(ts, HasId(templateId),
      (t: BlockTemplate) => t.(tasks := t.tasks + [task.(id := taskId, order := |t.tasks|)]))
  }

  /** `updateTaskInTemplate`: within the matching templates, only the matching tasks are patched. */
  function UpdateTaskIn(ts: seq<BlockTemplate>, templateId: string, taskId: string, u: TaskPatch): (r: seq<BlockTemplate>)
    ensures |r| == |ts|
    ensures forall i :: 0 <= i < |ts| && ts[i].id != templateId ==> r[i] == ts[i]
    ensures forall i :: 0 <= i < |ts| && ts[i].id == templateId ==>
      r[i] == ts[i].(tasks := r[i].tasks) && |r[i].tasks| == |ts[i].tasks| &&
      forall k :: 0 <= k < |ts[i].tasks| ==>
        r[i].tasks[k] == if ts[i].tasks[k].id == taskId then PatchTask(ts[i].tasks[k], u) else ts[i].tasks[k]
  {
    Seqs.MapWhere(ts, HasId(templateId),
      (t: BlockTemplate) => t.(tasks := Seqs.MapWhere(t.tasks, TaskHasId(taskId), (k: TaskTemplate) => PatchTask(k, u))))
  }

  /** The task list after `removeTaskFromTemplate`'s filter and renumbering pass. */
  function RemoveTask(tasks: seq<TaskTemplate>, taskId: string): (r: seq<TaskTemplate>)
    ensures TasksNumbered(r)
    ensures |r| == |Seqs.Filter(tasks, TaskLacksId(taskId))|
    ensures forall i :: 0 <= i < |r| ==> r[i] == Seqs.Filter(tasks, TaskLacksId(taskId))[i].(order := i)
    ensures forall i :: 0 <= i < |r| ==> r[i].id != taskId
  {
    var kept := Seqs.Filter(tasks, TaskLacksId(taskId));
    forall i | 0 <= i < |kept|
      ensures kept[i].id != taskId
    {
      Seqs.FilterMember(tasks, TaskLacksId(taskId), kept[i]);
    }
    Seqs.Renumbered(kept, TaskWithOrder)
  }

  /** The task list after `reorderTasksInTemplate`: `Seqs.Reorder` by task id. */
  function ReorderTasks(tasks: seq<TaskTemplate>, activeId: string, overId: string): seq<TaskTemplate>
  {
    Seqs.Reorder(tasks, TaskHasId(activeId), TaskHasId(overId), TaskWithOrder)
  }

  function WithTasksRemoved(taskId: string): BlockTemplate -> BlockTemplate
  {
    (t: BlockTemplate) => t.(tasks := RemoveTask(t.tasks, taskId))
  }

  function WithTasksReordered(activeId: string, overId: string): BlockTemplate -> BlockTemplate
  {
    (t: BlockTemplate) => t.(tasks := ReorderTasks(t.tasks, activeId, overId))
  }

  /** `removeTaskFromTemplate` over the whole list: only the matching templates change, and only their tasks. */
  function RemoveTaskIn(ts: seq<BlockTemplate>, templateId: string, taskId: string): (r: seq<BlockTemplate>)
    ensures |r| == |ts|
    ensures forall i :: 0 <= i < |ts| && ts[i].id != templateId ==> r[i] == ts[i]
    ensures forall i :: 0 <= i < |ts| && ts[i].id == templateId ==>
      r[i] == ts[i].(tasks := RemoveTask(ts[i].tasks, taskId))
  {
    Seqs.MapWhere(ts, HasId(templateId), WithTasksRemoved(taskId))
  }

  /** `reorderTasksInTemplate` over the whole list. */
  function ReorderTasksIn(ts: seq<BlockTemplate>, templateId: string, activeId: string, overId: string): (r: seq<BlockTemplate>)
    ensures |r| == |ts|
    ensures forall i :: 0 <= i < |ts| && ts[i].id != templateId ==> r[i] == ts[i]
    ensures forall i :: 0 <= i < |ts| && ts[i].id == templateId ==>
      r[i] == ts[i].(tasks := ReorderTasks(ts[i].tasks, activeId, overId))
  {
    Seqs.MapWhere(ts, HasId(templateId), WithTasksReordered(activeId, overId))
  }

  /** Removing a task keeps the remaining tasks, each exactly once, apart from their `order`. */
  lemma RemoveTaskKeepsOthers(tasks: seq<TaskTemplate>, taskId: string, t: TaskTemplate)
    requires t in tasks && t.id != taskId
    ensures exists i :: 0 <= i < |RemoveTask(tasks, taskId)| && RemoveTask(tasks, taskId)[i] == t.(order := i)
  {
    var kept := Seqs.Filter(tasks, TaskLacksId(taskId));
    Seqs.FilterMember(tasks, TaskLacksId(taskId), t);
    var i :| 0 <= i < |kept| && kept[i] == t;
    assert RemoveTask(tasks, taskId)[i] == t.(order := i);
  }

  /** The store: its `templates` field and the actions that replace it. */
  class Store {
    var templates: seq<BlockTemplate>

    constructor()
      ensures templates == []
    {
      templates := [];
    }

    method AddTemplate(template: BlockTemplate, id: string)
      modifies this
      ensures templates == AddTemplateTo(old(templates), template, id)
    {
      templates := templates + [template.(id := id, order := |templates|)];
    }

    method UpdateTemplate(id: string, u: TemplatePatch)
      modifies this
      ensures templates == UpdateTemplateIn(old(templates), id, u)
    {
      templates := Seqs.MapWhere(templates, HasId(id), (t: BlockTemplate) => PatchTemplate(t, u));
    }

    method DeleteTemplate(id: string)
      modifies this
      ensures templates == DeleteTemplateFrom(old(templates), id)
    {
      var kept := Seqs.Filter(templates, LacksId(id));
      templates := Seqs.Renumber(kept, WithOrder);
    }

    method ReorderTemplates(activeId: string, overId: string)
      modifies this
      ensures templates == ReorderTemplatesIn(old(templates), activeId, overId)
      ensures var o := Seqs.FindIndex(old(templates), HasId(overId));
        Seqs.FindIndex(old(templates), HasId(activeId)) >= 0 && o >= 0 ==> Numbered(templates) && templates[o].id == activeId
    {
      var activeIndex := Seqs.FindIndex(templates, HasId(activeId));
      var overIndex := Seqs.FindIndex(templates, HasId(overId));
      if activeIndex == -1 || overIndex == -1 {
        return;
      }
      var moved := Seqs.Move(templates, activeIndex, overIndex);
      templates := Seqs.Renumber(moved, WithOrder);
      assert templates == Seqs.MoveRenumbered(old(templates), activeIndex, overIndex, WithOrder);
    }

    method AddTaskToTemplate(templateId: string, task: TaskTemplate, taskId: string)
      modifies this
      ensures templates == AddTaskIn(old(templates), templateId, task, taskId)
    {
      templates := Seqs.MapWhere(templates, HasId(templateId),
        (t: BlockTemplate) => t.(tasks := t.tasks + [task.(id := taskId, order := |t.tasks|)]));
    }

    method UpdateTaskInTemplate(templateId: string, taskId: string, u: TaskPatch)
      modifies this
      ensures templates == UpdateTaskIn(old(templates), templateId, taskId, u)
    {
      templates := UpdateTaskIn(templates, templateId, taskId, u);
    }

    /** The `map` over the templates, running the filter and the renumbering loop inside the matching ones. */
    method RemoveTaskFromTemplate(templateId: string, taskId: string)
      modifies this
      ensures templates == RemoveTaskIn(old(templates), templateId, taskId)
    {
      var ts := templates;
      var next: seq<BlockTemplate> := [];
      var i := 0;
      while i < |ts|
        invariant 0 <= i <= |ts| && |next| == i
        invariant forall k :: 0 <= k < i ==> next[k] == RemoveTaskIn(ts, templateId, taskId)[k]
      {
        var t := ts[i];
        if t.id == templateId {
          var tasks := Seqs.Filter(t.tasks, TaskLacksId(taskId));
          tasks := Seqs.Renumber(tasks, TaskWithOrder);
          t := t.(tasks := tasks);
        }
        next := next + [t];
        i := i + 1;
      }
      templates := next;
    }

    /** The `map` over the templates, moving and renumbering tasks inside the matching ones. */
    method ReorderTasksInTemplate(templateId: string, activeId: string, overId: string)
      modifies this
      ensures templates == ReorderTasksIn(old(templates), templateId, activeId, overId)
    {
      var ts := templates;
      var next: seq<BlockTemplate> := [];
      var i := 0;
      while i < |ts|
        invariant 0 <= i <= |ts| && |next| == i
        invariant forall k :: 0 <= k < i ==> next[k] == ReorderTasksIn(ts, templateId, activeId, overId)[k]
      {
        var t := ts[i];
        if t.id == templateId {
          var activeIndex := Seqs.FindIndex(t.tasks, TaskHasId(activeId));
          var overIndex := Seqs.FindIndex(t.tasks, TaskHasId(overId));
          if activeIndex != -1 && overIndex != -1 {
            var moved := Seqs.Move(t.tasks, activeIndex, overIndex);
            var tasks := Seqs.Renumber(moved, TaskWithOrder);
            assert tasks == ReorderTasks(ts[i].tasks, activeId, overId);
            t := t.(tasks := tasks);
          } else {
            assert t.tasks == ReorderTasks(ts[i].tasks, activeId, overId);
          }
        }
        assert t == ReorderTasksIn(ts, templateId, activeId, overId)[i];
        next := next + [t];
        i := i + 1;
      }
      templates := next;
    }

    function GetActiveTemplates(): (r: seq<BlockTemplate>)
      reads this
      ensures r == ActiveTemplates(templates)
    {
      Seqs.SortBy(Seqs.Filter(templates, Visible), OrderOf)
    }
  }
}
