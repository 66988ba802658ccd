/**
 * The task-list editing that the two block modals share
 * (frontend/src/components/modals/AddBlockModal.tsx and EditBlockModal.tsx
 * define the same `handleAddTask`, `handleRemoveTask` and `handleTaskChange`):
 * a list of draft tasks and the text of the new-task input, and
 * JavaScript's `String.prototype.trim` used to refuse blank names.
 *
 * Task ids come from `generateId`, which is the parameter `id`.
 */
module ModalTasks {
  import opened Wrappers
  import Seqs

  /**
   * The characters `trim` removes: ECMAScript WhiteSpace (tab, vertical tab,
   * form feed, space, no-break space, byte-order mark and the space
   * separators) and LineTerminator (line feed, carriage return, the line and
   * paragraph separators).
   */
  predicate IsJsSpace(c: char)
  {
    var n := c as int;
    || n == 0x09 || n == 0x0A || n == 0x0B || n == 0x0C || n == 0x0D || n == 0x20
    || n == 0xA0 || n == 0x1680 || (0x2000 <= n <= 0x200A)
    || n == 0x2028 || n == 0x2029 || n == 0x202F || n == 0x205F || n == 0x3000 || n == 0xFEFF
  }

  predicate AllSpace(s: string)
  {
    forall k :: 0 <= k < |s| ==> IsJsSpace(s[k])
  }

  /** The number of leading whitespace characters. */
  function LeadingSpace(s: string): (n: nat)
    ensures n <= |s|
    ensures forall k :: 0 <= k < n ==> IsJsSpace(s[k])
    ensures n < |s| ==> !IsJsSpace(s[n])
  {
    if s == [] || !IsJsSpace(s[0]) then 0
    else
      var n := 1 + LeadingSpace(s[1..]);
      assert forall k :: 1 <= k < n ==> s[k] == s[1..][k - 1];
      n
  }

  /** The length of `s` without its trailing whitespace. */
  function ContentEnd(s: string): (n: nat)
    ensures n <= |s|
    ensures forall k :: n <= k < |s| ==> IsJsSpace(s[k])
    ensures n > 0 ==> !IsJsSpace(s[n - 1])
  {
    if s == [] || !IsJsSpace(s[|s| - 1]) then |s|
    else
      var n := ContentEnd(s[..|s| - 1]);
      assert forall k :: n <= k < |s| - 1 ==> s[k] == s[..|s| - 1][k];
      n
  }

  /** `s.trimStart()`: empty exactly when `s` is all whitespace, else starting with a non-whitespace character. */
  function TrimStart(s: string): (r: string)
    ensures r == s[LeadingSpace(s)..]
    ensures r == [] || !IsJsSpace(r[0])
    ensures r == [] <==> AllSpace(s)
  {
    s[LeadingSpace(s)..]
  }

  /** `s.trimEnd()`: empty exactly when `s` is all whitespace, else ending with a non-whitespace character. */
  function TrimEnd(s: string): (r: string)
    ensures r == s[..ContentEnd(s)]
    ensures r == [] || !IsJsSpace(r[|r| - 1])
    ensures r == [] <==> AllSpace(s)
    ensures s != [] && !IsJsSpace(s[0]) ==> r != [] && r[0] == s[0]
  {
    s[..ContentEnd(s)]
  }

  /**
   * `s.trim()`: it neither starts nor ends with whitespace, and it is empty
   * exactly when `s` is all whitespace.
   */
  function Trim(s: string): (r: string)
    ensures r == [] || (!IsJsSpace(r[0]) && !IsJsSpace(r[|r| - 1]))
    ensures r == [] <==> AllSpace(s)
  {
    TrimEnd(TrimStart(s))
  }

  /** Trimming twice is trimming once, so a trimmed name is kept as it is. */
  lemma TrimIdempotent(s: string)
    ensures Trim(Trim(s)) == Trim(s)
  {
    var r := Trim(s);
    if r != [] {
      assert LeadingSpace(r) == 0;
      assert TrimStart(r) == r;
      assert ContentEnd(r) == |r|;
    }
  }

  /** `!name.trim()`: the name is blank. */
  predicate Blank(name: string) { Trim(name) == "" }

  /** A task in the modal's edit list. */
  datatype DraftTask = DraftTask(id: string, name: string, estimateMinutes: real)

  /** A block's task as handed to the day store (the task type on AddBlockModal.tsx:14); `None` is an absent estimate. */
  datatype BlockTask = BlockTask(id: string, name: string, estimateMinutes: Option<real>, completed: bool, order: int)

  /** The task list being edited and the text of the new-task input. */
  datatype TaskEditor = TaskEditor(tasks: seq<DraftTask>, newTaskName: string)

  /** The estimate of a task added from the input. */
  const NewTaskMinutes: real := 15.0

  function TaskHasId(id: string): DraftTask -> bool { (t: DraftTask) => t.id == id }
  function TaskLacksId(id: string): DraftTask -> bool { (t: DraftTask) => t.id != id }

  function IdOf(t: DraftTask): string { t.id }

  predicate DistinctIds(ts: seq<DraftTask>)
  {
    Seqs.DistinctBy(ts, IdOf)
  }

  predicate HasTask(ts: seq<DraftTask>, id: string)
  {
    exists k :: 0 <= k < |ts| && ts[k].id == id
  }

  /**
   * `handleAddTask`: a blank input changes nothing; otherwise one task with
   * the trimmed name and 15 minutes is appended and the input is cleared.
   * The added name is never blank and is already trimmed.
   */
  function AddTask(e: TaskEditor, id: string): (r: TaskEditor)
    ensures Blank(e.newTaskName) ==> r == e
    ensures !Blank(e.newTaskName) ==>
      && |r.tasks| == |e.tasks| + 1 && r.tasks[..|e.tasks|] == e.tasks
      && r.tasks[|e.tasks|] == DraftTask(id, Trim(e.newTaskName), NewTaskMinutes)
      && !Blank(r.tasks[|e.tasks|].name) && Trim(r.tasks[|e.tasks|].name) == r.tasks[|e.tasks|].name
      && r.newTaskName == ""
  {
    var name := Trim(e.newTaskName);
    if name == "" then e
    else
      TrimIdempotent(e.newTaskName);
      TaskEditor(e.tasks + [DraftTask(id, name, NewTaskMinutes)], "")
  }

  /** Adding a task with an id not yet in the list keeps the ids distinct. */
  lemma AddTaskKeepsIdsDistinct(e: TaskEditor, id: string)
    requires DistinctIds(e.tasks) && !HasTask(e.tasks, id)
    ensures DistinctIds(AddTask(e, id).tasks)
  {
  }

  /**
   * `handleRemoveTask`: the tasks with the id go, the others stay in order;
   * an id that is not in the list leaves it as it was.
   */
  function RemoveTask(ts: seq<DraftTask>, id: string): (r: seq<DraftTask>)
    ensures !HasTask(r, id)
    ensures forall t :: t in r <==> t in ts && t.id != id
    ensures !HasTask(ts, id) ==> r == ts
  {
    FilterByIdFacts(ts, id);
    Seqs.Filter(ts, TaskLacksId(id))
  }

  lemma FilterByIdFacts(ts: seq<DraftTask>, id: string)
    ensures forall t :: t in Seqs.Filter(ts, TaskLacksId(id)) <==> t in ts && t.id != id
    ensures !HasTask(ts, id) ==> Seqs.Filter(ts, TaskLacksId(id)) == ts
  {
    forall t
      ensures t in Seqs.Filter(ts, TaskLacksId(id)) <==> t in ts && t.id != id
    {
      Seqs.FilterMember(ts, TaskLacksId(id), t);
    }
    if !HasTask(ts, id) {
      Seqs.FilterKeepsAll(ts, TaskLacksId(id));
    }
  }

  /** One field edit of `handleTaskChange`. */
  datatype TaskEdit = SetName(name: string) | SetEstimate(minutes: real)

  function ApplyEdit(t: DraftTask, edit: TaskEdit): DraftTask
  {
    match edit
    case SetName(n) => t.(name := n)
    case SetEstimate(m) => t.(estimateMinutes := m)
  }

  /**
   * `handleTaskChange`: only the tasks with the id get the edit, and only in
   * the named field; the ids and the order of the list do not change.
   */
  function ChangeTask(ts: seq<DraftTask>, id: string, edit: TaskEdit): (r: seq<DraftTask>)
    ensures |r| == |ts|
    ensures forall i :: 0 <= i < |ts| ==> r[i].id == ts[i].id
    ensures forall i :: 0 <= i < |ts| && ts[i].id != id ==> r[i] == ts[i]
    ensures forall i :: 0 <= i < |ts| && ts[i].id == id ==>
      (edit.SetName? ==> r[i] == ts[i].(name := edit.name)) && (edit.SetEstimate? ==> r[i] == ts[i].(estimateMinutes := edit.minutes))
  {
    Seqs.MapWhere(ts, TaskHasId(id), (t: DraftTask) => ApplyEdit(t, edit))
  }

  /** Removing and changing keep the ids distinct. */
  lemma EditsKeepIdsDistinct(ts: seq<DraftTask>, id: string, edit: TaskEdit)
    requires DistinctIds(ts)
    ensures DistinctIds(ChangeTask(ts, id, edit))
    ensures DistinctIds(RemoveTask(ts, id))
  {
    Seqs.FilterDistinctBy(ts, TaskLacksId(id), IdOf);
  }
}
