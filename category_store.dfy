/**
 * The category store (frontend/src/store/categoryStore.ts): an ordered list
 * of user categories with append, update-by-id, soft delete and restore,
 * drag-reorder with renumbering, the "active" view, lookup by id and the
 * colour lookup with its fallback. Persistence (`saveCategories`) is not
 * modelled.
 */
module CategoryStore {
  import opened Wrappers
  import Seqs

  /** A category; `icon == None` is an absent (`undefined`) icon. */
  datatype Category = Category(id: string, name: string, color: string, icon: Option<string>, isDeleted: bool, order: int)

  /** `Partial<Category>`: each present field replaces the category's own. */
  datatype CategoryPatch = CategoryPatch(
    id: Option<string>,
    name: Option<string>,
    color: Option<string>,
    icon: Option<string>,
    isDeleted: Option<bool>,
    order: Option<int>)

  /** `DEFAULT_COLOR`, the colour of an unknown category. */
  const DefaultColor: string := "210 15% 50%"

  function PatchCategory(c: Category, u: CategoryPatch): Category
  {
    Category(
      u.id.GetOr(c.id), u.name.GetOr(c.name), u.color.GetOr(c.color),
      if u.icon.Some? then u.icon else c.icon,
      u.isDeleted.GetOr(c.isDeleted), u.order.GetOr(c.order))
  }

  function HasId(id: string): Category -> bool { (c: Category) => c.id == id }
  function MarkDeleted(c: Category): Category { c.(isDeleted := true) }
  function MarkRestored(c: Category): Category { c.(isDeleted := false) }
  function WithOrder(c: Category, i: int): Category { c.(order := i) }
  function OrderOf(c: Category): int { c.order }
  function IsActive(c: Category): bool { !c.isDeleted }
  function IsDeleted(c: Category): bool { c.isDeleted }

  /** Every category's `order` is its position. */
  predicate Numbered(cs: seq<Category>)
  {
    forall i :: 0 <= i < |cs| ==> cs[i].order == i
  }

  /** `addCategory`: one new, not deleted category at the end with `order` = previous length. */
  function AddCategoryTo(cs: seq<Category>, id: string, name: string, color: string, icon: Option<string>): (r: seq<Category>)
    ensures |r| == |cs| + 1 && r[..|cs|] == cs
    ensures r[|cs|] == Category(id, name, color, icon, false, |cs|)
    ensures Numbered(cs) ==> Numbered(r)
  {
    cs + [Category(id, name, color, icon, false, |cs|)]
  }

  /** `updateCategory`: the updates are merged into the categories with the id and no others. */
  function UpdateCategoryIn(cs: seq<Category>, id: string, u: CategoryPatch): (r: seq<Category>)
    ensures |r| == |cs|
    ensures forall i :: 0 <= i < |cs| ==> r[i] == if cs[i].id == id then PatchCategory(cs[i], u) else cs[i]
    ensures (forall i :: 0 <= i < |cs| ==> cs[i].id != id) ==> r == cs
  {
    Seqs.MapWhere(cs, HasId(id), (c: Category) => PatchCategory(c, u))
  }

  /** `deleteCategory`, a soft delete: same length, only the matching categories get `isDeleted`. */
  function DeleteCategoryIn(cs: seq<Category>, id: string): (r: seq<Category>)
    ensures |r| == |cs|
    ensures forall i :: 0 <= i < |cs| && cs[i].id == id ==> r[i] == cs[i].(isDeleted := true)
    ensures forall i :: 0 <= i < |cs| && cs[i].id != id ==> r[i] == cs[i]
  {
    Seqs.MapWhere(cs, HasId(id), MarkDeleted)
  }

  /** `restoreCategory`: only the matching categories lose `isDeleted`. */
  function RestoreCategoryIn(cs: seq<Category>, id: string): (r: seq<Category>)
    ensures |r| == |cs|
    ensures forall i :: 0 <= i < |cs| && cs[i].id == id ==> r[i] == cs[i].(isDeleted := false)
    ensures forall i :: 0 <= i < |cs| && cs[i].id != id ==> r[i] == cs[i]
  {
    Seqs.MapWhere(cs, HasId(id), MarkRestored)
  }

  /** Deleting twice is deleting once. */
  lemma DeleteIdempotent(cs: seq<Category>, id: string)
    ensures DeleteCategoryIn(DeleteCategoryIn(cs, id), id) == DeleteCategoryIn(cs, id)
  {
    var once := DeleteCategoryIn(cs, id);
    assert forall i :: 0 <= i < |cs| ==> once[i].id == cs[i].id;
  }

  /** Restoring a category that was active before its deletion gives back the original list. */
  lemma RestoreUndoesDelete(cs: seq<Category>, id: string)
    requires forall i :: 0 <= i < |cs| && cs[i].id == id ==> !cs[i].isDeleted
    ensures RestoreCategoryIn(DeleteCategoryIn(cs, id), id) == cs
  {
    var once := DeleteCategoryIn(cs, id);
    assert forall i :: 0 <= i < |cs| ==> once[i].id == cs[i].id;
  }

  /** `reorderCategories` on the list: `Seqs.Reorder` by category id. */
  function ReorderCategoriesIn(cs: seq<Category>, activeId: string, overId: string): seq<Category>
  {
    Seqs.Reorder(cs, HasId(activeId), HasId(overId), WithOrder)
  }

  /** `getActiveCategories`: the categories not deleted, stably sorted by `order`. */
  function ActiveCategories(cs: seq<Category>): (r: seq<Category>)
    ensures Seqs.SortedBy(r, OrderOf)
    ensures multiset(r) == multiset(Seqs.Filter(cs, IsActive))
  {
    Seqs.SortBySorted(Seqs.Filter(cs, IsActive), OrderOf);
    Seqs.SortBy(Seqs.Filter(cs, IsActive), OrderOf)
  }

  /** The active view holds exactly the categories that are not deleted. */
  lemma ActiveCategoriesMembers(cs: seq<Category>, c: Category)
    ensures c in ActiveCategories(cs) <==> c in cs && !c.isDeleted
  {
    Seqs.FilterMember(cs, IsActive, c);
    assert c in ActiveCategories(cs) <==> c in multiset(Seqs.Filter(cs, IsActive));
  }

  /** After a delete, no category with that id is active. */
  lemma DeletedNotActive(cs: seq<Category>, id: string, c: Category)
    requires c in ActiveCategories(DeleteCategoryIn(cs, id))
    ensures c.id != id
  {
    ActiveCategoriesMembers(DeleteCategoryIn(cs, id), c);
  }

  /** `getCategoryById`: the first category with the id, or none. */
  function CategoryById(cs: seq<Category>, id: string): (r: Option<Category>)
    ensures r.None? <==> forall i :: 0 <= i < |cs| ==> cs[i].id != id
    ensures r.Some? ==> exists i :: (0 <= i < |cs| && cs[i] == r.value && r.value.id == id &&
      forall j :: 0 <= j < i ==> cs[j].id != id)
  {
    Seqs.Find(cs, HasId(id))
  }

  /**
   * `getCategoryColor`: the colour of the first category with the id, kept
   * even when it is the empty string (`??` only replaces a missing
   * category), else `DefaultColor`.
   */
  function CategoryColor(cs: seq<Category>, id: string): (r: string)
    ensures (forall i :: 0 <= i < |cs| ==> cs[i].id != id) ==> r == DefaultColor
    ensures forall i :: 0 <= i < |cs| && cs[i].id == id && (forall j :: 0 <= j < i ==> cs[j].id != id) ==>
      r == cs[i].color
  {
    match CategoryById(cs, id)
    case Some(c) => c.color
    case None => DefaultColor
  }

  /** The store: its `categories` field and the actions that replace it. */
  class Store {
    var categories: seq<Category>

    constructor()
      ensures categories == []
    {
      categories := [];
    }

    method AddCategory(id: string, name: string, color: string, icon: Option<string>)
      modifies this
      ensures categories == AddCategoryTo(old(categories), id, name, color, icon)
    {
      categories := categories + [Category(id, name, color, icon, false, |categories|)];
    }

    method UpdateCategory(id: string, u: CategoryPatch)
      modifies this
      ensures categories == UpdateCategoryIn(old(categories), id, u)
    {
      categories := UpdateCategoryIn(categories, id, u);
    }

    method DeleteCategory(id: string)
      modifies this
      ensures categories == DeleteCategoryIn(old(categories), id)
    {
      categories := Seqs.MapWhere(categories, HasId(id), MarkDeleted);
    }

    method RestoreCategory(id: string)
      modifies this
      ensures categories == RestoreCategoryIn(old(categories), id)
    {
      categories := Seqs.MapWhere(categories, HasId(id), MarkRestored);
    }

    method ReorderCategories(activeId: string, overId: string)
      modifies this
      ensures categories == ReorderCategoriesIn(old(categories), activeId, overId)
      ensures var o := Seqs.FindIndex(old(categories), HasId(overId));
        Seqs.FindIndex(old(categories), HasId(activeId)) >= 0 && o >= 0 ==> Numbered(categories) && categories[o].id == activeId
    {
      var activeIndex := Seqs.FindIndex(categories, HasId(activeId));
      var overIndex := Seqs.FindIndex(categories, HasId(overId));
      if activeIndex == -1 || overIndex == -1 {
        return;
      }
      var moved := Seqs.Move(categories, activeIndex, overIndex);
      categories := Seqs.Renumber(moved, WithOrder);
      assert categories == Seqs.MoveRenumbered(old(categories), activeIndex, overIndex, WithOrder);
    }

    function GetActiveCategories(): (r: seq<Category>)
      reads this
      ensures r == ActiveCategories(categories)
    {
      Seqs.SortBy(Seqs.Filter(categories, IsActive), OrderOf)
    }

    function GetCategoryById(id: string): (r: Option<Category>)
      reads this
      ensures r == CategoryById(categories, id)
    {
      Seqs.Find(categories, HasId(id))
    }

    function GetCategoryColor(id: string): (r: string)
      reads this
      ensures r == CategoryColor(categories, id)
    {
      match GetCategoryById(id)
      case Some(c) => c.color
      case None => DefaultColor
    }
  }
}
