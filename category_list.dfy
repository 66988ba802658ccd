/**
 * The category settings list (frontend/src/components/settings/CategoryList.tsx):
 * the categories sorted by `order` and split into active and deleted lists,
 * and `handleAdd`, which picks the first palette colour and icon not yet in
 * use and adds a category named "New Category". The palettes
 * `CATEGORY_COLORS` (by their `value`) and `CATEGORY_ICONS` are parameters.
 */
module CategoryList {
  import opened Wrappers
  import Seqs
  import CategoryStore

  type Category = CategoryStore.Category

  /** `[...categories].sort((a, b) => a.order - b.order)`. */
  function SortedCategories(cs: seq<Category>): seq<Category>
  {
    Seqs.SortBy(cs, CategoryStore.OrderOf)
  }

  function ActiveList(cs: seq<Category>): seq<Category>
  {
    Seqs.Filter(SortedCategories(cs), CategoryStore.IsActive)
  }

  function DeletedList(cs: seq<Category>): seq<Category>
  {
    Seqs.Filter(SortedCategories(cs), CategoryStore.IsDeleted)
  }

  /**
   * The two lists split the categories: together they hold each category
   * exactly once, each is sorted by `order`, and the active list is the
   * store's active view.
   */
  lemma {:induction false} ListsPartition(cs: seq<Category>)
    ensures multiset(ActiveList(cs)) + multiset(DeletedList(cs)) == multiset(cs)
    ensures Seqs.SortedBy(ActiveList(cs), CategoryStore.OrderOf)
    ensures Seqs.SortedBy(DeletedList(cs), CategoryStore.OrderOf)
    ensures ActiveList(cs) == CategoryStore.ActiveCategories(cs)
    ensures forall i :: 0 <= i < |ActiveList(cs)| ==> !ActiveList(cs)[i].isDeleted
    ensures forall i :: 0 <= i < |DeletedList(cs)| ==> DeletedList(cs)[i].isDeleted
  {
    var sorted := SortedCategories(cs);
    Seqs.FilterPartition(sorted, CategoryStore.IsActive, CategoryStore.IsDeleted);
    Seqs.SortBySorted(cs, CategoryStore.OrderOf);
    Seqs.FilterSorted(sorted, CategoryStore.OrderOf, CategoryStore.IsActive);
    Seqs.FilterSorted(sorted, CategoryStore.OrderOf, CategoryStore.IsDeleted);
    Seqs.FilterSortByCommute(cs, CategoryStore.OrderOf, CategoryStore.IsActive);
    forall i | 0 <= i < |ActiveList(cs)|
      ensures !ActiveList(cs)[i].isDeleted
    {
      Seqs.FilterMember(sorted, CategoryStore.IsActive, ActiveList(cs)[i]);
    }
    forall i | 0 <= i < |DeletedList(cs)|
      ensures DeletedList(cs)[i].isDeleted
    {
      Seqs.FilterMember(sorted, CategoryStore.IsDeleted, DeletedList(cs)[i]);
    }
  }

  /** Some category already uses the colour. */
  predicate ColorUsed(cs: seq<Category>, color: string)
  {
    exists k :: 0 <= k < |cs| && cs[k].color == color
  }

  /** Some category has the icon; absent and empty icons are dropped by `.filter(Boolean)`. */
  predicate IconUsed(cs: seq<Category>, icon: string)
  {
    exists k :: 0 <= k < |cs| && cs[k].icon.Some? && cs[k].icon.value != "" && cs[k].icon.value == icon
  }

  function Unused(cs: seq<Category>): string -> bool { (c: string) => !ColorUsed(cs, c) }
  function IconUnused(cs: seq<Category>): string -> bool { (i: string) => !IconUsed(cs, i) }

  /** The colour `handleAdd` picks: the first unused palette colour, else the first palette colour. */
  function NewColor(palette: seq<string>, cs: seq<Category>): (r: string)
    requires |palette| > 0
    ensures r in palette
    ensures (forall i :: 0 <= i < |palette| ==> ColorUsed(cs, palette[i])) ==> r == palette[0]
    ensures forall i :: (0 <= i < |palette| && !ColorUsed(cs, palette[i]) &&
      forall j :: 0 <= j < i ==> ColorUsed(cs, palette[j])) ==> r == palette[i]
  {
    Seqs.Find(palette, Unused(cs)).GetOr(palette[0])
  }

  /**
   * The icon `handleAdd` picks, chosen in the same way from the icon palette.
   * `CATEGORY_ICONS[0]` of an empty palette is `undefined`, so the result is
   * then absent rather than an error.
   */
  function NewIcon(icons: seq<string>, cs: seq<Category>): (r: Option<string>)
    ensures r.None? <==> |icons| == 0
    ensures r.Some? ==> r.value in icons
    ensures |icons| > 0 && (forall i :: 0 <= i < |icons| ==> IconUsed(cs, icons[i])) ==> r == Some(icons[0])
    ensures forall i :: (0 <= i < |icons| && !IconUsed(cs, icons[i]) &&
      forall j :: 0 <= j < i ==> IconUsed(cs, icons[j])) ==> r == Some(icons[i])
  {
    match Seqs.Find(icons, IconUnused(cs))
    case Some(i) => Some(i)
    case None => if |icons| > 0 then Some(icons[0]) else None
  }

  /** An unused colour is picked whenever the palette still has one. */
  lemma NewColorIsFresh(palette: seq<string>, cs: seq<Category>)
    requires |palette| > 0
    requires exists i :: 0 <= i < |palette| && !ColorUsed(cs, palette[i])
    ensures !ColorUsed(cs, NewColor(palette, cs))
  {
    var r := Seqs.Find(palette, Unused(cs));
    assert r.Some?;
  }

  /**
   * `handleAdd`: exactly one category, "New Category", with the picked colour
   * and icon. `CATEGORY_COLORS[0].value` of an empty colour palette throws, so
   * the colour palette must be non-empty; the icon palette may be empty.
   */
  method HandleAdd(store: CategoryStore.Store, colors: seq<string>, icons: seq<string>, id: string)
    requires |colors| > 0
    modifies store
    ensures store.categories == CategoryStore.AddCategoryTo(old(store.categories), id, "New Category",
      NewColor(colors, old(store.categories)), NewIcon(icons, old(store.categories)))
  {
    var color := NewColor(colors, store.categories);
    var icon := NewIcon(icons, store.categories);
    store.AddCategory(id, "New Category", color, icon);
  }
}
