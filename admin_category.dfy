/** The administrator's category page (pages/admin/Category.tsx): search by
    name, switching a category on or off, and adding one with an image. */
module AdminCategoryPage {
  import opened Common
  import opened Text
  import opened Model

  function NameMatches(search: string): AdminCategory -> bool {
    (c: AdminCategory) => IncludesIgnoringCase(c.name, search)
  }

  /** `filteredCategories`: the categories whose name contains the search
      text, ignoring case, in catalog order. */
  function Filtered(cats: seq<AdminCategory>, search: string): (r: seq<AdminCategory>)
    ensures forall c :: c in r <==> c in cats && IncludesIgnoringCase(c.name, search)
  {
    Filter(cats, NameMatches(search))
  }

  /** The filter keeps the catalog's order: filtering a concatenation
      filters each part, and a single entry is kept exactly when it
      matches. */
  lemma FilteredOrder(a: seq<AdminCategory>, b: seq<AdminCategory>, c: AdminCategory, search: string)
    ensures Filtered(a + b, search) == Filtered(a, search) + Filtered(b, search)
    ensures Filtered([c], search) == if IncludesIgnoringCase(c.name, search) then [c] else []
  {
    FilterConcat(a, b, NameMatches(search));
    assert [c][1..] == [];
  }

  /** An empty search shows the whole catalog. */
  lemma EmptySearchShowsAll(cats: seq<AdminCategory>)
    ensures Filtered(cats, "") == cats
  {
    assert Lower("") == "";
    forall i | 0 <= i < |cats| ensures NameMatches("")(cats[i]) {
      ContainsEmpty(Lower(cats[i].name));
    }
    FilterAll(cats, NameMatches(""));
  }

  /** The `map` of `toggleStatus`: every entry with the record's id gets
      the opposite of the record's status; nothing else changes. */
  function Toggled(cats: seq<AdminCategory>, rec: AdminCategory): (r: seq<AdminCategory>)
    ensures |r| == |cats|
    ensures forall i :: 0 <= i < |cats| ==>
      r[i].id == cats[i].id && r[i].name == cats[i].name && r[i].imageUrl == cats[i].imageUrl
    ensures forall i :: 0 <= i < |cats| && cats[i].id != rec.id ==> r[i] == cats[i]
    ensures forall i :: 0 <= i < |cats| && cats[i].id == rec.id ==> r[i].status == !rec.status
  {
    seq(|cats|, i requires 0 <= i < |cats| =>
      if cats[i].id == rec.id then cats[i].(status := !rec.status) else cats[i])
  }

  /** The record is the one shown: every entry with its id carries its status. */
  predicate Current(cats: seq<AdminCategory>, rec: AdminCategory) {
    forall i :: 0 <= i < |cats| && cats[i].id == rec.id ==> cats[i].status == rec.status
  }

  /** Toggling the shown record, then the record as it is shown after that,
      restores the catalog. */
  lemma ToggleTwiceRestores(cats: seq<AdminCategory>, rec: AdminCategory)
    requires Current(cats, rec)
    ensures var once := Toggled(cats, rec);
      var shown := rec.(status := !rec.status);
      Current(once, shown) && Toggled(once, shown) == cats
  {
  }

  /** The record `handleAddCategory` posts: the next id and status true. */
  function NewCategory(cats: seq<AdminCategory>, name: string, imageUrl: string): (c: AdminCategory)
    ensures forall d :: d in cats ==> d.id < c.id
    ensures |cats| == 0 ==> c.id == 1
    ensures |cats| > 0 ==> exists d :: d in cats && d.id == c.id - 1
    ensures c.name == name && c.imageUrl == imageUrl && c.status
  {
    var ids := seq(|cats|, i requires 0 <= i < |cats| => cats[i].id);
    assert forall d :: d in cats ==> d.id in ids by {
      forall d | d in cats ensures d.id in ids {
        var i :| 0 <= i < |cats| && cats[i] == d;
        assert ids[i] == d.id;
      }
    }
    assert |cats| > 0 ==> exists d :: d in cats && d.id == NextId(ids) - 1 by {
      if |cats| > 0 {
        var i :| 0 <= i < |ids| && ids[i] == NextId(ids) - 1;
        assert cats[i] in cats;
      }
    }
    AdminCategory(NextId(ids), name, imageUrl, true)
  }

  /** `!imageUrl`: no upload yet, or an upload that gave no URL. */
  predicate NoImage(imageUrl: Option<string>) {
    imageUrl.None? || imageUrl.value == ""
  }

  class CategoryPage {
    var categories: seq<AdminCategory>
    var searchText: string
    /** The URL of the uploaded image, `null` until an upload answers. */
    var imageUrl: Option<string>

    constructor (loaded: seq<AdminCategory>)
      ensures categories == loaded && searchText == "" && imageUrl == None
    {
      categories := loaded;
      searchText := "";
      imageUrl := None;
    }

    /** What the table shows. */
    function Shown(): seq<AdminCategory>
      reads this
    {
      Filtered(categories, searchText)
    }

    /** `toggleStatus(record)`; `patched` is the request answering `ok`. */
    method ToggleStatus(rec: AdminCategory, patched: bool)
      modifies this`categories
      ensures patched ==> categories == Toggled(old(categories), rec)
      ensures !patched ==> categories == old(categories)
    {
      if patched {
        categories := Toggled(categories, rec);
      }
    }

    /** `handleAddCategory`: `name` is the validated form field (required)
        and `posted` the request answering `ok`. Without an image nothing
        happens; otherwise the new entry is appended once posted and the
        image is cleared. */
    method AddCategory(name: string, posted: bool)
      modifies this`categories, this`imageUrl
      ensures name == "" || NoImage(old(imageUrl)) || !posted ==>
        categories == old(categories) && imageUrl == old(imageUrl)
      ensures name != "" && !NoImage(old(imageUrl)) && posted ==>
        categories == old(categories) + [NewCategory(old(categories), name, old(imageUrl).value)]
        && imageUrl == None
    {
      if name == "" || NoImage(imageUrl) {
        return;
      }
      var entry := NewCategory(categories, name, imageUrl.value);
      if !posted {
        return;
      }
      categories := categories + [entry];
      imageUrl := None;
    }
  }

  predicate UniqueCategoryIds(cats: seq<AdminCategory>) {
    forall i, j :: 0 <= i < j < |cats| ==> cats[i].id != cats[j].id
  }

  /** Adding keeps the catalog's ids unique. */
  lemma AddKeepsIdsUnique(cats: seq<AdminCategory>, name: string, imageUrl: string)
    requires UniqueCategoryIds(cats)
    ensures UniqueCategoryIds(cats + [NewCategory(cats, name, imageUrl)])
  {
    var all := cats + [NewCategory(cats, name, imageUrl)];
    forall i, j | 0 <= i < j < |all| ensures all[i].id != all[j].id {
      if j == |cats| {
        assert all[i] in cats;
      }
    }
  }
}
