/** The menu page's search box and category tabs (src/pages/Menu.tsx): an item is listed when the
    lowercased search text occurs in its lowercased name or description, and it is in the chosen
    category or the "all" tab is chosen. */
module Menu {
  import opened Seqs
  import Catalog

  /** One entry of the menu. */
  datatype MenuItem = MenuItem(id: int, name: string, description: string, price: int, category: string, image: string)

  /** The category tab ids, "all" first. */
  const MenuCategoryIds: seq<string> := ["all", "biryani", "curry", "kebab", "bread", "dessert", "drinks"]

  /** The tabs are the "all" tab followed by exactly the categories a staff member can give a
      dish, in the same order. */
  lemma MenuTabsMatchDishCategories()
    ensures MenuCategoryIds == ["all"] + Catalog.DishCategories
    ensures forall i :: 1 <= i < |MenuCategoryIds| ==> MenuCategoryIds[i] != "all"
  {
  }

  /** `toLowerCase` on one character, for the Latin capitals A to Z. */
  function LowerChar(c: char): char {
    if 'A' <= c <= 'Z' then (c as int - 'A' as int + 'a' as int) as char else c
  }

  /** `toLowerCase` on a string. */
  function Lower(s: string): (r: string)
    ensures |r| == |s|
    ensures forall i :: 0 <= i < |s| ==> !('A' <= r[i] <= 'Z')
    ensures forall i :: 0 <= i < |s| && !('A' <= s[i] <= 'Z') ==> r[i] == s[i]
    ensures forall i :: 0 <= i < |s| && 'A' <= s[i] <= 'Z' ==> r[i] as int == s[i] as int + 32
  {
    seq(|s|, i requires 0 <= i < |s| => LowerChar(s[i]))
  }

  /** Lowercasing twice is lowercasing once. */
  lemma LowerIdempotent(s: string)
    ensures Lower(Lower(s)) == Lower(s)
  {
    assert forall i :: 0 <= i < |s| ==> LowerChar(LowerChar(s[i])) == LowerChar(s[i]);
  }

  /** `s.includes(t)`: `t` occurs in `s` at some position. The empty text occurs in every
      text, every text occurs in itself, and nothing longer than `s` occurs in it. */
  function Contains(s: string, t: string): (r: bool)
    ensures |t| == 0 ==> r
    ensures t == s ==> r
    ensures r ==> |t| <= |s|
    decreases |s|
  {
    if |t| > |s| then false
    else if s[..|t|] == t then true
    else Contains(s[1..], t)
  }

  /** `t` occurs in `s` starting at position `i`. */
  predicate OccursAt(s: string, t: string, i: int) {
    0 <= i && i + |t| <= |s| && s[i..i + |t|] == t
  }

  /** `Contains` finds an occurrence exactly when there is one. */
  lemma {:induction false} ContainsIff(s: string, t: string)
    ensures Contains(s, t) <==> exists i :: OccursAt(s, t, i)
    decreases |s|
  {
    if |t| > |s| {
    } else if s[..|t|] == t {
      assert OccursAt(s, t, 0);
    } else {
      ContainsIff(s[1..], t);
      if exists i :: OccursAt(s, t, i) {
        var i :| OccursAt(s, t, i);
        assert i != 0;
        assert OccursAt(s[1..], t, i - 1);
      }
      if exists i :: OccursAt(s[1..], t, i) {
        var i :| OccursAt(s[1..], t, i);
        assert OccursAt(s, t, i + 1);
      }
    }
  }

  /** The `filter` callback for a search text and a chosen tab. */
  function Matches(searchTerm: string, activeCategory: string): MenuItem -> bool {
    (item: MenuItem) =>
      (Contains(Lower(item.name), Lower(searchTerm)) || Contains(Lower(item.description), Lower(searchTerm))) &&
      (activeCategory == "all" || item.category == activeCategory)
  }

  /** `filteredMenuItems`: the matching items in menu order. With a tab other than "all" every
      listed item is in that category. */
  function FilteredMenu(items: seq<MenuItem>, searchTerm: string, activeCategory: string): (r: seq<MenuItem>)
    ensures IsSubseq(r, items)
    ensures forall i :: 0 <= i < |r| ==> r[i] in items && Matches(searchTerm, activeCategory)(r[i])
    ensures forall i :: 0 <= i < |items| && Matches(searchTerm, activeCategory)(items[i]) ==> items[i] in r
    ensures activeCategory != "all" ==> forall i :: 0 <= i < |r| ==> r[i].category == activeCategory
    ensures |r| == Sum(items, Masked(Matches(searchTerm, activeCategory), One))
  {
    FilterIsSubseq(items, Matches(searchTerm, activeCategory));
    FilterMembers(items, Matches(searchTerm, activeCategory));
    FilterCount(items, Matches(searchTerm, activeCategory));
    Filter(items, Matches(searchTerm, activeCategory))
  }

  /** An item is listed exactly when the lowercased search text occurs somewhere in its
      lowercased name or description, and the tab is "all" or the item's category. */
  lemma MatchesIff(searchTerm: string, activeCategory: string, item: MenuItem)
    ensures Matches(searchTerm, activeCategory)(item) <==>
              ((exists i :: OccursAt(Lower(item.name), Lower(searchTerm), i)) ||
               (exists i :: OccursAt(Lower(item.description), Lower(searchTerm), i))) &&
              (activeCategory == "all" || item.category == activeCategory)
  {
    ContainsIff(Lower(item.name), Lower(searchTerm));
    ContainsIff(Lower(item.description), Lower(searchTerm));
  }

  /** An empty search on the "all" tab lists the whole menu. */
  lemma EmptySearchListsAll(items: seq<MenuItem>)
    ensures FilteredMenu(items, "", "all") == items
  {
    forall i | 0 <= i < |items|
      ensures Matches("", "all")(items[i])
    {
      assert Lower(items[i].name)[..0] == Lower("");
    }
    FilterAll(items, Matches("", "all"));
  }

  /** The search is case-insensitive: two search texts with the same lowercase form list the
      same items. */
  lemma SearchIgnoresCase(items: seq<MenuItem>, term1: string, term2: string, activeCategory: string)
    requires Lower(term1) == Lower(term2)
    ensures FilteredMenu(items, term1, activeCategory) == FilteredMenu(items, term2, activeCategory)
    ensures FilteredMenu(items, Lower(term1), activeCategory) == FilteredMenu(items, term1, activeCategory)
  {
    FilterExt(items, Matches(term1, activeCategory), Matches(term2, activeCategory));
    LowerIdempotent(term1);
    FilterExt(items, Matches(Lower(term1), activeCategory), Matches(term1, activeCategory));
  }

  /** Narrowing to a tab keeps exactly the listed items of that category. */
  lemma TabNarrowsAll(items: seq<MenuItem>, searchTerm: string, activeCategory: string)
    requires activeCategory != "all"
    ensures FilteredMenu(items, searchTerm, activeCategory) ==
              Filter(FilteredMenu(items, searchTerm, "all"), InCategory(activeCategory))
  {
    FilterBoth(items, Matches(searchTerm, "all"), InCategory(activeCategory), Matches(searchTerm, activeCategory));
  }

  function InCategory(category: string): MenuItem -> bool {
    (item: MenuItem) => item.category == category
  }
}
