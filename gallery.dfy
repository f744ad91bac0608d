/** The portfolio gallery: a fixed list of eight pictures, a category filter
    that always starts again from that list, and a loading flag under which
    eight placeholders are shown instead of the pictures. */
module Gallery {

  /** The category tags; `All` is also the "no filter" choice. */
  datatype Category = All | Facilities | Equipment | Classes

  /** The choices offered by the filter buttons: the same four values. */
  type FilterCategory = Category

  datatype GalleryItem = GalleryItem(id: nat, src: string, alt: string, category: Category)

  /** The filter buttons, in the order they are shown. */
  const Categories: seq<FilterCategory> := [All, Facilities, Equipment, Classes]

  /** The buttons offer every category, each once. */
  lemma CategoriesCover()
    ensures forall c: FilterCategory :: c in Categories
    ensures forall i, j :: 0 <= i < j < |Categories| ==> Categories[i] != Categories[j]
  {
    forall c: FilterCategory ensures c in Categories {
      match c
      case All => assert Categories[0] == c;
      case Facilities => assert Categories[1] == c;
      case Equipment => assert Categories[2] == c;
      case Classes => assert Categories[3] == c;
    }
  }

  /** The static picture list. */
  const GalleryItems: seq<GalleryItem> := [
    GalleryItem(1, "/images/gym-facilities-1.jpg", "אזור אימון מרכזי במכון כושר ביתא", Facilities),
    GalleryItem(2, "/images/gym-equipment-1.jpg", "ציוד משקולות חופשיות", Equipment),
    GalleryItem(3, "/images/gym-classes-1.jpg", "שיעור ספינינג קבוצתי", Classes),
    GalleryItem(4, "/images/gym-facilities-2.jpg", "אזור קרדיו במכון כושר ביתא", Facilities),
    GalleryItem(5, "/images/gym-equipment-2.jpg", "מכשירי כושר מתקדמים", Equipment),
    GalleryItem(6, "/images/gym-classes-2.jpg", "שיעור יוגה קבוצתי", Classes),
    GalleryItem(7, "/images/gym-facilities-3.jpg", "חדר הלבשה מפואר", Facilities),
    GalleryItem(8, "/images/gym-equipment-3.jpg", "אזור אימון פונקציונלי", Equipment)
  ]

  /** The number of placeholders shown while loading. */
  const SkeletonCount := 8

  /** `items.filter(item => item.category === c)`: the items of category
      `c`, all of them, and nothing else. */
  function FilterBy(items: seq<GalleryItem>, c: Category): (r: seq<GalleryItem>)
    ensures |r| <= |items|
  {
    if items == [] then []
    else (if items[0].category == c then [items[0]] else []) + FilterBy(items[1..], c)
  }

  /** `r` is `s` with some elements left out, the rest in their order. */
  ghost predicate IsSubsequence(r: seq<GalleryItem>, s: seq<GalleryItem>)
    decreases |s|
  {
    if r == [] then true
    else if s == [] then false
    else (r[0] == s[0] && IsSubsequence(r[1..], s[1..])) || IsSubsequence(r, s[1..])
  }

  /** The head of a list is kept or dropped, and the rest filtered alone. */
  lemma FilterCons(x: GalleryItem, rest: seq<GalleryItem>, c: Category)
    ensures FilterBy([x] + rest, c) == (if x.category == c then [x] else []) + FilterBy(rest, c)
  {
    assert ([x] + rest)[0] == x;
    assert ([x] + rest)[1..] == rest;
  }

  /** Filtering a concatenation filters each part. */
  lemma {:induction false} FilterConcat(a: seq<GalleryItem>, b: seq<GalleryItem>, c: Category)
    ensures FilterBy(a + b, c) == FilterBy(a, c) + FilterBy(b, c)
  {
    if a == [] {
      assert a + b == b;
    } else {
      FilterConcat(a[1..], b, c);
      assert a + b == [a[0]] + (a[1..] + b);
      FilterCons(a[0], a[1..] + b, c);
      assert a == [a[0]] + a[1..];
      FilterCons(a[0], a[1..], c);
    }
  }

  /** Every item the filter returns has category `c`, and every item of
      category `c` in the list is returned. */
  lemma {:induction false} FilterMembership(items: seq<GalleryItem>, c: Category)
    ensures |FilterBy(items, c)| <= |items|
    ensures forall i :: 0 <= i < |FilterBy(items, c)| ==> FilterBy(items, c)[i].category == c
    ensures forall x :: x in FilterBy(items, c) <==> x in items && x.category == c
  {
    if items != [] {
      FilterMembership(items[1..], c);
      assert items == [items[0]] + items[1..];
      FilterCons(items[0], items[1..], c);
    }
  }

  /** The filter keeps the order of the list it filters. */
  lemma {:induction false} FilterIsSubsequence(items: seq<GalleryItem>, c: Category)
    ensures IsSubsequence(FilterBy(items, c), items)
  {
    if items != [] {
      FilterIsSubsequence(items[1..], c);
      var rest := FilterBy(items[1..], c);
      assert items == [items[0]] + items[1..];
      FilterCons(items[0], items[1..], c);
      if items[0].category == c {
        assert FilterBy(items, c) == [items[0]] + rest;
        assert ([items[0]] + rest)[0] == items[0];
        assert ([items[0]] + rest)[1..] == rest;
      } else {
        assert FilterBy(items, c) == rest;
      }
    }
  }

  /** The filter keeps every copy of an item of category `c` and no copy of
      any other item. */
  lemma {:induction false} FilterCounts(items: seq<GalleryItem>, c: Category, x: GalleryItem)
    ensures multiset(FilterBy(items, c))[x] == if x.category == c then multiset(items)[x] else 0
  {
    if items != [] {
      FilterCounts(items[1..], c, x);
      var head := if items[0].category == c then [items[0]] else [];
      assert items == [items[0]] + items[1..];
      FilterCons(items[0], items[1..], c);
      assert multiset(FilterBy(items, c)) == multiset(head) + multiset(FilterBy(items[1..], c));
      assert multiset(items) == multiset([items[0]]) + multiset(items[1..]);
    }
  }

  /** Filtering an already filtered list by the same category changes
      nothing. */
  lemma {:induction false} FilterIdempotent(items: seq<GalleryItem>, c: Category)
    ensures FilterBy(FilterBy(items, c), c) == FilterBy(items, c)
  {
    if items != [] {
      FilterIdempotent(items[1..], c);
      var rest := FilterBy(items[1..], c);
      assert items == [items[0]] + items[1..];
      FilterCons(items[0], items[1..], c);
      if items[0].category == c {
        assert FilterBy(items, c) == [items[0]] + rest;
        FilterCons(items[0], rest, c);
      } else {
        assert FilterBy(items, c) == rest;
      }
    }
  }

  /** The list `handleFilterChange` shows for a choice: the whole list for
      `All`, otherwise the items of that category. */
  function Filtered(c: FilterCategory): (r: seq<GalleryItem>)
    ensures c == All ==> r == GalleryItems
    ensures c != All ==> forall x :: x in r <==> x in GalleryItems && x.category == c
  {
    FilterMembership(GalleryItems, c);
    if c == All then GalleryItems else FilterBy(GalleryItems, c)
  }

  function Ids(items: seq<GalleryItem>): (r: seq<nat>)
    ensures |r| == |items|
    ensures forall i :: 0 <= i < |items| ==> r[i] == items[i].id
  {
    if items == [] then [] else [items[0].id] + Ids(items[1..])
  }

  /** The static data: the ids run from 1 to 8 and no item is tagged
      `All`. */
  lemma StaticIds()
    ensures Ids(GalleryItems) == [1, 2, 3, 4, 5, 6, 7, 8]
    ensures forall i :: 0 <= i < |GalleryItems| ==> GalleryItems[i].category != All
  {
  }

  /** The one-item list `[x]` if `x` has category `c`, else the empty
      list. */
  function Keep(x: GalleryItem, c: Category): seq<GalleryItem> {
    if x.category == c then [x] else []
  }

  /** The filter over an eight-item list, item by item. */
  lemma FilterEight(g: seq<GalleryItem>, c: Category)
    requires |g| == 8
    ensures FilterBy(g, c) == Keep(g[0], c) + (Keep(g[1], c) + (Keep(g[2], c) + (Keep(g[3], c) +
                              (Keep(g[4], c) + (Keep(g[5], c) + (Keep(g[6], c) + Keep(g[7], c)))))))
  {
    var f8 := FilterBy(g[8..], c);
    assert f8 == [] by { assert g[8..] == []; }
    var f7 := FilterBy(g[7..], c);
    assert f7 == Keep(g[7], c) + f8 by {
      assert g[7..] == [g[7]] + g[8..];
      FilterCons(g[7], g[8..], c);
    }
    var f6 := FilterBy(g[6..], c);
    assert f6 == Keep(g[6], c) + f7 by {
      assert g[6..] == [g[6]] + g[7..];
      FilterCons(g[6], g[7..], c);
    }
    var f5 := FilterBy(g[5..], c);
    assert f5 == Keep(g[5], c) + f6 by {
      assert g[5..] == [g[5]] + g[6..];
      FilterCons(g[5], g[6..], c);
    }
    var f4 := FilterBy(g[4..], c);
    assert f4 == Keep(g[4], c) + f5 by {
      assert g[4..] == [g[4]] + g[5..];
      FilterCons(g[4], g[5..], c);
    }
    var f3 := FilterBy(g[3..], c);
    assert f3 == Keep(g[3], c) + f4 by {
      assert g[3..] == [g[3]] + g[4..];
      FilterCons(g[3], g[4..], c);
    }
    var f2 := FilterBy(g[2..], c);
    assert f2 == Keep(g[2], c) + f3 by {
      assert g[2..] == [g[2]] + g[3..];
      FilterCons(g[2], g[3..], c);
    }
    var f1 := FilterBy(g[1..], c);
    assert f1 == Keep(g[1], c) + f2 by {
      assert g[1..] == [g[1]] + g[2..];
      FilterCons(g[1], g[2..], c);
    }
    var f0 := FilterBy(g, c);
    assert f0 == Keep(g[0], c) + f1 by {
      assert g == [g[0]] + g[1..];
      FilterCons(g[0], g[1..], c);
    }
    assert f7 == Keep(g[7], c);
  }

  /** The facilities filter shows pictures 1, 4 and 7, in that order. */
  lemma StaticFacilities()
    ensures var g := GalleryItems; Filtered(Facilities) == [g[0], g[3], g[6]]
    ensures Ids(Filtered(Facilities)) == [1, 4, 7]
  {
    FacilitiesItems();
  }

  lemma FacilitiesItems()
    ensures var g := GalleryItems; FilterBy(g, Facilities) == [g[0], g[3], g[6]]
  {
    FilterEight(GalleryItems, Facilities);
  }

  /** The equipment filter shows pictures 2, 5 and 8, in that order. */
  lemma StaticEquipment()
    ensures var g := GalleryItems; Filtered(Equipment) == [g[1], g[4], g[7]]
    ensures Ids(Filtered(Equipment)) == [2, 5, 8]
  {
    EquipmentItems();
  }

  lemma EquipmentItems()
    ensures var g := GalleryItems; FilterBy(g, Equipment) == [g[1], g[4], g[7]]
  {
    FilterEight(GalleryItems, Equipment);
  }

  /** The classes filter shows pictures 3 and 6, in that order. */
  lemma StaticClasses()
    ensures var g := GalleryItems; Filtered(Classes) == [g[2], g[5]]
    ensures Ids(Filtered(Classes)) == [3, 6]
  {
    ClassesItems();
  }

  lemma ClassesItems()
    ensures var g := GalleryItems; FilterBy(g, Classes) == [g[2], g[5]]
  {
    FilterEight(GalleryItems, Classes);
  }

  /** Every picture is shown under `All` and under exactly one of the
      three category filters: its own. */
  lemma CategoriesPartition(x: GalleryItem)
    requires x in GalleryItems
    ensures x in Filtered(All)
    ensures x.category != All && x in Filtered(x.category)
    ensures forall c :: c != All && c != x.category ==> x !in Filtered(c)
  {
    StaticIds();
  }

  /** The three category filters together show as many pictures as the
      whole list holds. */
  lemma PartitionSizes()
    ensures |Filtered(Facilities)| + |Filtered(Equipment)| + |Filtered(Classes)| == |GalleryItems|
  {
    StaticFacilities();
    StaticEquipment();
    StaticClasses();
  }

  /** One cell of the grid. */
  datatype Tile = Skeleton(index: nat) | Photo(item: GalleryItem)

  /** What the grid shows: eight placeholders while loading, whatever the
      filter; afterwards the filtered pictures in their order. */
  function Grid(isLoading: bool, items: seq<GalleryItem>): (r: seq<Tile>)
    ensures isLoading ==> |r| == SkeletonCount && forall i :: 0 <= i < |r| ==> r[i] == Skeleton(i)
    ensures !isLoading ==> |r| == |items| && forall i :: 0 <= i < |r| ==> r[i] == Photo(items[i])
  {
    if isLoading then seq(SkeletonCount, i requires 0 <= i => Skeleton(i))
    else seq(|items|, i requires 0 <= i < |items| => Photo(items[i]))
  }

  class PortfolioGallery {
    var filteredItems: seq<GalleryItem>
    var activeFilter: FilterCategory
    var isLoading: bool

    /** The shown list is always the one the active filter calls for. */
    ghost predicate Valid()
      reads this
    {
      filteredItems == Filtered(activeFilter)
    }

    constructor ()
      ensures Valid()
      ensures filteredItems == GalleryItems && activeFilter == All && isLoading
    {
      filteredItems := GalleryItems;
      activeFilter := All;
      isLoading := true;
    }

    /** `handleFilterChange`: make `c` the active filter and show what it
        selects from the static list, whatever was shown before. */
    method HandleFilterChange(c: FilterCategory)
      requires Valid()
      modifies this
      ensures Valid()
      ensures activeFilter == c
      ensures filteredItems == Filtered(c)
      ensures isLoading == old(isLoading)
    {
      activeFilter := c;
      if c == All {
        filteredItems := GalleryItems;
      } else {
        filteredItems := FilterBy(GalleryItems, c);
      }
    }

    /** The loading timer has run out. */
    method LoadingFinished()
      requires Valid()
      modifies this
      ensures Valid()
      ensures !isLoading
      ensures filteredItems == old(filteredItems) && activeFilter == old(activeFilter)
    {
      isLoading := false;
    }

    /** The cells on screen: the placeholders while loading, afterwards one
        photo per picture the active filter selects, in order. */
    function Displayed(): (r: seq<Tile>)
      requires Valid()
      reads this
      ensures isLoading ==> |r| == SkeletonCount && forall i :: 0 <= i < |r| ==> r[i] == Skeleton(i)
      ensures !isLoading ==>
        |r| == |Filtered(activeFilter)| && forall i :: 0 <= i < |r| ==> r[i] == Photo(Filtered(activeFilter)[i])
    {
      Grid(isLoading, filteredItems)
    }
  }

  /** Two filter changes in a row leave the state one change would: the
      earlier choice leaves no trace, and repeating a choice changes
      nothing. */
  method FilterTwice(g: PortfolioGallery, first: FilterCategory, second: FilterCategory)
    requires g.Valid()
    modifies g
    ensures g.Valid()
    ensures g.activeFilter == second && g.filteredItems == Filtered(second)
    ensures g.isLoading == old(g.isLoading)
  {
    g.HandleFilterChange(first);
    g.HandleFilterChange(second);
  }
}
