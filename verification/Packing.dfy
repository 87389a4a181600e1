/** The two-pass packing of one breakpoint: keep stored boxes that do not clash, then first fit. */
module Packing {
  import opened Options
  import opened Grid
  import Sorting

  /** One card at one breakpoint: its parsed stored box, its default size and the sizes it may take. */
  datatype Item = Item(id: nat, stored: Option<Box>, size: (int, int), sizes: set<(int, int)>)

  predicate ValidBox(box: Box, sizes: set<(int, int)>, columns: int) {
    && 0 <= box.x && 0 <= box.y <= MAX_LAYOUT_Y && 0 < box.w && 0 < box.h
    && box.x + box.w <= columns
    && (box.w, box.h) in sizes
  }

  /** What the parser and the size tables guarantee of every item. */
  predicate SoundItem(item: Item, columns: int) {
    && (item.stored.Some? ==> ValidBox(item.stored.value, item.sizes, columns))
    && item.size in item.sizes
    && 0 < item.size.0 <= columns && 0 < item.size.1 <= 3
    && forall size | size in item.sizes :: size.1 <= 4
  }

  ghost predicate DistinctItems(items: seq<Item>) {
    forall i, j | 0 <= i < j < |items| :: items[i].id != items[j].id
  }

  ghost predicate Wellformed(items: seq<Item>, columns: int) {
    && DistinctItems(items)
    && forall i | 0 <= i < |items| :: SoundItem(items[i], columns)
  }

  predicate Clashes(box: Box, placed: map<nat, Box>) {
    exists id | id in placed :: Overlaps(box, placed[id])
  }

  /** First pass over the first n items. */
  function Keep(items: seq<Item>, n: nat): map<nat, Box>
    requires n <= |items|
  {
    if n == 0 then map[]
    else
      var kept := Keep(items, n - 1);
      var stored := items[n - 1].stored;
      if stored.Some? && !Clashes(stored.value, kept) then kept[items[n - 1].id := stored.value] else kept
  }

  /** Second pass over the first n items; `None` when a search fails. */
  ghost function Fill(items: seq<Item>, columns: int, n: nat): Option<map<nat, Box>>
    requires n <= |items|
  {
    if n == 0 then Some(Keep(items, |items|))
    else
      match Fill(items, columns, n - 1)
      case None => None
      case Some(placed) =>
        var item := items[n - 1];
        if item.id in placed then Some(placed)
        else
          match FirstAvailable(columns, item.size.0, item.size.1, placed.Values)
          case None => None
          case Some(box) => Some(placed[item.id := box])
  }

  ghost function Place(items: seq<Item>, columns: int): Option<map<nat, Box>> {
    Fill(items, columns, |items|)
  }

  method PlaceItems(items: seq<Item>, columns: int) returns (r: Option<map<nat, Box>>)
    ensures r == Place(items, columns)
  {
    var placed: map<nat, Box> := map[];
    for n := 0 to |items|
      invariant placed == Keep(items, n)
    {
      var stored := items[n].stored;
      if stored.Some? {
        if !Clashes(stored.value, placed) {
          placed := placed[items[n].id := stored.value];
        }
      }
    }
    for n := 0 to |items|
      invariant Fill(items, columns, n) == Some(placed)
    {
      var item := items[n];
      if item.id !in placed {
        var occupied := BoxList(placed);
        assert (set o | o in occupied) == placed.Values;
        var found := FirstAvailableCoordinates(columns, item.size.0, item.size.1, occupied);
        if found.None? {
          FillFails(items, columns, n + 1, |items|);
          return None;
        }
        placed := placed[item.id := found.value];
      }
    }
    return Some(placed);
  }

  /** The values of the dictionary as a list. */
  method BoxList(placed: map<nat, Box>) returns (boxes: seq<Box>)
    ensures forall o :: o in boxes <==> o in placed.Values
  {
    boxes := [];
    var rest := placed.Values;
    while rest != {}
      invariant rest <= placed.Values
      invariant forall o :: o in placed.Values <==> o in rest || o in boxes
      decreases |rest|
    {
      var o :| o in rest;
      boxes := boxes + [o];
      rest := rest - {o};
    }
  }

  lemma {:induction false} FillFails(items: seq<Item>, columns: int, n: nat, m: nat)
    requires n <= m <= |items| && Fill(items, columns, n).None?
    ensures Fill(items, columns, m).None?
    decreases m - n
  {
    if n < m {
      FillFails(items, columns, n + 1, m);
    }
  }

  lemma {:induction false} FillGrows(items: seq<Item>, columns: int, n: nat, m: nat)
    requires n <= m <= |items| && Fill(items, columns, m).Some?
    ensures Fill(items, columns, n).Some? && Fill(items, columns, n).value.Keys <= Fill(items, columns, m).value.Keys
    decreases m
  {
    if n < m {
      FillGrows(items, columns, n, m - 1);
    }
  }

  lemma FillCovers(items: seq<Item>, columns: int, i: nat)
    requires i < |items| && Place(items, columns).Some?
    ensures items[i].id in Place(items, columns).value
  {
    FillGrows(items, columns, i + 1, |items|);
  }

  // ----- what both passes keep

  ghost function Ids(items: seq<Item>): set<nat> {
    set i | 0 <= i < |items| :: items[i].id
  }

  /** Every placed item is in bounds with an allowed size, and no two placed boxes overlap. */
  ghost predicate Packed(items: seq<Item>, columns: int, placed: map<nat, Box>) {
    && placed.Keys <= Ids(items)
    && (forall i | 0 <= i < |items| && items[i].id in placed :: ValidBox(placed[items[i].id], items[i].sizes, columns))
    && (forall id, other | id in placed && other in placed && id != other :: !Overlaps(placed[id], placed[other]))
  }

  lemma OverlapsSymmetric(a: Box, b: Box)
    ensures Overlaps(a, b) == Overlaps(b, a)
  {
  }

  lemma Extend(items: seq<Item>, columns: int, placed: map<nat, Box>, n: nat, box: Box)
    requires Wellformed(items, columns) && n < |items| && Packed(items, columns, placed)
    requires items[n].id !in placed && ValidBox(box, items[n].sizes, columns) && !Clashes(box, placed)
    ensures Packed(items, columns, placed[items[n].id := box])
  {
    var extended := placed[items[n].id := box];
    forall i | 0 <= i < |items| && items[i].id in extended
      ensures ValidBox(extended[items[i].id], items[i].sizes, columns)
    {
      if i != n {
        assert items[i].id != items[n].id;
      }
    }
    forall id, other | id in extended && other in extended && id != other
      ensures !Overlaps(extended[id], extended[other])
    {
      OverlapsSymmetric(extended[id], extended[other]);
    }
  }

  lemma {:induction false} KeepPacked(items: seq<Item>, columns: int, n: nat)
    requires Wellformed(items, columns) && n <= |items|
    ensures Packed(items, columns, Keep(items, n))
  {
    if n > 0 {
      KeepPacked(items, columns, n - 1);
      var kept := Keep(items, n - 1);
      var stored := items[n - 1].stored;
      if stored.Some? && !Clashes(stored.value, kept) {
        KeepIds(items, n - 1);
        Extend(items, columns, kept, n - 1, stored.value);
      }
    }
  }

  lemma {:induction false} KeepIds(items: seq<Item>, n: nat)
    requires n <= |items|
    ensures forall id | id in Keep(items, n) :: exists i :: 0 <= i < n && items[i].id == id
  {
    if n > 0 {
      KeepIds(items, n - 1);
    }
  }

  lemma {:induction false} FillPacked(items: seq<Item>, columns: int, n: nat)
    requires Wellformed(items, columns) && n <= |items| && Fill(items, columns, n).Some?
    ensures Packed(items, columns, Fill(items, columns, n).value)
  {
    if n == 0 {
      KeepPacked(items, columns, |items|);
    } else {
      FillPacked(items, columns, n - 1);
      var placed := Fill(items, columns, n - 1).value;
      if items[n - 1].id !in placed {
        FitsBeside(items, columns, placed, n - 1);
      }
    }
  }

  lemma FitsBeside(items: seq<Item>, columns: int, placed: map<nat, Box>, n: nat)
    requires Wellformed(items, columns) && n < |items| && Packed(items, columns, placed) && items[n].id !in placed
    requires FirstAvailable(columns, items[n].size.0, items[n].size.1, placed.Values).Some?
    ensures Packed(items, columns,
              placed[items[n].id := FirstAvailable(columns, items[n].size.0, items[n].size.1, placed.Values).value])
  {
    var box := FirstAvailable(columns, items[n].size.0, items[n].size.1, placed.Values).value;
    assert Free(box, columns, items[n].size.0, items[n].size.1, placed.Values);
    assert !Clashes(box, placed) by {
      assert forall id | id in placed :: placed[id] in placed.Values;
    }
    Extend(items, columns, placed, n, box);
  }

  /** The second pass moves nothing that the first pass kept. */
  lemma {:induction false} FillKeeps(items: seq<Item>, columns: int, n: nat)
    requires n <= |items| && Fill(items, columns, n).Some?
    ensures forall id | id in Keep(items, |items|) ::
              id in Fill(items, columns, n).value && Fill(items, columns, n).value[id] == Keep(items, |items|)[id]
  {
    if n > 0 {
      FillKeeps(items, columns, n - 1);
    }
  }

  /** What is placed when the second pass comes to item i: the kept boxes, and the items before it. */
  ghost function Before(items: seq<Item>, i: nat): set<nat>
    requires i <= |items|
  {
    Keep(items, |items|).Keys + set j | 0 <= j < i :: items[j].id
  }

  lemma {:induction false} FillBoxes(items: seq<Item>, columns: int, i: nat, n: nat)
    requires i <= n <= |items| && Fill(items, columns, n).Some?
    ensures Fill(items, columns, i).Some? && Fill(items, columns, i).value.Keys == Before(items, i)
    ensures forall id | id in Before(items, i) ::
              id in Fill(items, columns, n).value
              && Fill(items, columns, i).value[id] == Fill(items, columns, n).value[id]
    decreases n
  {
    if i < n {
      FillBoxes(items, columns, i, n - 1);
    } else if i > 0 {
      FillBoxes(items, columns, i - 1, i - 1);
      assert Before(items, i) == Before(items, i - 1) + {items[i - 1].id};
    } else {
      assert Before(items, 0) == Keep(items, |items|).Keys;
    }
  }

  lemma NotBefore(items: seq<Item>, i: nat)
    requires DistinctItems(items) && i < |items| && items[i].id !in Keep(items, |items|)
    ensures items[i].id !in Before(items, i) && items[i].id in Before(items, i + 1)
  {
  }

  lemma FillStep(items: seq<Item>, columns: int, i: nat, before: map<nat, Box>)
    requires i < |items| && Fill(items, columns, i) == Some(before) && items[i].id !in before
    requires Fill(items, columns, i + 1).Some?
    ensures items[i].id in Fill(items, columns, i + 1).value
    ensures FirstFree(Fill(items, columns, i + 1).value[items[i].id], columns, items[i].size.0, items[i].size.1,
                      before.Values)
  {
  }

  /** An item that does not keep a stored box gets its default size, at the first position in reading order that is
      free of the kept boxes and of the items placed before it. */
  lemma FilledFirstFit(items: seq<Item>, columns: int, i: nat)
    requires DistinctItems(items) && i < |items| && Place(items, columns).Some?
    requires items[i].id !in Keep(items, |items|)
    ensures Before(items, i) <= Place(items, columns).value.Keys && items[i].id in Place(items, columns).value
    ensures var placed := Place(items, columns).value;
            FirstFree(placed[items[i].id], columns, items[i].size.0, items[i].size.1,
                      set id | id in Before(items, i) :: placed[id])
  {
    FillBoxes(items, columns, i, |items|);
    FillBoxes(items, columns, i + 1, |items|);
    NotBefore(items, i);
    var before := Fill(items, columns, i).value;
    FillStep(items, columns, i, before);
    AmongPlaced(items[i], columns, before, Fill(items, columns, i + 1).value, Place(items, columns).value);
  }

  lemma AmongPlaced(item: Item, columns: int, before: map<nat, Box>, next: map<nat, Box>, placed: map<nat, Box>)
    requires forall id | id in before :: id in placed && before[id] == placed[id]
    requires item.id in next && item.id in placed && next[item.id] == placed[item.id]
    requires FirstFree(next[item.id], columns, item.size.0, item.size.1, before.Values)
    ensures FirstFree(placed[item.id], columns, item.size.0, item.size.1, set id | id in before.Keys :: placed[id])
  {
    ValuesAre(before, placed);
  }

  lemma ValuesAre(part: map<nat, Box>, placed: map<nat, Box>)
    requires forall id | id in part :: id in placed && part[id] == placed[id]
    ensures part.Values == set id | id in part.Keys :: placed[id]
  {
    assert forall o | o in part.Values :: exists id :: id in part && part[id] == o;
  }

  /** An item keeps its stored box exactly when it has one that clashes with no earlier kept item. */
  lemma {:induction false} KeptExactly(items: seq<Item>, n: nat, i: nat)
    requires DistinctItems(items) && i < n <= |items|
    ensures (items[i].id in Keep(items, n)) ==
            (items[i].stored.Some? && !Clashes(items[i].stored.value, Keep(items, i)))
    ensures items[i].id in Keep(items, n) ==> items[i].stored == Some(Keep(items, n)[items[i].id])
  {
    KeepIds(items, n - 1);
    assert forall j | 0 <= j < n - 1 :: items[j].id != items[n - 1].id;
    if i < n - 1 {
      KeptExactly(items, n - 1, i);
    }
  }

  /** What an item clashes with is the boxes of the earlier items among all kept ones. */
  lemma {:induction false} KeptSoFar(items: seq<Item>, n: nat, i: nat)
    requires DistinctItems(items) && i <= n <= |items|
    ensures forall j | 0 <= j < i :: items[j].id in Keep(items, i) <==> items[j].id in Keep(items, n)
    ensures forall id | id in Keep(items, i) :: id in Keep(items, n) && Keep(items, n)[id] == Keep(items, i)[id]
  {
    if i < n {
      KeptSoFar(items, n - 1, i);
      KeepIds(items, n - 1);
      assert forall j | 0 <= j < n - 1 :: items[j].id != items[n - 1].id;
    }
  }

  // ----- success

  lemma {:induction false} IdCount(items: seq<Item>)
    ensures |Ids(items)| <= |items|
  {
    if items == [] {
      assert Ids(items) == {};
    } else {
      var front, last := items[..|items| - 1], items[|items| - 1];
      IdCount(front);
      assert Ids(items) == Ids(front) + {last.id};
    }
  }

  /** While six rows per other item fit the grid, the search succeeds for every item, and places it
      no lower than that. */
  lemma {:induction false} FillSucceeds(items: seq<Item>, columns: int, n: nat)
    requires Wellformed(items, columns) && n <= |items| && 6 * (|items| - 1) <= MAX_LAYOUT_Y
    ensures Fill(items, columns, n).Some?
    ensures forall id | id in Fill(items, columns, n).value && id !in Keep(items, |items|) ::
              Fill(items, columns, n).value[id].y <= 6 * (|items| - 1)
  {
    if n > 0 {
      FillSucceeds(items, columns, n - 1);
      FillPacked(items, columns, n - 1);
      var placed := Fill(items, columns, n - 1).value;
      if items[n - 1].id !in placed {
        RoomForOneMore(items, columns, placed, n - 1);
      }
    }
  }

  lemma RoomForOneMore(items: seq<Item>, columns: int, placed: map<nat, Box>, n: nat)
    requires Wellformed(items, columns) && n < |items| && 6 * (|items| - 1) <= MAX_LAYOUT_Y
    requires Packed(items, columns, placed) && items[n].id !in placed
    ensures var r := FirstAvailable(columns, items[n].size.0, items[n].size.1, placed.Values);
            r.Some? && r.value.y <= 6 * (|items| - 1)
  {
    IdCount(items);
    assert items[n].id in Ids(items);
    Sorting.SubsetSize(placed.Keys, Ids(items) - {items[n].id});
    assert |placed| == |placed.Keys|;
    forall id | id in placed ensures 0 < placed[id].h <= 4 {
      var i :| 0 <= i < |items| && items[i].id == id;
      assert ValidBox(placed[id], items[i].sizes, columns);
    }
    FirstFitBound(columns, items[n].size.0, items[n].size.1, placed);
  }

  /** Stored boxes that do not clash pairwise are all kept, and nothing else is placed. */
  lemma {:induction false} KeepsAll(items: seq<Item>, columns: int, n: nat)
    requires Wellformed(items, columns) && n <= |items|
    requires forall i | 0 <= i < |items| :: items[i].stored.Some?
    requires forall i, j | 0 <= i < j < |items| :: !Overlaps(items[i].stored.value, items[j].stored.value)
    ensures forall i | 0 <= i < n ::
              items[i].id in Keep(items, n) && Keep(items, n)[items[i].id] == items[i].stored.value
    ensures forall id | id in Keep(items, n) :: exists i :: 0 <= i < n && items[i].id == id
  {
    if n > 0 {
      KeepsAll(items, columns, n - 1);
      var kept := Keep(items, n - 1);
      forall id | id in kept ensures !Overlaps(items[n - 1].stored.value, kept[id]) {
        var i :| 0 <= i < n - 1 && items[i].id == id;
        OverlapsSymmetric(items[n - 1].stored.value, items[i].stored.value);
      }
    }
  }

  lemma {:induction false} FillIdle(items: seq<Item>, columns: int, n: nat)
    requires n <= |items| && forall i | 0 <= i < |items| :: items[i].id in Keep(items, |items|)
    ensures Fill(items, columns, n) == Some(Keep(items, |items|))
  {
    if n > 0 {
      FillIdle(items, columns, n - 1);
    }
  }

  /** Stored boxes without overlaps are exactly what is placed. */
  lemma PlaceKeepsAll(items: seq<Item>, columns: int, boxes: map<nat, Box>)
    requires Wellformed(items, columns) && boxes.Keys == Ids(items)
    requires forall i | 0 <= i < |items| :: items[i].id in boxes && items[i].stored == Some(boxes[items[i].id])
    requires forall id, other | id in boxes && other in boxes && id != other :: !Overlaps(boxes[id], boxes[other])
    ensures Place(items, columns) == Some(boxes)
  {
    forall i, j | 0 <= i < j < |items| ensures !Overlaps(items[i].stored.value, items[j].stored.value) {
      assert items[i].id != items[j].id;
    }
    KeepsAll(items, columns, |items|);
    FillIdle(items, columns, |items|);
    assert Keep(items, |items|).Keys == Ids(items);
    assert Keep(items, |items|) == boxes;
  }
}
