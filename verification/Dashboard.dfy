/** Stored dashboard layouts: the parser, the size policy and the two-pass normaliser. */
module Dashboard {
  import opened Options
  import opened Grid
  import opened Packing
  import Sorting

  datatype Breakpoint = Desktop | Tablet | Mobile

  function Columns(b: Breakpoint): int {
    match b
    case Desktop => 12
    case Tablet => 6
    case Mobile => 1
  }

  datatype VisualType = Kpi | Table | Bar | Line | Area | Donut | SemicircleGauge | StackedBar | StatusList

  function SizePolicy(v: VisualType, b: Breakpoint): set<(int, int)> {
    match v
    case Kpi => (
      match b
      case Desktop => {(3, 1), (4, 1), (6, 1)}
      case Tablet => {(3, 1), (4, 1), (6, 1)}
      case Mobile => {(1, 1), (1, 2)})
    case Donut => RoundSizes(b)
    case SemicircleGauge => RoundSizes(b)
    case Table => (
      match b
      case Desktop => {(4, 2), (4, 3), (4, 4), (6, 2), (6, 3), (6, 4), (8, 2), (8, 3), (8, 4), (12, 2), (12, 3),
                       (12, 4)}
      case Tablet => {(3, 2), (3, 3), (3, 4), (4, 2), (4, 3), (4, 4), (6, 2), (6, 3), (6, 4)}
      case Mobile => {(1, 2), (1, 3), (1, 4)})
    case StatusList => (
      match b
      case Desktop => {(4, 2), (4, 3), (6, 2), (6, 3), (8, 2), (8, 3), (8, 4), (12, 4)}
      case Tablet => {(4, 2), (4, 3), (6, 2), (6, 3), (6, 4)}
      case Mobile => {(1, 2), (1, 3)})
    case _ => (
      match b
      case Desktop => {(4, 2), (4, 3), (6, 2), (6, 3), (6, 4), (8, 2), (8, 3), (8, 4), (12, 2), (12, 3), (12, 4)}
      case Tablet => {(3, 2), (3, 3), (4, 2), (4, 3), (6, 2), (6, 3), (6, 4)}
      case Mobile => {(1, 2), (1, 3)})
  }

  function RoundSizes(b: Breakpoint): set<(int, int)> {
    if b.Mobile? then {(1, 2), (1, 3)} else {(3, 2), (3, 3), (4, 2), (4, 3), (6, 2), (6, 3)}
  }

  function DefaultSize(v: VisualType, b: Breakpoint): (int, int) {
    match v
    case Kpi => if b.Mobile? then (1, 1) else (3, 1)
    case Donut => if b.Mobile? then (1, 2) else (3, 2)
    case SemicircleGauge => if b.Mobile? then (1, 2) else (3, 2)
    case Table => if b.Mobile? then (1, 3) else (6, 3)
    case StatusList => if b.Mobile? then (1, 2) else (4, 2)
    case _ => if b.Mobile? then (1, 2) else (6, 2)
  }

  /** Every default is one of the type's own sizes, fits the grid, and no size is taller than four rows. */
  lemma SizeTables(v: VisualType, b: Breakpoint)
    ensures DefaultSize(v, b) in SizePolicy(v, b)
    ensures 0 < DefaultSize(v, b).0 <= Columns(b) && 0 < DefaultSize(v, b).1 <= 3
    ensures forall size | size in SizePolicy(v, b) :: 0 < size.0 <= Columns(b) && 0 < size.1 <= 4
    ensures b.Mobile? ==> forall size | size in SizePolicy(v, b) :: size.0 == 1
  {
  }

  // ----- stored layout JSON

  datatype Field = Version | At(b: Breakpoint) | X | Y | W | H | OtherField(name: string)

  datatype Json = Null | Bool(b: bool) | Int(i: int) | Float(r: real) | Text(s: string) | List(items: seq<Json>)
    | Dict(fields: map<Field, Json>)

  datatype Layout = Layout(desktop: Box, tablet: Box, mobile: Box) {
    function On(b: Breakpoint): Box {
      match b
      case Desktop => desktop
      case Tablet => tablet
      case Mobile => mobile
    }
  }

  function ParseCoordinates(value: Json, columns: int, mobile: bool): Option<Box> {
    if !value.Dict? || value.fields.Keys != {X, Y, W, H} then None
    else if exists f | f in value.fields :: !value.fields[f].Int? then None
    else
      var box := Box(value.fields[X].i, value.fields[Y].i, value.fields[W].i, value.fields[H].i);
      if box.x < 0 || box.y < 0 || box.y > MAX_LAYOUT_Y then None
      else if box.w <= 0 || box.h <= 0 then None
      else if box.x + box.w > columns then None
      else if mobile && (box.x != 0 || box.w != 1) then None
      else Some(box)
  }

  function ParseAt(value: Json, v: VisualType, b: Breakpoint): Option<Box>
    requires value.Dict? && At(b) in value.fields
  {
    var parsed := ParseCoordinates(value.fields[At(b)], Columns(b), b.Mobile?);
    if parsed.Some? && (parsed.value.w, parsed.value.h) in SizePolicy(v, b) then parsed else None
  }

  function ParseLayout(value: Json, v: VisualType): Option<Layout> {
    if !value.Dict? || value.fields.Keys != {Version, At(Desktop), At(Tablet), At(Mobile)} then None
    else if value.fields[Version] != Int(1) && value.fields[Version] != Float(1.0) then None
    else
      var desktop := ParseAt(value, v, Desktop);
      var tablet := ParseAt(value, v, Tablet);
      var mobile := ParseAt(value, v, Mobile);
      if desktop.Some? && tablet.Some? && mobile.Some?
      then Some(Layout(desktop.value, tablet.value, mobile.value))
      else None
  }

  function CoordinatesJson(box: Box): Json {
    Dict(map[X := Int(box.x), Y := Int(box.y), W := Int(box.w), H := Int(box.h)])
  }

  function PersistedLayout(layout: Layout): Json {
    Dict(map[Version := Int(1),
             At(Desktop) := CoordinatesJson(layout.desktop),
             At(Tablet) := CoordinatesJson(layout.tablet),
             At(Mobile) := CoordinatesJson(layout.mobile)])
  }

  /** In bounds of the breakpoint's grid, with a size the type allows there. */
  predicate ValidAt(box: Box, v: VisualType, b: Breakpoint) {
    ValidBox(box, SizePolicy(v, b), Columns(b))
  }

  /** The grids are twelve, six and one columns wide and no box starts below row 10000. */
  lemma ValidBounds(box: Box, v: VisualType, b: Breakpoint)
    requires ValidAt(box, v, b)
    ensures 0 <= box.x && 0 <= box.y <= 10_000 && 0 < box.w && 0 < box.h <= 4
    ensures box.x + box.w <= match b { case Desktop => 12 case Tablet => 6 case Mobile => 1 }
    ensures b.Mobile? ==> box.x == 0 && box.w == 1
  {
    SizeTables(v, b);
  }

  predicate ValidLayout(layout: Layout, v: VisualType) {
    forall b: Breakpoint :: ValidAt(layout.On(b), v, b)
  }

  lemma PersistedCoordinates(box: Box, v: VisualType, b: Breakpoint)
    ensures (ParseCoordinates(CoordinatesJson(box), Columns(b), b.Mobile?).Some? && (box.w, box.h) in SizePolicy(v, b))
            == ValidAt(box, v, b)
    ensures ParseCoordinates(CoordinatesJson(box), Columns(b), b.Mobile?).Some?
            ==> ParseCoordinates(CoordinatesJson(box), Columns(b), b.Mobile?).value == box
  {
    SizeTables(v, b);
    assert CoordinatesJson(box).fields.Keys == {X, Y, W, H};
  }

  /** Storing a layout and parsing it back returns it, exactly for the valid layouts. */
  lemma PersistRoundTrip(layout: Layout, v: VisualType)
    ensures ParseLayout(PersistedLayout(layout), v) == (if ValidLayout(layout, v) then Some(layout) else None)
  {
    var json := PersistedLayout(layout);
    assert json.fields.Keys == {Version, At(Desktop), At(Tablet), At(Mobile)};
    PersistedCoordinates(layout.desktop, v, Desktop);
    PersistedCoordinates(layout.tablet, v, Tablet);
    PersistedCoordinates(layout.mobile, v, Mobile);
    ValidEverywhere(layout, v);
  }

  lemma ValidEverywhere(layout: Layout, v: VisualType)
    ensures ValidLayout(layout, v)
            == (ValidAt(layout.desktop, v, Desktop) && ValidAt(layout.tablet, v, Tablet)
                && ValidAt(layout.mobile, v, Mobile))
  {
    if ValidLayout(layout, v) {
      assert ValidAt(layout.On(Desktop), v, Desktop);
      assert ValidAt(layout.On(Tablet), v, Tablet);
      assert ValidAt(layout.On(Mobile), v, Mobile);
    } else {
      var b: Breakpoint :| !ValidAt(layout.On(b), v, b);
      match b
      case Desktop =>
      case Tablet =>
      case Mobile =>
    }
  }

  /** The parser lets nothing through but valid layouts, whatever the stored value is. */
  lemma ParsedIsValid(value: Json, v: VisualType)
    requires ParseLayout(value, v).Some?
    ensures ValidLayout(ParseLayout(value, v).value, v)
  {
    var layout := ParseLayout(value, v).value;
    ValidEverywhere(layout, v);
  }

  lemma CoordinatesExactly(value: Json, v: VisualType, b: Breakpoint, box: Box)
    ensures ParseCoordinates(value, Columns(b), b.Mobile?) == Some(box) && (box.w, box.h) in SizePolicy(v, b) <==>
            value == CoordinatesJson(box) && ValidAt(box, v, b)
  {
    SizeTables(v, b);
    if ParseCoordinates(value, Columns(b), b.Mobile?) == Some(box) {
      assert value.fields == CoordinatesJson(box).fields;
    } else if value == CoordinatesJson(box) {
      PersistedCoordinates(box, v, b);
    }
  }

  /** The stored form of a layout, but for the version, which may also be the same number with a decimal point. */
  predicate StoredAs(value: Json, layout: Layout) {
    && value.Dict? && value.fields.Keys == {Version, At(Desktop), At(Tablet), At(Mobile)}
    && (value.fields[Version] == Int(1) || value.fields[Version] == Float(1.0))
    && value.fields[At(Desktop)] == CoordinatesJson(layout.desktop)
    && value.fields[At(Tablet)] == CoordinatesJson(layout.tablet)
    && value.fields[At(Mobile)] == CoordinatesJson(layout.mobile)
  }

  lemma ParsedAtExactly(value: Json, v: VisualType, b: Breakpoint, box: Box)
    requires value.Dict? && At(b) in value.fields
    ensures ParseAt(value, v, b) == Some(box) <==> value.fields[At(b)] == CoordinatesJson(box) && ValidAt(box, v, b)
  {
    CoordinatesExactly(value.fields[At(b)], v, b, box);
  }

  /** What parses to a layout is exactly the stored form of that layout, and the layout is valid. */
  lemma ParsedExactly(value: Json, v: VisualType, layout: Layout)
    ensures ParseLayout(value, v) == Some(layout) <==> ValidLayout(layout, v) && StoredAs(value, layout)
  {
    ValidEverywhere(layout, v);
    if value.Dict? && value.fields.Keys == {Version, At(Desktop), At(Tablet), At(Mobile)} {
      ParsedAtExactly(value, v, Desktop, layout.desktop);
      ParsedAtExactly(value, v, Tablet, layout.tablet);
      ParsedAtExactly(value, v, Mobile, layout.mobile);
      ParsedParts(value, v, layout);
    }
  }

  lemma ParsedParts(value: Json, v: VisualType, layout: Layout)
    requires value.Dict? && value.fields.Keys == {Version, At(Desktop), At(Tablet), At(Mobile)}
    ensures ParseLayout(value, v) == Some(layout) <==>
            && (value.fields[Version] == Int(1) || value.fields[Version] == Float(1.0))
            && ParseAt(value, v, Desktop) == Some(layout.desktop) && ParseAt(value, v, Tablet) == Some(layout.tablet)
            && ParseAt(value, v, Mobile) == Some(layout.mobile)
  {
  }

  // ----- normalisation

  /** A dashboard card with its visualization type already resolved; ids are primary keys. */
  datatype Card = Card(id: nat, position: int, createdAt: int, visual: VisualType, layout: Json) {
    function Parsed(): Option<Layout> {
      ParseLayout(layout, visual)
    }
  }

  predicate CardLe(a: Card, b: Card) {
    a.position < b.position
    || (a.position == b.position
        && (a.createdAt < b.createdAt || (a.createdAt == b.createdAt && a.id <= b.id)))
  }

  ghost predicate DistinctIds(cards: seq<Card>) {
    forall i, j | 0 <= i < j < |cards| :: cards[i].id != cards[j].id
  }

  /** A card as the packing of one breakpoint sees it. */
  function ItemOf(card: Card, b: Breakpoint): Item {
    var parsed := card.Parsed();
    Item(card.id, if parsed.Some? then Some(parsed.value.On(b)) else None,
         DefaultSize(card.visual, b), SizePolicy(card.visual, b))
  }

  function Items(cards: seq<Card>, b: Breakpoint): seq<Item> {
    seq(|cards|, i requires 0 <= i < |cards| => ItemOf(cards[i], b))
  }

  lemma ItemIsSound(card: Card, b: Breakpoint)
    ensures SoundItem(ItemOf(card, b), Columns(b))
  {
    SizeTables(card.visual, b);
    if card.Parsed().Some? {
      ParsedIsValid(card.layout, card.visual);
      assert ValidAt(card.Parsed().value.On(b), card.visual, b);
    }
  }

  lemma ItemsWellformed(cards: seq<Card>, b: Breakpoint)
    requires DistinctIds(cards)
    ensures Wellformed(Items(cards, b), Columns(b))
  {
    forall i | 0 <= i < |cards| ensures SoundItem(Items(cards, b)[i], Columns(b)) {
      ItemIsSound(cards[i], b);
    }
    forall i, j | 0 <= i < j < |cards| ensures Items(cards, b)[i].id != Items(cards, b)[j].id {
      assert cards[i].id != cards[j].id;
    }
  }

  ghost function CardIds(cards: seq<Card>): set<nat> {
    set i | 0 <= i < |cards| :: cards[i].id
  }

  ghost function PlaceAt(cards: seq<Card>, b: Breakpoint): Option<map<nat, Box>> {
    Place(Items(Sorting.Sort(CardLe, cards), b), Columns(b))
  }

  /** The whole normalisation; `None` is the ValueError of a search that finds nothing. */
  ghost function Normalize(cards: seq<Card>): Option<map<nat, Layout>> {
    var desktop, tablet, mobile := PlaceAt(cards, Desktop), PlaceAt(cards, Tablet), PlaceAt(cards, Mobile);
    if desktop.Some? && tablet.Some? && mobile.Some?
    then Some(Assemble(CardIds(cards), desktop.value, tablet.value, mobile.value))
    else None
  }

  ghost function Assemble(ids: set<nat>, desktop: map<nat, Box>, tablet: map<nat, Box>,
                          mobile: map<nat, Box>): map<nat, Layout> {
    map id | id in ids && id in desktop && id in tablet && id in mobile :: Layout(desktop[id], tablet[id], mobile[id])
  }

  method NormalizeCardLayouts(cards: seq<Card>) returns (r: Option<map<nat, Layout>>)
    requires DistinctIds(cards)
    ensures r == Normalize(cards)
  {
    var ordered := Sorting.Sort(CardLe, cards);
    var desktop := PlaceItems(Items(ordered, Desktop), Columns(Desktop));
    if desktop.None? { return None; }
    var tablet := PlaceItems(Items(ordered, Tablet), Columns(Tablet));
    if tablet.None? { return None; }
    var mobile := PlaceItems(Items(ordered, Mobile), Columns(Mobile));
    if mobile.None? { return None; }
    PlacesEvery(cards, Desktop);
    PlacesEvery(cards, Tablet);
    PlacesEvery(cards, Mobile);
    SortedCards(cards);
    var normalized := AssembleLayouts(ordered, desktop.value, tablet.value, mobile.value);
    return Some(normalized);
  }

  method AssembleLayouts(cards: seq<Card>, desktop: map<nat, Box>, tablet: map<nat, Box>, mobile: map<nat, Box>)
    returns (normalized: map<nat, Layout>)
    requires desktop.Keys == tablet.Keys == mobile.Keys == CardIds(cards)
    ensures normalized == Assemble(CardIds(cards), desktop, tablet, mobile)
  {
    normalized := map[];
    for n := 0 to |cards|
      invariant normalized == Assemble(CardIds(cards[..n]), desktop, tablet, mobile)
    {
      var id := cards[n].id;
      assert id in CardIds(cards);
      assert CardIds(cards[..n + 1]) == CardIds(cards[..n]) + {id};
      normalized := normalized[id := Layout(desktop[id], tablet[id], mobile[id])];
    }
    assert cards[..|cards|] == cards;
  }

  /** Sorting rearranges the cards: same ids, still distinct. */
  lemma SortedCards(cards: seq<Card>)
    requires DistinctIds(cards)
    ensures var ordered := Sorting.Sort(CardLe, cards);
            && DistinctIds(ordered) && |ordered| == |cards| && CardIds(ordered) == CardIds(cards)
            && (forall c | c in ordered :: c in cards) && (forall c | c in cards :: c in ordered)
  {
    ShuffledCards(cards, Sorting.Sort(CardLe, cards));
  }

  lemma ShuffledCards(cards: seq<Card>, shuffled: seq<Card>)
    requires DistinctIds(cards) && multiset(shuffled) == multiset(cards)
    ensures DistinctIds(shuffled) && |shuffled| == |cards| && CardIds(shuffled) == CardIds(cards)
    ensures (forall c | c in shuffled :: c in cards) && (forall c | c in cards :: c in shuffled)
  {
    Sorting.SameElements(shuffled, cards);
    forall i, j | 0 <= i < j < |cards| ensures cards[i] != cards[j] {
      assert cards[i].id != cards[j].id;
    }
    Sorting.DistinctPermutation(cards, shuffled);
    forall i, j | 0 <= i < j < |shuffled| ensures shuffled[i].id != shuffled[j].id {
      assert shuffled[i] in cards && shuffled[j] in cards && shuffled[i] != shuffled[j];
    }
    forall id | id in CardIds(shuffled) ensures id in CardIds(cards) {
      var i :| 0 <= i < |shuffled| && shuffled[i].id == id;
      assert shuffled[i] in cards;
    }
    forall id | id in CardIds(cards) ensures id in CardIds(shuffled) {
      var i :| 0 <= i < |cards| && cards[i].id == id;
      assert cards[i] in shuffled;
    }
  }

  lemma PlacesEvery(cards: seq<Card>, b: Breakpoint)
    requires DistinctIds(cards) && PlaceAt(cards, b).Some?
    ensures PlaceAt(cards, b).value.Keys == CardIds(cards)
  {
    var ordered := Sorting.Sort(CardLe, cards);
    SortedCards(cards);
    ItemsWellformed(ordered, b);
    var items := Items(ordered, b);
    FillPacked(items, Columns(b), |items|);
    forall id | id in CardIds(cards) ensures id in PlaceAt(cards, b).value {
      var i :| 0 <= i < |ordered| && ordered[i].id == id;
      assert items[i].id == id;
      FillCovers(items, Columns(b), i);
    }
    forall id | id in Ids(items) ensures id in CardIds(ordered) {
      var i :| 0 <= i < |items| && items[i].id == id;
      assert ordered[i].id == id;
    }
  }

  // ----- main results

  ghost predicate LayoutsDoNotOverlap(layouts: map<nat, Layout>) {
    forall b: Breakpoint, id, other | id in layouts && other in layouts && id != other ::
      !Overlaps(layouts[id].On(b), layouts[other].On(b))
  }

  /** Every card gets, at every breakpoint, a valid box that overlaps no other card's. */
  lemma NormalizedIsPacked(cards: seq<Card>)
    requires DistinctIds(cards) && Normalize(cards).Some?
    ensures var layouts := Normalize(cards).value;
            && layouts.Keys == CardIds(cards)
            && (forall c | c in cards :: c.id in layouts && ValidLayout(layouts[c.id], c.visual))
            && LayoutsDoNotOverlap(layouts)
  {
    PlacedIsPacked(cards, Desktop);
    PlacedIsPacked(cards, Tablet);
    PlacedIsPacked(cards, Mobile);
    AssembledIsPacked(cards, PlaceAt(cards, Desktop).value, PlaceAt(cards, Tablet).value, PlaceAt(cards, Mobile).value);
  }

  lemma AssembledIsPacked(cards: seq<Card>, desktop: map<nat, Box>, tablet: map<nat, Box>, mobile: map<nat, Box>)
    requires PlacedWell(cards, Desktop, desktop) && PlacedWell(cards, Tablet, tablet)
             && PlacedWell(cards, Mobile, mobile)
    ensures var layouts := Assemble(CardIds(cards), desktop, tablet, mobile);
            && layouts.Keys == CardIds(cards)
            && (forall c | c in cards :: c.id in layouts && ValidLayout(layouts[c.id], c.visual))
            && LayoutsDoNotOverlap(layouts)
  {
    var layouts := Assemble(CardIds(cards), desktop, tablet, mobile);
    forall c, b: Breakpoint | c in cards ensures c.id in layouts && ValidAt(layouts[c.id].On(b), c.visual, b) {
      assert c.id in CardIds(cards);
      match b
      case Desktop =>
      case Tablet =>
      case Mobile =>
    }
    forall b: Breakpoint, id, other | id in layouts && other in layouts && id != other
      ensures !Overlaps(layouts[id].On(b), layouts[other].On(b))
    {
      match b
      case Desktop =>
      case Tablet =>
      case Mobile =>
    }
  }

  ghost predicate PlacedWell(cards: seq<Card>, b: Breakpoint, placed: map<nat, Box>) {
    && placed.Keys == CardIds(cards)
    && (forall c | c in cards && c.id in placed :: ValidAt(placed[c.id], c.visual, b))
    && (forall id, other | id in placed && other in placed && id != other :: !Overlaps(placed[id], placed[other]))
  }

  lemma PlacedIsPacked(cards: seq<Card>, b: Breakpoint)
    requires DistinctIds(cards) && PlaceAt(cards, b).Some?
    ensures PlacedWell(cards, b, PlaceAt(cards, b).value)
  {
    PlacesEvery(cards, b);
    var ordered := Sorting.Sort(CardLe, cards);
    SortedCards(cards);
    ItemsWellformed(ordered, b);
    var items := Items(ordered, b);
    FillPacked(items, Columns(b), |items|);
    var placed := PlaceAt(cards, b).value;
    forall c | c in cards && c.id in placed ensures ValidAt(placed[c.id], c.visual, b) {
      assert c in ordered;
      var i :| 0 <= i < |ordered| && ordered[i] == c;
      assert items[i] == ItemOf(c, b);
    }
  }

  /** The card at place i of the sorted order keeps its stored box at b exactly when it parses and
      clashes there with no earlier kept card; `Keep` is the set of kept boxes. */
  lemma CardKeptExactly(cards: seq<Card>, b: Breakpoint, i: nat)
    requires DistinctIds(cards) && i < |cards| && PlaceAt(cards, b).Some?
    ensures var ordered := Sorting.Sort(CardLe, cards);
            var kept := Keep(Items(ordered, b), |cards|);
            && |ordered| == |cards|
            && (ordered[i].id in kept <==>
                  && ordered[i].Parsed().Some?
                  && forall j | 0 <= j < i && ordered[j].id in kept ::
                       !Overlaps(ordered[i].Parsed().value.On(b), kept[ordered[j].id]))
            && (ordered[i].id in kept ==>
                  && ordered[i].Parsed().Some?
                  && ordered[i].id in PlaceAt(cards, b).value
                  && PlaceAt(cards, b).value[ordered[i].id] == ordered[i].Parsed().value.On(b))
  {
    var ordered := Sorting.Sort(CardLe, cards);
    SortedCards(cards);
    ItemsWellformed(ordered, b);
    var items := Items(ordered, b);
    assert forall j | 0 <= j < |items| :: items[j].id == ordered[j].id;
    KeptExactly(items, |items|, i);
    KeptSoFar(items, |items|, i);
    KeepIds(items, i);
    FillKeeps(items, Columns(b), |items|);
  }

  /** Earlier cards keep their place first: by position, then by age, then by id. */
  predicate Earlier(a: Card, b: Card) {
    if a.position != b.position then a.position < b.position
    else if a.createdAt != b.createdAt then a.createdAt < b.createdAt
    else a.id < b.id
  }

  lemma CardsTotal(cards: seq<Card>)
    requires DistinctIds(cards)
    ensures Sorting.TotalOn(CardLe, cards)
  {
    forall x, y | x in cards && y in cards && x.id == y.id ensures x == y {
      var i :| 0 <= i < |cards| && cards[i] == x;
      var j :| 0 <= j < |cards| && cards[j] == y;
    }
  }

  lemma OrderedByEarlier(cards: seq<Card>, i: nat, j: nat)
    requires DistinctIds(cards) && i < |cards| && j < |cards| && |Sorting.Sort(CardLe, cards)| == |cards|
    ensures Earlier(Sorting.Sort(CardLe, cards)[i], Sorting.Sort(CardLe, cards)[j]) <==> i < j
  {
    var ordered := Sorting.Sort(CardLe, cards);
    CardsTotal(cards);
    Sorting.SortSorted(CardLe, cards);
    SortedCards(cards);
    if i < j {
      assert CardLe(ordered[i], ordered[j]) && ordered[i].id != ordered[j].id;
    } else if j < i {
      assert CardLe(ordered[j], ordered[i]) && ordered[i].id != ordered[j].id;
    }
  }

  /** The cards that keep their stored box at a breakpoint. */
  ghost function KeptCards(cards: seq<Card>, b: Breakpoint): map<nat, Box> {
    var items := Items(Sorting.Sort(CardLe, cards), b);
    Keep(items, |items|)
  }

  /** Of cards whose stored boxes clash at a breakpoint the earlier one keeps its place: a card keeps its box exactly
      when it parses and clashes with no earlier card that keeps its own. */
  lemma EarlierKeepsPlace(cards: seq<Card>, b: Breakpoint, c: Card)
    requires DistinctIds(cards) && c in cards && PlaceAt(cards, b).Some?
    ensures var kept := KeptCards(cards, b);
            && (c.id in kept <==>
                  && c.Parsed().Some?
                  && forall d | d in cards && Earlier(d, c) && d.id in kept ::
                       !Overlaps(c.Parsed().value.On(b), kept[d.id]))
            && (c.id in kept ==> c.Parsed().Some? && kept[c.id] == c.Parsed().value.On(b)
                                 && c.id in PlaceAt(cards, b).value && PlaceAt(cards, b).value[c.id] == kept[c.id])
  {
    var ordered := Sorting.Sort(CardLe, cards);
    SortedCards(cards);
    var i :| 0 <= i < |ordered| && ordered[i] == c;
    CardKeptExactly(cards, b, i);
    if c.id in KeptCards(cards, b) {
      KeptAsStored(ordered, b, i);
    }
    forall d | d in cards ensures exists j :: 0 <= j < |ordered| && ordered[j] == d && (Earlier(d, c) <==> j < i) {
      var j :| 0 <= j < |ordered| && ordered[j] == d;
      OrderedByEarlier(cards, j, i);
    }
    forall j | 0 <= j < i ensures Earlier(ordered[j], c) {
      OrderedByEarlier(cards, j, i);
    }
  }

  /** A card that does not keep its place gets its type's default size, at the first position in reading order free of
      the kept cards and of the earlier ones. */
  lemma OthersFirstFit(cards: seq<Card>, b: Breakpoint, c: Card)
    requires DistinctIds(cards) && c in cards && PlaceAt(cards, b).Some? && c.id !in KeptCards(cards, b)
    ensures var placed := PlaceAt(cards, b).value;
            && placed.Keys == CardIds(cards) && c.id in placed
            && FirstFree(placed[c.id], Columns(b), DefaultSize(c.visual, b).0, DefaultSize(c.visual, b).1,
                         set d | d in cards && d.id in placed && (d.id in KeptCards(cards, b) || Earlier(d, c)) ::
                           placed[d.id])
  {
    PlacesEvery(cards, b);
    var ordered := Sorting.Sort(CardLe, cards);
    SortedCards(cards);
    var i :| 0 <= i < |ordered| && ordered[i] == c;
    ItemsWellformed(ordered, b);
    FilledFirstFit(Items(ordered, b), Columns(b), i);
    PlacedBefore(cards, b, i);
  }

  lemma InBefore(ordered: seq<Card>, b: Breakpoint, i: nat, j: nat)
    requires DistinctIds(ordered) && i < |ordered| && j < |ordered|
    ensures var items := Items(ordered, b);
            ordered[j].id in Packing.Before(items, i) <==> ordered[j].id in Keep(items, |items|) || j < i
  {
    var items := Items(ordered, b);
    assert forall k | 0 <= k < |items| :: items[k].id == ordered[k].id;
    if j < i {
      assert items[j].id == ordered[j].id;
    } else {
      assert forall k | 0 <= k < i :: ordered[k].id != ordered[j].id;
    }
  }

  lemma BeforeAreCards(ordered: seq<Card>, b: Breakpoint, i: nat)
    requires i < |ordered|
    ensures forall id | id in Packing.Before(Items(ordered, b), i) :: exists d :: d in ordered && d.id == id
  {
    var items := Items(ordered, b);
    KeepIds(items, |items|);
    forall id | id in Packing.Before(items, i) ensures exists d :: d in ordered && d.id == id {
      var k :| 0 <= k < |items| && items[k].id == id;
      assert ordered[k] in ordered && ordered[k].id == id;
    }
  }

  lemma BeforeMembers(cards: seq<Card>, b: Breakpoint, i: nat)
    requires DistinctIds(cards) && |Sorting.Sort(CardLe, cards)| == |cards| && i < |cards|
    ensures var ordered := Sorting.Sort(CardLe, cards);
            var before := Packing.Before(Items(ordered, b), i);
            && (forall d | d in cards :: d.id in before <==> d.id in KeptCards(cards, b) || Earlier(d, ordered[i]))
            && (forall id | id in before :: exists d :: d in cards && d.id == id)
  {
    var ordered := Sorting.Sort(CardLe, cards);
    SortedCards(cards);
    BeforeAreCards(ordered, b, i);
    forall d | d in cards
      ensures d.id in Packing.Before(Items(ordered, b), i) <==>
              d.id in KeptCards(cards, b) || Earlier(d, ordered[i])
    {
      var j :| 0 <= j < |ordered| && ordered[j] == d;
      OrderedByEarlier(cards, j, i);
      InBefore(ordered, b, i, j);
    }
  }

  lemma SameImage(cards: seq<Card>, placed: map<nat, Box>, ids: set<nat>, of: Card -> bool)
    requires forall d | d in cards :: d.id in placed && (d.id in ids <==> of(d))
    requires forall id | id in ids :: exists d :: d in cards && d.id == id
    ensures ids <= placed.Keys
    ensures (set id | id in ids && id in placed :: placed[id])
            == set d | d in cards && d.id in placed && of(d) :: placed[d.id]
  {
  }

  lemma PlacedBefore(cards: seq<Card>, b: Breakpoint, i: nat)
    requires DistinctIds(cards) && |Sorting.Sort(CardLe, cards)| == |cards| && i < |cards|
    requires PlaceAt(cards, b).Some?
    ensures var placed := PlaceAt(cards, b).value;
            var ordered := Sorting.Sort(CardLe, cards);
            && placed.Keys == CardIds(cards) && Packing.Before(Items(ordered, b), i) <= placed.Keys
            && (set id | id in Packing.Before(Items(ordered, b), i) :: placed[id])
               == set d | d in cards && d.id in placed
                          && (d.id in KeptCards(cards, b) || Earlier(d, ordered[i])) :: placed[d.id]
  {
    var placed := PlaceAt(cards, b).value;
    var ordered := Sorting.Sort(CardLe, cards);
    var before := Packing.Before(Items(ordered, b), i);
    PlacesEvery(cards, b);
    BeforeMembers(cards, b, i);
    SameImage(cards, placed, before, (d: Card) => d.id in KeptCards(cards, b) || Earlier(d, ordered[i]));
    assert (set id | id in before && id in placed :: placed[id]) == set id | id in before :: placed[id];
  }

  lemma KeptAsStored(cards: seq<Card>, b: Breakpoint, i: nat)
    requires DistinctIds(cards) && i < |cards| && cards[i].id in Keep(Items(cards, b), |cards|)
    ensures cards[i].Parsed().Some?
    ensures Keep(Items(cards, b), |cards|)[cards[i].id] == cards[i].Parsed().value.On(b)
  {
    ItemsWellformed(cards, b);
    KeptExactly(Items(cards, b), |cards|, i);
    assert Items(cards, b)[i] == ItemOf(cards[i], b);
  }

  /** Normalisation succeeds for every dashboard of at most 1667 cards. */
  lemma NormalizeSucceeds(cards: seq<Card>)
    requires DistinctIds(cards) && |cards| <= 1667
    ensures Normalize(cards).Some?
  {
    SortedCards(cards);
    forall b: Breakpoint ensures PlaceAt(cards, b).Some? {
      var ordered := Sorting.Sort(CardLe, cards);
      ItemsWellformed(ordered, b);
      FillSucceeds(Items(ordered, b), Columns(b), |ordered|);
    }
  }

  /** Layouts that all parse and do not overlap are returned unchanged, in whatever order the cards stand. */
  lemma NormalizeFixes(cards: seq<Card>, layouts: map<nat, Layout>)
    requires DistinctIds(cards) && layouts.Keys == CardIds(cards)
    requires forall c | c in cards :: c.id in layouts && c.Parsed() == Some(layouts[c.id])
    requires LayoutsDoNotOverlap(layouts)
    ensures Normalize(cards) == Some(layouts)
  {
    PlaceFixes(cards, layouts, Desktop);
    PlaceFixes(cards, layouts, Tablet);
    PlaceFixes(cards, layouts, Mobile);
    AssembledIs(layouts, PlaceAt(cards, Desktop).value, PlaceAt(cards, Tablet).value, PlaceAt(cards, Mobile).value);
  }

  lemma AssembledIs(layouts: map<nat, Layout>, desktop: map<nat, Box>, tablet: map<nat, Box>, mobile: map<nat, Box>)
    requires desktop == OnAll(layouts, Desktop) && tablet == OnAll(layouts, Tablet) && mobile == OnAll(layouts, Mobile)
    ensures Assemble(layouts.Keys, desktop, tablet, mobile) == layouts
  {
  }

  ghost function OnAll(layouts: map<nat, Layout>, b: Breakpoint): map<nat, Box> {
    map id | id in layouts :: layouts[id].On(b)
  }

  lemma PlaceFixes(cards: seq<Card>, layouts: map<nat, Layout>, b: Breakpoint)
    requires DistinctIds(cards) && layouts.Keys == CardIds(cards)
    requires forall c | c in cards :: c.id in layouts && c.Parsed() == Some(layouts[c.id])
    requires LayoutsDoNotOverlap(layouts)
    ensures PlaceAt(cards, b) == Some(OnAll(layouts, b))
  {
    forall c | c in cards ensures ItemOf(c, b).stored == Some(layouts[c.id].On(b)) {
      assert c.Parsed() == Some(layouts[c.id]);
    }
    PlaceFixesAt(cards, OnAll(layouts, b), b);
  }

  lemma PlaceFixesAt(cards: seq<Card>, boxes: map<nat, Box>, b: Breakpoint)
    requires DistinctIds(cards) && boxes.Keys == CardIds(cards)
    requires forall c | c in cards :: c.id in boxes && ItemOf(c, b).stored == Some(boxes[c.id])
    requires forall id, other | id in boxes && other in boxes && id != other :: !Overlaps(boxes[id], boxes[other])
    ensures PlaceAt(cards, b) == Some(boxes)
  {
    var ordered := Sorting.Sort(CardLe, cards);
    SortedCards(cards);
    ItemsWellformed(ordered, b);
    ItemIds(ordered, b);
    var items := Items(ordered, b);
    forall i | 0 <= i < |items| ensures items[i].id in boxes && items[i].stored == Some(boxes[items[i].id]) {
      assert items[i] == ItemOf(ordered[i], b) && ordered[i] in cards;
    }
    PlaceKeepsAll(items, Columns(b), boxes);
  }

  lemma ItemIds(cards: seq<Card>, b: Breakpoint)
    ensures Ids(Items(cards, b)) == CardIds(cards)
  {
    forall id | id in CardIds(cards) ensures id in Ids(Items(cards, b)) {
      var i :| 0 <= i < |cards| && cards[i].id == id;
      assert Items(cards, b)[i].id == id;
    }
  }

  /** What a caller writes back after a normalisation: the layout, and any new position. */
  ghost predicate Rewritten(cards: seq<Card>, stored: seq<Card>, layouts: map<nat, Layout>) {
    && |stored| == |cards|
    && forall i | 0 <= i < |cards| ::
         && stored[i].id == cards[i].id && stored[i].visual == cards[i].visual
         && cards[i].id in layouts && stored[i].layout == PersistedLayout(layouts[cards[i].id])
  }

  /** Normalising again, after layouts and positions were written back, changes nothing. */
  lemma NormalizeIdempotent(cards: seq<Card>, stored: seq<Card>)
    requires DistinctIds(cards) && Normalize(cards).Some?
    requires Rewritten(cards, stored, Normalize(cards).value)
    ensures Normalize(stored) == Normalize(cards)
  {
    var layouts := Normalize(cards).value;
    NormalizedIsPacked(cards);
    forall i, j | 0 <= i < j < |stored| ensures stored[i].id != stored[j].id {
      assert cards[i].id != cards[j].id;
    }
    assert CardIds(stored) == CardIds(cards) by {
      assert forall i | 0 <= i < |cards| :: stored[i].id == cards[i].id;
    }
    forall c | c in stored ensures c.id in layouts && c.Parsed() == Some(layouts[c.id]) {
      var i :| 0 <= i < |stored| && stored[i] == c;
      assert cards[i] in cards;
      PersistRoundTrip(layouts[c.id], c.visual);
    }
    NormalizeFixes(stored, layouts);
  }

  /** The database may return the cards in any order. */
  lemma NormalizeForgetsOrder(cards: seq<Card>, shuffled: seq<Card>)
    requires DistinctIds(cards) && multiset(cards) == multiset(shuffled)
    ensures Normalize(shuffled) == Normalize(cards)
  {
    forall x, y | x in cards && y in cards && x.id == y.id ensures x == y {
      var i :| 0 <= i < |cards| && cards[i] == x;
      var j :| 0 <= j < |cards| && cards[j] == y;
    }
    Sorting.SortForgetsOrder(CardLe, cards, shuffled);
    ShuffledCards(cards, shuffled);
  }

  // ----- positions

  predicate EntryLe(a: (nat, Layout), b: (nat, Layout)) {
    var p, q := a.1.desktop, b.1.desktop;
    p.y < q.y || (p.y == q.y && (p.x < q.x || (p.x == q.x && a.0 <= b.0)))
  }

  ghost predicate DistinctEntries(entries: seq<(nat, Layout)>) {
    forall i, j | 0 <= i < j < |entries| :: entries[i].0 != entries[j].0
  }

  /** Positions in desktop reading order; `entries` are the dictionary's items in its own order. */
  function DerivePositions(entries: seq<(nat, Layout)>): map<nat, nat> {
    Enumerate(Sorting.Sort(EntryLe, entries))
  }

  function Enumerate(ordered: seq<(nat, Layout)>): map<nat, nat> {
    if ordered == [] then map[]
    else Enumerate(ordered[..|ordered| - 1])[ordered[|ordered| - 1].0 := |ordered| - 1]
  }

  lemma {:induction false} EnumerateIndex(ordered: seq<(nat, Layout)>)
    requires DistinctEntries(ordered)
    ensures forall i | 0 <= i < |ordered| :: ordered[i].0 in Enumerate(ordered) && Enumerate(ordered)[ordered[i].0] == i
    ensures forall id | id in Enumerate(ordered) :: exists i :: 0 <= i < |ordered| && ordered[i].0 == id
  {
    if ordered != [] {
      var front := ordered[..|ordered| - 1];
      EnumerateIndex(front);
      assert forall i | 0 <= i < |front| :: front[i] == ordered[i];
    }
  }

  /** For layouts that do not overlap, positions are a bijection onto 0..n-1 that follows desktop
      reading order strictly: two cards never tie on (y, x), so the id never decides. */
  lemma PositionsFollowReadingOrder(entries: seq<(nat, Layout)>)
    requires DistinctEntries(entries)
    requires forall i | 0 <= i < |entries| :: entries[i].1.desktop.w > 0 && entries[i].1.desktop.h > 0
    requires forall i, j | 0 <= i < j < |entries| :: !Overlaps(entries[i].1.desktop, entries[j].1.desktop)
    ensures var positions := DerivePositions(entries);
            && (forall e | e in entries :: e.0 in positions && positions[e.0] < |entries|)
            && (forall p | 0 <= p < |entries| :: p in positions.Values)
            && (forall e, f | e in entries && f in entries ::
                  positions[e.0] < positions[f.0] <==> StrictlyBefore(e, f))
  {
    var ordered := Sorting.Sort(EntryLe, entries);
    var positions := DerivePositions(entries);
    EntriesStayDistinct(entries, ordered);
    EntriesTotal(entries);
    Sorting.SortSorted(EntryLe, entries);
    EnumerateIndex(ordered);
    PositionsOf(entries, ordered, positions);
  }

  lemma PositionsOf(entries: seq<(nat, Layout)>, ordered: seq<(nat, Layout)>, positions: map<nat, nat>)
    requires Sorting.SortedBy(EntryLe, ordered) && |ordered| == |entries|
    requires (forall e | e in ordered :: e in entries) && (forall e | e in entries :: e in ordered)
    requires forall i | 0 <= i < |ordered| :: ordered[i].0 in positions && positions[ordered[i].0] == i
    requires forall i | 0 <= i < |entries| :: entries[i].1.desktop.w > 0 && entries[i].1.desktop.h > 0
    requires forall i, j | 0 <= i < j < |entries| :: !Overlaps(entries[i].1.desktop, entries[j].1.desktop)
    ensures forall e | e in entries :: e.0 in positions && positions[e.0] < |entries|
    ensures forall p | 0 <= p < |entries| :: p in positions.Values
    ensures forall e, f | e in entries && f in entries :: positions[e.0] < positions[f.0] <==> StrictlyBefore(e, f)
  {
    forall p | 0 <= p < |entries| ensures p in positions.Values {
      assert positions[ordered[p].0] == p;
    }
    forall e, f | e in entries && f in entries
      ensures e.0 in positions && f.0 in positions && positions[e.0] < |entries|
      ensures positions[e.0] < positions[f.0] <==> StrictlyBefore(e, f)
    {
      assert e in ordered && f in ordered;
      var i :| 0 <= i < |ordered| && ordered[i] == e;
      var j :| 0 <= j < |ordered| && ordered[j] == f;
      NoTies(entries, e, f);
      assert i < j ==> EntryLe(e, f);
      assert j < i ==> EntryLe(f, e);
    }
  }

  predicate StrictlyBefore(e: (nat, Layout), f: (nat, Layout)) {
    e.1.desktop.y < f.1.desktop.y || (e.1.desktop.y == f.1.desktop.y && e.1.desktop.x < f.1.desktop.x)
  }

  lemma NoTies(entries: seq<(nat, Layout)>, e: (nat, Layout), f: (nat, Layout))
    requires forall i | 0 <= i < |entries| :: entries[i].1.desktop.w > 0 && entries[i].1.desktop.h > 0
    requires forall i, j | 0 <= i < j < |entries| :: !Overlaps(entries[i].1.desktop, entries[j].1.desktop)
    requires e in entries && f in entries
    ensures e == f || StrictlyBefore(e, f) || StrictlyBefore(f, e)
  {
    var i :| 0 <= i < |entries| && entries[i] == e;
    var j :| 0 <= j < |entries| && entries[j] == f;
    if i < j {
      assert !Overlaps(entries[i].1.desktop, entries[j].1.desktop);
    } else if j < i {
      assert !Overlaps(entries[j].1.desktop, entries[i].1.desktop);
    }
  }

  lemma EntriesTotal(entries: seq<(nat, Layout)>)
    requires DistinctEntries(entries)
    ensures Sorting.TotalOn(EntryLe, entries)
  {
    forall x, y | x in entries && y in entries && x.0 == y.0 ensures x == y {
      var i :| 0 <= i < |entries| && entries[i] == x;
      var j :| 0 <= j < |entries| && entries[j] == y;
    }
  }

  lemma EntriesStayDistinct(entries: seq<(nat, Layout)>, shuffled: seq<(nat, Layout)>)
    requires DistinctEntries(entries) && multiset(shuffled) == multiset(entries)
    ensures DistinctEntries(shuffled) && |shuffled| == |entries|
    ensures (forall e | e in shuffled :: e in entries) && (forall e | e in entries :: e in shuffled)
  {
    Sorting.SameElements(shuffled, entries);
    forall i, j | 0 <= i < j < |entries| ensures entries[i] != entries[j] {
      assert entries[i].0 != entries[j].0;
    }
    Sorting.DistinctPermutation(entries, shuffled);
    forall i, j | 0 <= i < j < |shuffled| ensures shuffled[i].0 != shuffled[j].0 {
      assert shuffled[i] in entries && shuffled[j] in entries && shuffled[i] != shuffled[j];
    }
  }

  /** The positions do not depend on the dictionary's order. */
  lemma PositionsForgetOrder(entries: seq<(nat, Layout)>, shuffled: seq<(nat, Layout)>)
    requires DistinctEntries(entries) && multiset(shuffled) == multiset(entries)
    ensures DerivePositions(shuffled) == DerivePositions(entries)
  {
    EntriesTotal(entries);
    Sorting.SortForgetsOrder(EntryLe, entries, shuffled);
  }
}
