/**
 The saved widget layout: reading a layout document of any shape, and the operations on its slots.

 A group is the widget it shows, or none. An array or a number where the document should have an object has none of
 the fields looked for, as in the source.
 */
module LayoutModel {
  import opened Wrappers
  import Strings = Text

  const MAX_SIDE_SLOTS := 10

  datatype Widget = Profiles | Serial | Files | Transfers | Events | History | Ai | Tunnels | Broadcast

  datatype Side = Left | Right

  type Index = i: int | 0 <= i < MAX_SIDE_SLOTS

  datatype Slot = SideSlot(side: Side, index: Index) | Bottom

  type Slots = map<Slot, Option<Widget>>

  /**
   A parsed document. `Huge` is a number literal too large to be finite. `fields` are the entries of
   an object in its own order, names distinct, as parsing leaves them; arrays are objects whose names
   are the indices.
   */
  datatype Json =
    | Nothing
    | Flag(flag: bool)
    | Number(number: real)
    | Huge
    | Text(text: string)
    | Object(fields: seq<(string, Json)>)

  function Fields(json: Json): seq<(string, Json)> {
    if json.Object? then json.fields else []
  }

  /** The last field of a name is the one an object has. */
  function Find(fields: seq<(string, Json)>, name: string): Json {
    if fields == [] then Nothing
    else if fields[|fields| - 1].0 == name then fields[|fields| - 1].1
    else Find(fields[..|fields| - 1], name)
  }

  function Get(json: Json, name: string): Json {
    Find(Fields(json), name)
  }

  predicate Truthy(json: Json) {
    match json
    case Nothing => false
    case Flag(flag) => flag
    case Number(number) => number != 0.0
    case Text(text) => text != ""
    case _ => true
  }

  function Clamp(json: Json, low: real, high: real, fallback: real): real {
    if !json.Number? then fallback
    else if json.number < low then low
    else if json.number > high then high
    else json.number
  }

  function FlagOr(json: Json, fallback: bool): bool {
    if json.Flag? then json.flag else fallback
  }

  // ---------------------------------------------------------------- names

  function WidgetName(w: Widget): string {
    match w
    case Profiles => "profiles"
    case Serial => "serial"
    case Files => "files"
    case Transfers => "transfers"
    case Events => "events"
    case History => "history"
    case Ai => "ai"
    case Tunnels => "tunnels"
    case Broadcast => "broadcast"
  }

  /** The widget of a name; `logs` is the old name of the events. */
  function ParseWidget(name: string): Option<Widget> {
    if name == "profiles" then Some(Profiles)
    else if name == "serial" then Some(Serial)
    else if name == "files" then Some(Files)
    else if name == "transfers" then Some(Transfers)
    else if name == "events" then Some(Events)
    else if name == "history" then Some(History)
    else if name == "ai" then Some(Ai)
    else if name == "tunnels" then Some(Tunnels)
    else if name == "broadcast" then Some(Broadcast)
    else if name == "logs" then Some(Events)
    else None
  }

  function SlotKey(s: Slot): string {
    match s
    case SideSlot(Left, index) => "left:" + ['0' + index as char]
    case SideSlot(Right, index) => "right:" + ['0' + index as char]
    case Bottom => "bottom"
  }

  function Value(digits: string): nat
    requires forall c :: c in digits ==> Strings.IsDigit(c)
  {
    if digits == "" then 0
    else
      assert Strings.IsDigit(digits[|digits| - 1]);
      10 * Value(digits[..|digits| - 1]) + (digits[|digits| - 1] as int - '0' as int)
  }

  /** Leading zeros are accepted, an index of ten or more is not. */
  function ParseIndex(side: Side, digits: string): (r: Option<Slot>)
    ensures r.Some? ==> r.value.SideSlot? && r.value.side == side
  {
    if digits != "" && (forall c :: c in digits ==> Strings.IsDigit(c)) && Value(digits) < MAX_SIDE_SLOTS then
      Some(SideSlot(side, Value(digits)))
    else
      None
  }

  function ParseSideSlotKey(key: string): Option<Slot> {
    if "left:" <= key then ParseIndex(Left, key[5..])
    else if "right:" <= key then ParseIndex(Right, key[6..])
    else None
  }

  function ParseSlotKey(key: string): Option<Slot> {
    if key == "bottom" then Some(Bottom) else ParseSideSlotKey(key)
  }

  // ---------------------------------------------------------------- what the document says

  function ParseGroup(json: Json): Option<Widget> {
    var active := Get(json, "active");
    if active.Text? then ParseWidget(active.text) else None
  }

  function SlotEntry(field: (string, Json)): Slots {
    match ParseSlotKey(field.0)
    case Some(s) => map[s := ParseGroup(field.1)]
    case None => map[]
  }

  /** Two keys may name the same slot (`left:1` and `left:01`): the later one counts. */
  function SlotEntries(fields: seq<(string, Json)>): Slots {
    if fields == [] then map[] else SlotEntry(fields[0]) + SlotEntries(fields[1..])
  }

  function FloatingEntry(field: (string, Json), active: set<Widget>): map<Widget, Slot> {
    var origin := Get(field.1, "origin");
    match ParseWidget(field.0)
    case Some(w) =>
      if w in active || !origin.Text? then map[]
      else
        (match ParseSlotKey(origin.text)
         case Some(s) => map[w := s]
         case None => map[])
    case None => map[]
  }

  function FloatingEntries(fields: seq<(string, Json)>, active: set<Widget>): map<Widget, Slot> {
    if fields == [] then map[] else FloatingEntry(fields[0], active) + FloatingEntries(fields[1..], active)
  }

  /** The slots of a side in ascending order, from an index on. */
  function SideSlotKeys(slots: Slots, side: Side, from: nat): (keys: seq<Slot>)
    ensures forall k :: 0 <= k < |keys| ==>
      keys[k] in slots && keys[k].SideSlot? && keys[k].side == side && keys[k].index >= from
    decreases MAX_SIDE_SLOTS - from
  {
    if from >= MAX_SIDE_SLOTS then []
    else if SideSlot(side, from) in slots then [SideSlot(side, from)] + SideSlotKeys(slots, side, from + 1)
    else SideSlotKeys(slots, side, from + 1)
  }

  /** The smallest whole number that is not less. */
  function Ceiling(x: real): int {
    -(-x).Floor
  }

  function SideShape(side: Side, count: real): set<Slot> {
    set i: int | 0 <= i < MAX_SIDE_SLOTS && i as real < count :: SideSlot(side, i)
  }

  datatype Counts = Counts(left: real, right: real)

  function Shape(counts: Counts): set<Slot> {
    SideShape(Left, counts.left) + SideShape(Right, counts.right) + {Bottom}
  }

  function ClampCounts(counts: Counts): Counts {
    Counts(Clamp(Number(counts.left), 1.0, 10.0, 1.0), Clamp(Number(counts.right), 1.0, 10.0, 1.0))
  }

  /** What the slot shows once the slots of each side are moved up to close gaps. */
  function Placed(slots: Slots, s: Slot): Option<Widget> {
    if s.Bottom? then
      if Bottom in slots then slots[Bottom] else None
    else
      var keys := SideSlotKeys(slots, s.side, 0);
      if s.index < |keys| then
        slots[keys[s.index]]
      else None
  }

  function Structured(slots: Slots, counts: Counts): Slots {
    map s | s in Shape(ClampCounts(counts)) :: Placed(slots, s)
  }

  /** Left before right before bottom, each side by index. */
  function Rank(s: Slot): nat {
    match s
    case SideSlot(Left, index) => index
    case SideSlot(Right, index) => MAX_SIDE_SLOTS + index
    case Bottom => 2 * MAX_SIDE_SLOTS
  }

  predicate Shadowed(slots: Slots, s: Slot)
    requires s in slots
  {
    exists t :: t in slots && Rank(t) < Rank(s) && slots[t] == slots[s]
  }

  /** Only the first slot showing a widget keeps it. */
  function Deduped(slots: Slots): Slots {
    map s | s in slots :: if Shadowed(slots, s) then None else slots[s]
  }

  function Active(slots: Slots): set<Widget> {
    set s | s in slots && slots[s].Some? :: slots[s].value
  }

  datatype Sizes = Sizes(left: real, right: real, bottom: real)

  datatype Collapsed = Collapsed(left: bool, right: bool, bottom: bool)

  datatype Layout =
    Layout(sizes: Sizes, collapsed: Collapsed, counts: Counts, slots: Slots, floating: map<Widget, Slot>)

  function ParseSizes(json: Json): Sizes {
    Sizes(Clamp(Get(json, "left"), 220.0, 520.0, 320.0), Clamp(Get(json, "right"), 260.0, 560.0, 360.0),
          Clamp(Get(json, "bottom"), 160.0, 420.0, 240.0))
  }

  function ParseCollapsed(json: Json): Collapsed {
    Collapsed(FlagOr(Get(json, "left"), false), FlagOr(Get(json, "right"), false), FlagOr(Get(json, "bottom"), false))
  }

  function ParseCounts(json: Json): Counts {
    Counts(Clamp(Get(json, "left"), 1.0, 10.0, 1.0), Clamp(Get(json, "right"), 1.0, 10.0, 1.0))
  }

  function ReadSlots(json: Json): Slots {
    map[Bottom := None] + SlotEntries(Fields(json))
  }

  function Normalized(raw: Json): Option<Layout> {
    if !raw.Object? || Get(raw, "version") != Number(1.0) then None
    else if !Truthy(Get(raw, "sizes")) || !Truthy(Get(raw, "slots")) then None
    else
      var counts := ParseCounts(Get(raw, "sideSlotCounts"));
      var slots := Deduped(Structured(ReadSlots(Get(raw, "slots")), counts));
      Some(Layout(ParseSizes(Get(raw, "sizes")), ParseCollapsed(Get(raw, "collapsed")), ClampCounts(counts), slots,
                  FloatingEntries(Fields(Get(raw, "floating")), Active(slots))))
  }

  // ---------------------------------------------------------------- the algorithms

  lemma SlotEntriesNone()
    ensures SlotEntries([]) == map[] && forall active :: FloatingEntries([], active) == map[]
  {
  }

  lemma SlotEntriesStep(fields: seq<(string, Json)>, next: Slots)
    requires fields != []
    ensures (next + SlotEntry(fields[0])) + SlotEntries(fields[1..]) == next + SlotEntries(fields)
  {
  }

  lemma FloatingEntriesStep(fields: seq<(string, Json)>, active: set<Widget>, next: map<Widget, Slot>)
    requires fields != []
    ensures (next + FloatingEntry(fields[0], active)) + FloatingEntries(fields[1..], active)
         == next + FloatingEntries(fields, active)
  {
  }

  method NormalizeSlots(json: Json) returns (next: Slots)
    ensures next == ReadSlots(json)
  {
    hide SlotEntries, ParseSideSlotKey, ParseGroup, Fields;
    SlotEntriesNone();
    next := map[Bottom := None];
    var rest := Fields(json);
    while rest != []
      invariant next + SlotEntries(rest) == ReadSlots(json)
      decreases |rest|
    {
      ghost var before := next;
      var (key, value) := rest[0];
      if key == "bottom" {
        next := next[Bottom := ParseGroup(value)];
      } else {
        var parsed := ParseSideSlotKey(key);
        if parsed.Some? {
          next := next[parsed.value := ParseGroup(value)];
        }
      }
      assert next == before + SlotEntry(rest[0]);
      SlotEntriesStep(rest, before);
      rest := rest[1..];
    }
  }

  lemma SideShapeMembers(side: Side, count: real)
    ensures forall s :: s in SideShape(side, count) <==> s.SideSlot? && s.side == side && s.index as real < count
  {
  }

  /** The slots of one side, as many as the count asks for. */
  function SidePart(slots: Slots, side: Side, count: real): Slots {
    map s | s in SideShape(side, count) :: Placed(slots, s)
  }

  lemma SidePartNext(slots: Slots, side: Side, index: Index)
    ensures SidePart(slots, side, index as real + 1.0)
         == SidePart(slots, side, index as real)[SideSlot(side, index) := Placed(slots, SideSlot(side, index))]
  {
    hide Placed, SideShape;
    SideShapeMembers(side, index as real);
    SideShapeMembers(side, index as real + 1.0);
  }

  lemma SidePartEnds(slots: Slots, side: Side, count: real, index: nat)
    requires count <= index as real < count + 1.0
    ensures SidePart(slots, side, index as real) == SidePart(slots, side, count)
    ensures SidePart(slots, side, 0.0) == map[]
  {
    hide Placed, SideShape;
    SideShapeMembers(side, index as real);
    SideShapeMembers(side, count);
    SideShapeMembers(side, 0.0);
  }

  /** Adds the slots of one side. */
  method FillSide(next: Slots, slots: Slots, side: Side, count: real) returns (filled: Slots)
    requires 1.0 <= count <= 10.0
    ensures filled == next + SidePart(slots, side, count)
  {
    hide SideSlotKeys, SidePart, Rank;
    filled := next;
    var keys := SideSlotKeys(slots, side, 0);
    var index := 0;
    SidePartEnds(slots, side, count, Ceiling(count));
    while index as real < count
      invariant 0 <= index <= MAX_SIDE_SLOTS && index as real < count + 1.0
      invariant filled == next + SidePart(slots, side, index as real)
      decreases MAX_SIDE_SLOTS - index
    {
      SidePartNext(slots, side, index);
      ghost var before := SidePart(slots, side, index as real);
      if index < |keys| {
        filled := filled[SideSlot(side, index) := slots[keys[index]]];
      } else {
        filled := filled[SideSlot(side, index) := None];
      }
      index := index + 1;
      assert filled == next + SidePart(slots, side, index as real);
    }
    SidePartEnds(slots, side, count, index);
  }

  /** The indices of the existing slots of a side within bounds. */
  function Existing(slots: Slots, side: Side, from: nat, to: nat): set<Index> {
    set i: Index | from <= i < to && SideSlot(side, i) in slots
  }

  function HowMany(slots: Slots, side: Side): nat {
    |Existing(slots, side, 0, MAX_SIDE_SLOTS)|
  }

  lemma ExistingStep(slots: Slots, side: Side, from: nat, to: nat)
    requires from < to <= MAX_SIDE_SLOTS
    ensures var rest := Existing(slots, side, from + 1, to);
            && from !in rest
            && Existing(slots, side, from, to) == if SideSlot(side, from) in slots then {from} + rest else rest
  {
  }

  /** How many slots of its side come before this one. */
  function Position(slots: Slots, s: Slot): nat
    requires s.SideSlot?
  {
    |Existing(slots, s.side, 0, s.index)|
  }

  /** The slot `t` that `s` moves up to when the gaps of its side close. */
  predicate MovesUpTo(slots: Slots, s: Slot, t: Slot) {
    s.SideSlot? && t.SideSlot? && s.side == t.side && t.index == Position(slots, s)
  }

  lemma {:induction false} KeysAreCounted(slots: Slots, side: Side, from: nat)
    ensures |SideSlotKeys(slots, side, from)| == |Existing(slots, side, from, MAX_SIDE_SLOTS)|
    decreases MAX_SIDE_SLOTS - from
  {
    if from >= MAX_SIDE_SLOTS {
      assert Existing(slots, side, from, MAX_SIDE_SLOTS) == {};
    } else {
      ExistingStep(slots, side, from, MAX_SIDE_SLOTS);
      KeysAreCounted(slots, side, from + 1);
    }
  }

  lemma KeysStep(slots: Slots, side: Side, from: Index)
    ensures var rest := SideSlotKeys(slots, side, from + 1);
            SideSlotKeys(slots, side, from)
            == if SideSlot(side, from) in slots then [SideSlot(side, from)] + rest else rest
  {
  }

  lemma {:induction false} KeyAtPosition(slots: Slots, s: Slot, from: nat)
    requires s in slots && s.SideSlot? && from <= s.index
    ensures var keys, k := SideSlotKeys(slots, s.side, from), |Existing(slots, s.side, from, s.index)|;
            k < |keys| && keys[k] == s
    decreases MAX_SIDE_SLOTS - from
  {
    hide Existing, SideSlotKeys;
    KeysStep(slots, s.side, from);
    if from == s.index {
      NothingBelow(slots, s.side, from);
    } else {
      ExistingStep(slots, s.side, from, s.index);
      KeyAtPosition(slots, s, from + 1);
    }
  }

  lemma NothingBelow(slots: Slots, side: Side, from: nat)
    ensures Existing(slots, side, from, from) == {}
  {
  }

  lemma GapsClose(slots: Slots, counts: Counts)
    ensures var next := Structured(slots, counts);
            && (forall s, t :: s in slots && t in next && MovesUpTo(slots, s, t) ==> next[t] == slots[s])
            && (forall t :: t in next && t.SideSlot? && t.index >= HowMany(slots, t.side) ==> next[t] == None)
  {
    hide SideSlotKeys, Shape, ClampCounts;
    forall s, t | s in slots && MovesUpTo(slots, s, t)
      ensures Placed(slots, t) == slots[s]
    {
      KeyAtPosition(slots, s, 0);
    }
    KeysAreCounted(slots, Left, 0);
    KeysAreCounted(slots, Right, 0);
  }

  method NormalizeSideSlotStructure(slots: Slots, counts: Counts) returns (next: Slots, clamped: Counts)
    ensures next == Structured(slots, counts) && clamped == ClampCounts(counts)
    ensures next.Keys == Shape(clamped) && next[Bottom] == if Bottom in slots then slots[Bottom] else None
    ensures forall s, t :: s in slots && t in next && MovesUpTo(slots, s, t) ==> next[t] == slots[s]
    ensures forall t :: t in next && t.SideSlot? && t.index >= HowMany(slots, t.side) ==> next[t] == None
  {
    clamped := ClampCounts(counts);
    next := FillSide(map[], slots, Left, clamped.left);
    next := FillSide(next, slots, Right, clamped.right);
    next := next[Bottom := if Bottom in slots then slots[Bottom] else None];
    assert next.Keys == Shape(clamped);
    GapsClose(slots, counts);
  }

  ghost predicate Ascending(order: seq<Slot>) {
    forall i, j :: 0 <= i < j < |order| ==> Rank(order[i]) < Rank(order[j])
  }

  /** What is still to come lies behind everything that was seen. */
  ghost predicate Ahead(slots: Slots, rest: seq<Slot>) {
    forall s, t :: s in slots && s !in rest && t in rest ==> Rank(s) < Rank(t)
  }

  /** The widgets of the slots that were seen. */
  ghost predicate UsedIs(slots: Slots, rest: seq<Slot>, used: set<Widget>) {
    forall w :: w in used <==> exists s :: s in slots && s !in rest && slots[s] == Some(w)
  }

  ghost predicate DedupedSoFar(slots: Slots, rest: seq<Slot>, next: Slots) {
    && next.Keys == slots.Keys
    && forall s :: s in slots ==> next[s] == if s !in rest && Shadowed(slots, s) then None else slots[s]
  }

  lemma AscendingTail(rest: seq<Slot>)
    requires rest != [] && Ascending(rest)
    ensures Ascending(rest[1..]) && forall s :: s in rest[1..] <==> s in rest && s != rest[0]
  {
  }

  lemma AheadTail(slots: Slots, rest: seq<Slot>)
    requires rest != [] && Ascending(rest) && Ahead(slots, rest)
    ensures Ahead(slots, rest[1..])
  {
  }

  lemma ShadowedIffUsed(slots: Slots, rest: seq<Slot>, used: set<Widget>, slot: Slot)
    requires Ascending(rest) && Ahead(slots, rest) && UsedIs(slots, rest, used)
    requires rest != [] && slot == rest[0] && slot in slots && slots[slot].Some?
    ensures Shadowed(slots, slot) <==> slots[slot].value in used
  {
  }

  lemma UsedTail(slots: Slots, rest: seq<Slot>, used: set<Widget>)
    requires rest != [] && Ascending(rest) && UsedIs(slots, rest, used)
    ensures UsedIs(slots, rest[1..],
                   if rest[0] in slots && slots[rest[0]].Some? then used + {slots[rest[0]].value} else used)
  {
  }

  lemma DedupedSoFarTail(slots: Slots, rest: seq<Slot>, next: Slots, next': Slots)
    requires rest != [] && Ascending(rest) && DedupedSoFar(slots, rest, next)
    requires next' ==
             if rest[0] in slots && slots[rest[0]].Some? && Shadowed(slots, rest[0]) then next[rest[0] := None]
             else next
    ensures DedupedSoFar(slots, rest[1..], next')
  {
  }

  lemma {:induction false} SideSlotKeysComplete(slots: Slots, s: Slot, from: nat)
    requires s in slots && s.SideSlot? && from <= s.index
    ensures s in SideSlotKeys(slots, s.side, from)
    decreases MAX_SIDE_SLOTS - from
  {
    if from == s.index {
      assert SideSlotKeys(slots, s.side, from)[0] == s;
    } else {
      SideSlotKeysComplete(slots, s, from + 1);
    }
  }

  lemma {:induction false} SideSlotKeysAscend(slots: Slots, side: Side, from: nat)
    ensures Ascending(SideSlotKeys(slots, side, from))
    decreases MAX_SIDE_SLOTS - from
  {
    if from >= MAX_SIDE_SLOTS {
    } else {
      SideSlotKeysAscend(slots, side, from + 1);
    }
  }

  /** The order the source visits the slots in is the order of their ranks. */
  lemma VisitOrder(slots: Slots, order: seq<Slot>)
    requires order == SideSlotKeys(slots, Left, 0) + SideSlotKeys(slots, Right, 0) + [Bottom]
    ensures Ascending(order) && forall s :: s in slots ==> s in order
  {
    hide SideSlotKeys;
    var left, right := SideSlotKeys(slots, Left, 0), SideSlotKeys(slots, Right, 0);
    SideSlotKeysAscend(slots, Left, 0);
    SideSlotKeysAscend(slots, Right, 0);
    forall s | s in slots
      ensures s in order
    {
      if s.SideSlot? {
        SideSlotKeysComplete(slots, s, 0);
      }
    }
  }

  lemma NothingSeen(slots: Slots, rest: seq<Slot>)
    requires forall s :: s in slots ==> s in rest
    ensures Ahead(slots, rest) && UsedIs(slots, rest, {})
  {
  }

  method DedupeActiveWidgets(slots: Slots) returns (next: Slots)
    ensures next == Deduped(slots)
  {
    hide Ascending, Ahead, UsedIs, SideSlotKeys, Shadowed, Rank;
    next := slots;
    var used: set<Widget> := {};
    var rest := SideSlotKeys(slots, Left, 0) + SideSlotKeys(slots, Right, 0) + [Bottom];
    VisitOrder(slots, rest);
    NothingSeen(slots, rest);
    while rest != []
      invariant Ascending(rest) && Ahead(slots, rest)
      invariant UsedIs(slots, rest, used)
      invariant DedupedSoFar(slots, rest, next)
      decreases |rest|
    {
      var slot := rest[0];
      ghost var before := next;
      ghost var usedBefore := used;
      if slot in next && next[slot].Some? {
        var w := next[slot].value;
        ShadowedIffUsed(slots, rest, used, slot);
        if w in used {
          next := next[slot := None];
        } else {
          used := used + {w};
        }
      }
      DedupedSoFarTail(slots, rest, before, next);
      UsedTail(slots, rest, usedBefore);
      assert used == if slot in slots && slots[slot].Some? then usedBefore + {slots[slot].value} else usedBefore;
      AheadTail(slots, rest);
      AscendingTail(rest);
      rest := rest[1..];
    }
  }

  lemma FindNothing(name: string)
    ensures Find([], name) == Nothing
  {
  }

  method NormalizeFloating(json: Json, slots: Slots) returns (next: map<Widget, Slot>)
    ensures next == FloatingEntries(Fields(json), Active(slots))
  {
    hide FloatingEntries, ParseSideSlotKey, ParseWidget, Active, Find;
    SlotEntriesNone();
    assert Find([], "origin") == Nothing by {
      FindNothing("origin");
    }
    var active := Active(slots);
    next := map[];
    var rest := Fields(json);
    while rest != []
      invariant next + FloatingEntries(rest, active) == FloatingEntries(Fields(json), active)
      decreases |rest|
    {
      ghost var before := next;
      var (key, value) := rest[0];
      var widget := ParseWidget(key);
      if widget.Some? && widget.value !in active && value.Object? {
        var origin := Get(value, "origin");
        if origin != Text("bottom") {
          var parsed := if origin.Text? then ParseSideSlotKey(origin.text) else None;
          if parsed.Some? {
            next := next[widget.value := parsed.value];
          }
        } else {
          next := next[widget.value := Bottom];
        }
      }
      assert next == before + FloatingEntry(rest[0], active);
      FloatingEntriesStep(rest, active, before);
      rest := rest[1..];
    }
  }

  method NormalizeWidgetLayout(raw: Json) returns (r: Option<Layout>)
    ensures r == Normalized(raw)
  {
    if !raw.Object? {
      return None;
    }
    if Get(raw, "version") != Number(1.0) || !Truthy(Get(raw, "sizes")) || !Truthy(Get(raw, "slots")) {
      return None;
    }
    var base := NormalizeSlots(Get(raw, "slots"));
    var structured, counts := NormalizeSideSlotStructure(base, ParseCounts(Get(raw, "sideSlotCounts")));
    var slots := DedupeActiveWidgets(structured);
    var floating := NormalizeFloating(Get(raw, "floating"), slots);
    r := Some(Layout(ParseSizes(Get(raw, "sizes")), ParseCollapsed(Get(raw, "collapsed")), counts, slots, floating));
  }

  /** The widget leaves every other slot and replaces what the target shows. */
  function Moved(slots: Slots, widget: Widget, target: Slot): Slots {
    map s | s in slots.Keys + {target} ::
      if s == target then Some(widget) else if slots[s] == Some(widget) then None else slots[s]
  }

  lemma MovedIsUnique(slots: Slots, widget: Widget, target: Slot)
    requires Unique(slots)
    ensures Unique(Moved(slots, widget, target))
  {
  }

  method MoveWidgetToSlot(slots: Slots, widget: Widget, target: Slot) returns (next: Slots)
    ensures next == Moved(slots, widget, target)
    ensures next.Keys == slots.Keys + {target} && next[target] == Some(widget)
    ensures forall s :: s in slots && s != target ==> next[s] == if slots[s] == Some(widget) then None else slots[s]
    ensures Unique(slots) ==> Unique(next)
  {
    hide Unique;
    if Unique(slots) {
      MovedIsUnique(slots, widget, target);
    }
    next := slots;
    var rest := slots.Keys;
    while rest != {}
      invariant rest <= slots.Keys == next.Keys
      invariant forall s :: s in slots ==>
        next[s] == if s !in rest && slots[s] == Some(widget) then None else slots[s]
      decreases rest
    {
      var s :| s in rest;
      if next[s] == Some(widget) {
        next := next[s := None];
      }
      rest := rest - {s};
    }
    if target !in next {
      next := next[target := None];
    }
    next := next[target := Some(widget)];
  }

  predicate Whole(x: real) {
    x.Floor as real == x
  }

  function NextCount(count: real): real {
    if count + 1.0 < 10.0 then count + 1.0 else 10.0
  }

  /**
   The slots after an increase. The slot emptied or added is the one whose index is one below the
   new count; when that is not a slot index the source adds a key that names no slot.
   */
  function Increased(slots: Slots, side: Side, count: real): Slots {
    var index := NextCount(count) - 1.0;
    if NextCount(count) == count || index < 0.0 || !Whole(index) then slots
    else slots[SideSlot(side, index.Floor) := None]
  }

  method IncreaseSideSlots(slots: Slots, side: Side, currentCount: real) returns (next: Slots, nextCount: real)
    ensures nextCount == NextCount(currentCount) && next == Increased(slots, side, currentCount)
    ensures Unique(slots) ==> Unique(next)
  {
    nextCount := if currentCount + 1.0 < 10.0 then currentCount + 1.0 else 10.0;
    if nextCount == currentCount {
      return slots, nextCount;
    }
    next := slots;
    var index := nextCount - 1.0;
    if index >= 0.0 && index.Floor as real == index {
      next := next[SideSlot(side, index.Floor) := None];
    }
  }

  method CloseActiveWidgetInSlot(slots: Slots, slot: Slot) returns (next: Slots)
    ensures next == if slot in slots then slots[slot := None] else slots
    ensures Unique(slots) ==> Unique(next)
  {
    next := slots;
    if slot !in next || next[slot] == None {
      return;
    }
    next := next[slot := None];
  }

  // ---------------------------------------------------------------- properties

  predicate Unique(slots: Slots) {
    forall s, t :: s in slots && t in slots && slots[s].Some? && slots[s] == slots[t] ==> s == t
  }

  predicate InBounds(sizes: Sizes) {
    220.0 <= sizes.left <= 520.0 && 260.0 <= sizes.right <= 560.0 && 160.0 <= sizes.bottom <= 420.0
  }

  /** A layout the rest of the program can rely on. */
  predicate Normal(l: Layout) {
    && InBounds(l.sizes)
    && 1.0 <= l.counts.left <= 10.0 && 1.0 <= l.counts.right <= 10.0
    && l.slots.Keys == Shape(l.counts)
    && Unique(l.slots)
    && l.floating.Keys !! Active(l.slots)
  }

  /** A whole count gives exactly that many slots; a fractional one is rounded up. */
  lemma ShapeIs(side: Side, count: real, i: Index)
    requires 1.0 <= count <= 10.0
    ensures SideSlot(side, i) in SideShape(side, count) <==> i < Ceiling(count)
  {
    assert i as real < count <==> i < Ceiling(count);
  }

  lemma DedupedUnique(slots: Slots)
    ensures Unique(Deduped(slots))
  {
  }

  lemma DedupedFixed(slots: Slots)
    requires Unique(slots)
    ensures Deduped(slots) == slots
  {
  }

  /** No widget gets lost: its first slot, in the order left, right, bottom, keeps it. */
  lemma {:induction false} FirstOccurrenceKept(slots: Slots, s: Slot) returns (first: Slot)
    requires s in slots && slots[s].Some?
    ensures first in slots && Deduped(slots)[first] == slots[first] == slots[s]
    ensures forall t :: t in slots && slots[t] == slots[s] ==> Rank(first) <= Rank(t)
    decreases Rank(s)
  {
    if Shadowed(slots, s) {
      var t :| t in slots && Rank(t) < Rank(s) && slots[t] == slots[s];
      first := FirstOccurrenceKept(slots, t);
    } else {
      first := s;
    }
  }

  lemma {:induction false} FloatingAvoidsActive(fields: seq<(string, Json)>, active: set<Widget>)
    ensures FloatingEntries(fields, active).Keys !! active
  {
    if fields == [] {
    } else {
      FloatingAvoidsActive(fields[1..], active);
    }
  }

  /** Whatever the document held, the layout read from it is normal. */
  lemma NormalizedIsNormal(raw: Json)
    requires Normalized(raw).Some?
    ensures Normal(Normalized(raw).value)
  {
    hide SlotEntries, FloatingEntries, SideSlotKeys, Find, Deduped, Placed, SideShape;
    var l := Normalized(raw).value;
    var structured := Structured(ReadSlots(Get(raw, "slots")), ParseCounts(Get(raw, "sideSlotCounts")));
    DedupedUnique(structured);
    DedupedKeys(structured);
    FloatingAvoidsActive(Fields(Get(raw, "floating")), Active(l.slots));
  }

  lemma DedupedKeys(slots: Slots)
    ensures Deduped(slots).Keys == slots.Keys
  {
  }

  // ---------------------------------------------------------------- what reading means

  /** The values of a field: the number itself inside the range, outside it the nearest bound. */
  lemma ClampIsNearest(json: Json, low: real, high: real, fallback: real, y: real)
    requires low <= y <= high
    ensures !json.Number? ==> Clamp(json, low, high, fallback) == fallback
    ensures json.Number? ==>
              var x, r := json.number, Clamp(json, low, high, fallback);
              && low <= r <= high
              && (if r <= x then x - r else r - x) <= (if y <= x then x - y else y - x)
  {
  }

  lemma WidgetOfName(name: string, w: Widget)
    ensures ParseWidget(name) == Some(w) <==> name == WidgetName(w) || (w == Events && name == "logs")
  {
  }

  predicate Zeros(s: string) {
    forall c :: c in s ==> c == '0'
  }

  lemma {:induction false} SmallValue(digits: string, i: Index)
    requires digits != "" && forall c :: c in digits ==> Strings.IsDigit(c)
    ensures Value(digits) == i <==> Zeros(digits[..|digits| - 1]) && digits[|digits| - 1] == '0' + i as char
  {
    var front, last := digits[..|digits| - 1], digits[|digits| - 1];
    assert last in digits && forall c :: c in front ==> c in digits;
    ZeroValue(front);
    assert Value(digits) == 10 * Value(front) + (last as int - '0' as int);
    assert Strings.IsDigit(last);
  }

  lemma {:induction false} ZeroValue(digits: string)
    requires forall c :: c in digits ==> Strings.IsDigit(c)
    ensures Value(digits) == 0 <==> Zeros(digits)
  {
    if digits == "" {
    } else {
      var front, last := digits[..|digits| - 1], digits[|digits| - 1];
      assert last in digits && Strings.IsDigit(last) && digits == front + [last];
      ZeroValue(front);
      assert forall c :: c in digits <==> c in front || c == last;
    }
  }

  /** The keys of a slot: its own, and the same with zeros in front of the digit. */
  lemma KeysOfSlot(key: string, i: Index)
    ensures ParseSlotKey(key) == Some(SideSlot(Left, i)) <==>
              exists zeros :: Zeros(zeros) && key == "left:" + zeros + ['0' + i as char]
    ensures ParseSlotKey(key) == Some(SideSlot(Right, i)) <==>
              exists zeros :: Zeros(zeros) && key == "right:" + zeros + ['0' + i as char]
  {
    hide ParseIndex;
    KeysOfSide(Left, "left:", key, i);
    KeysOfSide(Right, "right:", key, i);
    PrefixesDiffer(key);
  }

  lemma PrefixesDiffer(key: string)
    ensures "left:" <= key ==> key[0] == 'l'
    ensures "right:" <= key ==> key[0] == 'r'
    ensures key == "bottom" ==> key[0] == 'b'
  {
  }

  lemma KeysOfSide(side: Side, prefix: string, key: string, i: Index)
    ensures (prefix <= key && ParseIndex(side, key[|prefix|..]) == Some(SideSlot(side, i))) <==>
              exists zeros :: Zeros(zeros) && key == prefix + zeros + ['0' + i as char]
  {
    hide Zeros;
    if prefix <= key && ParseIndex(side, key[|prefix|..]).Some? {
      var digits := key[|prefix|..];
      SmallValue(digits, i);
      assert key == prefix + digits[..|digits| - 1] + [digits[|digits| - 1]];
    }
    if zeros :| Zeros(zeros) && key == prefix + zeros + ['0' + i as char] {
      DigitsOnly(zeros, i);
      var digits := zeros + ['0' + i as char];
      assert key[|prefix|..] == digits && digits[..|digits| - 1] == zeros;
      SmallValue(digits, i);
    }
  }

  lemma DigitsOnly(zeros: string, i: Index)
    requires Zeros(zeros)
    ensures forall c :: c in zeros + ['0' + i as char] ==> Strings.IsDigit(c)
  {
  }

  /** Of the entries that name a slot the last one decides what it shows. */
  lemma {:induction false} LastSlotEntryWins(fields: seq<(string, Json)>, s: Slot, k: nat)
    requires k < |fields| && ParseSlotKey(fields[k].0) == Some(s)
    requires forall j :: k < j < |fields| ==> ParseSlotKey(fields[j].0) != Some(s)
    ensures s in SlotEntries(fields) && SlotEntries(fields)[s] == ParseGroup(fields[k].1)
  {
    hide ParseSlotKey, ParseGroup;
    if k == 0 {
      NoSlotEntry(fields[1..], s);
    } else {
      LastSlotEntryWins(fields[1..], s, k - 1);
    }
  }

  lemma {:induction false} NoSlotEntry(fields: seq<(string, Json)>, s: Slot)
    requires forall j :: 0 <= j < |fields| ==> ParseSlotKey(fields[j].0) != Some(s)
    ensures s !in SlotEntries(fields)
  {
    hide ParseSlotKey, ParseGroup;
    if fields == [] {
    } else {
      NoSlotEntry(fields[1..], s);
    }
  }

  /** The slot an entry of the floating windows gives to a widget. */
  function FloatsTo(field: (string, Json), w: Widget): Option<Slot> {
    var origin := Get(field.1, "origin");
    if ParseWidget(field.0) == Some(w) && origin.Text? then ParseSlotKey(origin.text) else None
  }

  /** An active widget does not float; of the valid entries of another the last one decides. */
  lemma {:induction false} LastFloatingEntryWins(fields: seq<(string, Json)>, active: set<Widget>, w: Widget, k: nat)
    requires w !in active && k < |fields| && FloatsTo(fields[k], w).Some?
    requires forall j :: k < j < |fields| ==> FloatsTo(fields[j], w).None?
    ensures w in FloatingEntries(fields, active)
    ensures FloatingEntries(fields, active)[w] == FloatsTo(fields[k], w).value
  {
    hide ParseSlotKey, ParseWidget, Find;
    if k == 0 {
      NoFloatingEntry(fields[1..], active, w);
    } else {
      LastFloatingEntryWins(fields[1..], active, w, k - 1);
    }
  }

  lemma {:induction false} NoFloatingEntry(fields: seq<(string, Json)>, active: set<Widget>, w: Widget)
    requires w in active || forall j :: 0 <= j < |fields| ==> FloatsTo(fields[j], w).None?
    ensures w !in FloatingEntries(fields, active)
  {
    hide ParseSlotKey, ParseWidget, Find;
    if fields == [] {
    } else {
      NoFloatingEntry(fields[1..], active, w);
    }
  }

  /** Which documents are refused: whatever else they hold, only these three fields matter. */
  lemma ReadableIff(raw: Json)
    ensures Normalized(raw).Some? <==>
              && Get(raw, "version") == Number(1.0)
              && Get(raw, "sizes") !in [Nothing, Flag(false), Number(0.0), Text("")]
              && Get(raw, "slots") !in [Nothing, Flag(false), Number(0.0), Text("")]
  {
    hide Find;
    FindNothing("version");
  }

  lemma Defaults()
    ensures ParseSizes(Object([])) == Sizes(320.0, 360.0, 240.0)
    ensures ParseCollapsed(Nothing) == Collapsed(false, false, false)
    ensures ParseCounts(Nothing) == Counts(1.0, 1.0) == ClampCounts(Counts(1.0, 1.0))
    ensures forall active :: FloatingEntries(Fields(Nothing), active) == map[]
  {
    FindNothing("left");
    FindNothing("right");
    FindNothing("bottom");
  }

  lemma NoSlotsRead()
    ensures var counts := Counts(1.0, 1.0);
            Deduped(Structured(ReadSlots(Object([])), counts)) == map s | s in Shape(counts) :: None
  {
    hide SideSlotKeys, Shape;
    var read, counts := ReadSlots(Object([])), Counts(1.0, 1.0);
    NoSideSlots(read, Left, 0);
    NoSideSlots(read, Right, 0);
    var structured := Structured(read, counts);
    assert forall s :: s in structured ==> structured[s] == None;
    DedupedFixed(structured);
  }

  /** The smallest document gives the default sizes, one empty slot a side and nothing else. */
  lemma SmallestDocument()
    ensures var raw := Object([("version", Number(1.0)), ("sizes", Object([])), ("slots", Object([]))]);
            var counts := Counts(1.0, 1.0);
            Normalized(raw) == Some(Layout(Sizes(320.0, 360.0, 240.0), Collapsed(false, false, false), counts,
                                           map s | s in Shape(counts) :: None, map[]))
  {
    hide Find, Shape, ParseSizes, ParseCollapsed, ParseCounts, ClampCounts, ReadSlots, Structured, Deduped;
    hide FloatingEntries, Active;
    var fields := [("version", Number(1.0)), ("sizes", Object([])), ("slots", Object([]))];
    FindField(fields, 0);
    FindField(fields, 1);
    FindField(fields, 2);
    NotThere(fields, "sideSlotCounts");
    NotThere(fields, "collapsed");
    NotThere(fields, "floating");
    Defaults();
    NoSlotsRead();
  }

  lemma {:induction false} NotThere(fields: seq<(string, Json)>, name: string)
    requires forall i :: 0 <= i < |fields| ==> fields[i].0 != name
    ensures Find(fields, name) == Nothing
  {
    if fields == [] {
    } else {
      NotThere(fields[..|fields| - 1], name);
    }
  }

  // ---------------------------------------------------------------- writing and reading back

  function GroupJson(group: Option<Widget>): Json {
    Object([("active", if group.Some? then Text(WidgetName(group.value)) else Nothing)])
  }

  /** The fields of the slots in a given order. */
  function SlotFields(order: seq<Slot>, slots: Slots): seq<(string, Json)>
    requires forall s :: s in order ==> s in slots
  {
    if order == [] then [] else [(SlotKey(order[0]), GroupJson(slots[order[0]]))] + SlotFields(order[1..], slots)
  }

  function FloatingFields(order: seq<Widget>, floating: map<Widget, Slot>): seq<(string, Json)>
    requires forall w :: w in order ==> w in floating
  {
    if order == [] then []
    else
      [(WidgetName(order[0]), Object([("origin", Text(SlotKey(floating[order[0]])))]))]
      + FloatingFields(order[1..], floating)
  }

  function SizesJson(sizes: Sizes): Json {
    Object([("left", Number(sizes.left)), ("right", Number(sizes.right)), ("bottom", Number(sizes.bottom))])
  }

  function CollapsedJson(c: Collapsed): Json {
    Object([("left", Flag(c.left)), ("right", Flag(c.right)), ("bottom", Flag(c.bottom))])
  }

  function CountsJson(counts: Counts): Json {
    Object([("left", Number(counts.left)), ("right", Number(counts.right))])
  }

  /** Every slot and every floating widget is listed, in any order. */
  ghost predicate Lists(l: Layout, slotOrder: seq<Slot>, floatingOrder: seq<Widget>) {
    && (forall s :: s in slotOrder <==> s in l.slots)
    && (forall w :: w in floatingOrder <==> w in l.floating)
  }

  ghost function LayoutJson(l: Layout, slotOrder: seq<Slot>, floatingOrder: seq<Widget>): Json
    requires Lists(l, slotOrder, floatingOrder)
  {
    Object([("version", Number(1.0)), ("sizes", SizesJson(l.sizes)), ("collapsed", CollapsedJson(l.collapsed)),
            ("sideSlotCounts", CountsJson(l.counts)), ("slots", Object(SlotFields(slotOrder, l.slots))),
            ("floating", Object(FloatingFields(floatingOrder, l.floating)))])
  }

  lemma WidgetNameRoundTrip(w: Widget)
    ensures ParseWidget(WidgetName(w)) == Some(w)
  {
  }

  lemma SlotKeyRoundTrip(s: Slot)
    ensures ParseSlotKey(SlotKey(s)) == Some(s)
  {
    if s.SideSlot? {
      var digits := ['0' + s.index as char];
      assert digits[..0] == "" && Value("") == 0;
      assert Value(digits) == s.index;
      var key := SlotKey(s);
      if s.side == Left {
        assert key[0] == 'l' && key[5..] == digits;
      } else {
        assert key[0] == 'r' && key[6..] == digits;
      }
    }
  }

  lemma FindLast(fields: seq<(string, Json)>, name: string, value: Json)
    ensures Find(fields + [(name, value)], name) == value
  {
  }

  /** A field is found by its name when no later field has the same. */
  lemma {:induction false} FindField(fields: seq<(string, Json)>, i: nat)
    requires i < |fields| && forall j :: i < j < |fields| ==> fields[j].0 != fields[i].0
    ensures Find(fields, fields[i].0) == fields[i].1
  {
    if i == |fields| - 1 {
    } else {
      FindField(fields[..|fields| - 1], i);
    }
  }

  lemma GroupRoundTrip(group: Option<Widget>)
    ensures ParseGroup(GroupJson(group)) == group
  {
  }

  lemma SlotFieldReadsBack(s: Slot, group: Option<Widget>)
    ensures SlotEntry((SlotKey(s), GroupJson(group))) == map[s := group]
  {
    hide SlotKey, ParseSlotKey, GroupJson, ParseGroup;
    SlotKeyRoundTrip(s);
    GroupRoundTrip(group);
  }

  lemma {:induction false} SlotFieldsReadBack(order: seq<Slot>, slots: Slots)
    requires forall s :: s in order ==> s in slots
    ensures SlotEntries(SlotFields(order, slots)) == map s | s in order :: slots[s]
  {
    hide SlotEntry, SlotKey, GroupJson;
    if order == [] {
    } else {
      var s := order[0];
      SlotFieldReadsBack(s, slots[s]);
      SlotFieldsReadBack(order[1..], slots);
      assert SlotFields(order, slots)[1..] == SlotFields(order[1..], slots);
      assert forall t :: t in order <==> t == s || t in order[1..];
    }
  }

  lemma FloatingFieldReadBack(w: Widget, slot: Slot, active: set<Widget>)
    requires w !in active
    ensures FloatingEntry((WidgetName(w), Object([("origin", Text(SlotKey(slot)))])), active) == map[w := slot]
  {
    hide ParseWidget, WidgetName, ParseSlotKey, SlotKey, Find;
    var origin := Text(SlotKey(slot));
    WidgetNameRoundTrip(w);
    SlotKeyRoundTrip(slot);
    FindLast([], "origin", origin);
    assert [] + [("origin", origin)] == [("origin", origin)];
  }

  lemma {:induction false} FloatingFieldsReadBack(order: seq<Widget>, floating: map<Widget, Slot>, active: set<Widget>)
    requires floating.Keys !! active && forall w :: w in order ==> w in floating
    ensures FloatingEntries(FloatingFields(order, floating), active) == map w | w in order :: floating[w]
  {
    hide FloatingEntry, WidgetName, SlotKey;
    if order == [] {
    } else {
      var w := order[0];
      FloatingFieldReadBack(w, floating[w], active);
      FloatingFieldsReadBack(order[1..], floating, active);
      assert FloatingFields(order, floating)[1..] == FloatingFields(order[1..], floating);
      assert FloatingEntry(FloatingFields(order, floating)[0], active) == map[w := floating[w]];
    }
  }

  lemma {:induction false} NoSideSlots(slots: Slots, side: Side, from: nat)
    requires forall i: Index :: from <= i ==> SideSlot(side, i) !in slots
    ensures SideSlotKeys(slots, side, from) == []
    decreases MAX_SIDE_SLOTS - from
  {
    if from >= MAX_SIDE_SLOTS {
    } else {
      NoSideSlots(slots, side, from + 1);
    }
  }

  /** A side without gaps lists its slots at their own index. */
  lemma {:induction false} SideWithoutGaps(slots: Slots, side: Side, count: int, from: nat)
    requires forall i: Index :: SideSlot(side, i) in slots <==> i < count
    requires from <= count <= MAX_SIDE_SLOTS
    ensures var keys := SideSlotKeys(slots, side, from);
            |keys| == count - from && forall k :: 0 <= k < |keys| ==> keys[k] == SideSlot(side, from + k)
    decreases MAX_SIDE_SLOTS - from
  {
    hide Rank;
    if from < count {
      var rest := SideSlotKeys(slots, side, from + 1);
      assert SideSlot(side, from) in slots;
      assert SideSlotKeys(slots, side, from) == [SideSlot(side, from)] + rest;
      SideWithoutGaps(slots, side, count, from + 1);
    } else {
      NoSideSlots(slots, side, from);
    }
  }

  lemma StructuredFixed(slots: Slots, counts: Counts)
    requires 1.0 <= counts.left <= 10.0 && 1.0 <= counts.right <= 10.0
    requires slots.Keys == Shape(counts)
    ensures ClampCounts(counts) == counts && Structured(slots, counts) == slots
  {
    hide SideSlotKeys, SideShape, Rank;
    SideShapeMembers(Left, counts.left);
    SideShapeMembers(Right, counts.right);
    SideWithoutGaps(slots, Left, Ceiling(counts.left), 0);
    SideWithoutGaps(slots, Right, Ceiling(counts.right), 0);
    assert Bottom in slots;
  }

  lemma SlotsReadBack(l: Layout, order: seq<Slot>)
    requires Normal(l) && forall s :: s in order <==> s in l.slots
    ensures Deduped(Structured(ReadSlots(Object(SlotFields(order, l.slots))), l.counts)) == l.slots
  {
    hide SlotEntries, SideSlotKeys, Placed, Deduped, SlotFields;
    SlotFieldsReadBack(order, l.slots);
    assert Bottom in l.slots;
    assert ReadSlots(Object(SlotFields(order, l.slots))) == l.slots;
    StructuredFixed(l.slots, l.counts);
    DedupedFixed(l.slots);
  }

  lemma SizesReadBack(sizes: Sizes)
    requires InBounds(sizes)
    ensures ParseSizes(SizesJson(sizes)) == sizes
  {
    FindField(SizesJson(sizes).fields, 0);
    FindField(SizesJson(sizes).fields, 1);
    FindField(SizesJson(sizes).fields, 2);
  }

  lemma CollapsedReadBack(c: Collapsed)
    ensures ParseCollapsed(CollapsedJson(c)) == c
  {
    FindField(CollapsedJson(c).fields, 0);
    FindField(CollapsedJson(c).fields, 1);
    FindField(CollapsedJson(c).fields, 2);
  }

  lemma CountsReadBack(counts: Counts)
    requires 1.0 <= counts.left <= 10.0 && 1.0 <= counts.right <= 10.0
    ensures ParseCounts(CountsJson(counts)) == counts
  {
    FindField(CountsJson(counts).fields, 0);
    FindField(CountsJson(counts).fields, 1);
  }

  /** A normal layout, written in any order of its fields, reads back as itself. */
  lemma NormalReadsBack(l: Layout, slotOrder: seq<Slot>, floatingOrder: seq<Widget>)
    requires Normal(l) && Lists(l, slotOrder, floatingOrder)
    ensures Normalized(LayoutJson(l, slotOrder, floatingOrder)) == Some(l)
  {
    hide Find, ParseSizes, ParseCollapsed, ParseCounts, ClampCounts, ReadSlots, Structured, Deduped, FloatingEntries;
    hide SlotFields, FloatingFields, CollapsedJson, CountsJson, Active, Shape;
    var json := LayoutJson(l, slotOrder, floatingOrder);
    forall i | 0 <= i < 6
      ensures Get(json, json.fields[i].0) == json.fields[i].1
    {
      FindField(json.fields, i);
    }
    assert json.fields[0].0 == "version" && json.fields[1].0 == "sizes" && json.fields[2].0 == "collapsed";
    assert json.fields[3].0 == "sideSlotCounts" && json.fields[4].0 == "slots" && json.fields[5].0 == "floating";
    SizesReadBack(l.sizes);
    CollapsedReadBack(l.collapsed);
    CountsReadBack(l.counts);
    SlotsReadBack(l, slotOrder);
    FloatingFieldsReadBack(floatingOrder, l.floating, Active(l.slots));
    assert l.floating == map w | w in floatingOrder :: l.floating[w];
    StructuredFixed(l.slots, l.counts);
  }

  /** Main result: what was read, written back and read again is unchanged. */
  lemma NormalizeIdempotent(raw: Json, slotOrder: seq<Slot>, floatingOrder: seq<Widget>)
    requires Normalized(raw).Some? && Lists(Normalized(raw).value, slotOrder, floatingOrder)
    ensures Normalized(LayoutJson(Normalized(raw).value, slotOrder, floatingOrder)) == Normalized(raw)
  {
    hide Normalized, Normal, Lists, LayoutJson;
    NormalizedIsNormal(raw);
    NormalReadsBack(Normalized(raw).value, slotOrder, floatingOrder);
  }

  lemma {:induction false} ListSlots(slots: set<Slot>) returns (order: seq<Slot>)
    ensures forall s :: s in order <==> s in slots
    decreases slots
  {
    if slots == {} {
      order := [];
    } else {
      var s :| s in slots;
      order := ListSlots(slots - {s});
      order := [s] + order;
    }
  }

  lemma {:induction false} ListWidgets(widgets: set<Widget>) returns (order: seq<Widget>)
    ensures forall w :: w in order <==> w in widgets
    decreases widgets
  {
    if widgets == {} {
      order := [];
    } else {
      var w :| w in widgets;
      order := ListWidgets(widgets - {w});
      order := [w] + order;
    }
  }

  /** The normal layouts are exactly the layouts that some document is read as. */
  lemma NormalIffRead(l: Layout)
    ensures Normal(l) <==> exists raw :: Normalized(raw) == Some(l)
  {
    hide Normal, Normalized, LayoutJson;
    if Normal(l) {
      var slotOrder := ListSlots(l.slots.Keys);
      var floatingOrder := ListWidgets(l.floating.Keys);
      NormalReadsBack(l, slotOrder, floatingOrder);
    }
    forall raw | Normalized(raw) == Some(l)
      ensures Normal(l)
    {
      NormalizedIsNormal(raw);
    }
  }

  // ---------------------------------------------------------------- which operations keep the layout normal

  /** A move keeps the layout normal exactly when the target is one of its slots and the widget does not float. */
  lemma MoveKeepsNormalIff(l: Layout, widget: Widget, target: Slot)
    requires Normal(l)
    ensures Normal(l.(slots := Moved(l.slots, widget, target))) <==> target in l.slots && widget !in l.floating
  {
    hide Shape;
    var moved := Moved(l.slots, widget, target);
    assert moved.Keys == l.slots.Keys + {target};
    assert target in moved && moved[target] == Some(widget);
    assert widget in Active(moved);
    forall w | w in Active(moved)
      ensures w == widget || w in Active(l.slots)
    {
      var s :| s in moved && moved[s] == Some(w);
      assert s == target || l.slots[s] == Some(w);
    }
  }

  function CountOf(counts: Counts, side: Side): real {
    if side == Left then counts.left else counts.right
  }

  function WithCount(counts: Counts, side: Side, count: real): Counts {
    if side == Left then counts.(left := count) else counts.(right := count)
  }

  /** The layout after one more slot was asked for on a side. */
  function IncreasedLayout(l: Layout, side: Side): Layout {
    var count := CountOf(l.counts, side);
    l.(counts := WithCount(l.counts, side, NextCount(count)), slots := Increased(l.slots, side, count))
  }

  /** The slot the new count asks for. */
  function Asked(count: real): Index
    requires 1.0 <= count <= 10.0
  {
    if count <= 9.0 then Ceiling(count) else 9
  }

  lemma AskedShape(counts: Counts, side: Side)
    requires 1.0 <= CountOf(counts, side) <= 10.0
    ensures var count := CountOf(counts, side);
            && Shape(WithCount(counts, side, NextCount(count))) == Shape(counts) + {SideSlot(side, Asked(count))}
            && (SideSlot(side, Asked(count)) in Shape(counts) <==> count > 9.0)
  {
    hide SideShape;
    var count := CountOf(counts, side);
    var next := NextCount(count);
    SideShapeMembers(Left, counts.left);
    SideShapeMembers(Right, counts.right);
    SideShapeMembers(side, next);
    assert SideShape(side, next) == SideShape(side, count) + {SideSlot(side, Asked(count))};
  }

  lemma IncreasedSlots(l: Layout, side: Side)
    requires Normal(l)
    ensures var count := CountOf(l.counts, side);
            Increased(l.slots, side, count)
            == if (Whole(count) && count <= 9.0) || 9.0 < count < 10.0 then
                 l.slots[SideSlot(side, Asked(count)) := None]
               else l.slots
  {
    hide Shape, Unique, Active;
  }

  /** Emptying or adding an empty slot shows nothing new. */
  lemma EmptiedShowsLess(slots: Slots, s: Slot)
    ensures Unique(slots) ==> Unique(slots[s := None])
    ensures Active(slots[s := None]) <= Active(slots)
  {
    forall w | w in Active(slots[s := None])
      ensures w in Active(slots)
    {
      var t :| t in slots[s := None] && slots[s := None][t] == Some(w);
      assert t in slots && slots[t] == Some(w);
    }
  }

  /**
   One more slot keeps the layout normal exactly when the count is whole or above nine. Below nine
   a fractional count asks for the next whole slot, but the source names a slot by the fraction.
   */
  lemma IncreaseKeepsNormalIff(l: Layout, side: Side)
    requires Normal(l)
    ensures Normal(IncreasedLayout(l, side)) <==> Whole(CountOf(l.counts, side)) || CountOf(l.counts, side) > 9.0
  {
    hide Shape, Unique, Active, Increased;
    var count := CountOf(l.counts, side);
    var asked := SideSlot(side, Asked(count));
    IncreasedSlots(l, side);
    AskedShape(l.counts, side);
    EmptiedShowsLess(l.slots, asked);
    assert l.slots[asked := None].Keys == l.slots.Keys + {asked};
  }

  /** No shown widget is lost exactly when the last slot is not emptied between nine and ten, or shows nothing. */
  lemma IncreaseKeepsWidgetsIff(l: Layout, side: Side)
    requires Normal(l)
    ensures var count := CountOf(l.counts, side);
            9.0 < count < 10.0 ==> SideSlot(side, 9) in l.slots
    ensures var count := CountOf(l.counts, side);
            Active(IncreasedLayout(l, side).slots) == Active(l.slots)
            <==> !(9.0 < count < 10.0 && l.slots[SideSlot(side, 9)].Some?)
  {
    hide Shape, Increased;
    var count := CountOf(l.counts, side);
    var asked := SideSlot(side, Asked(count));
    IncreasedSlots(l, side);
    AskedShape(l.counts, side);
    EmptiedShowsLess(l.slots, asked);
    var emptied := l.slots[asked := None];
    forall w | w in Active(l.slots)
      ensures w in Active(emptied) <==> !(asked in l.slots && l.slots[asked] == Some(w))
    {
      var s :| s in l.slots && l.slots[s] == Some(w);
      if s != asked {
        assert emptied[s] == Some(w);
      }
    }
  }

  /** A layout without widgets but one, in the last left slot, at a given left count. */
  function Sparse(count: real, shown: Option<Widget>): Layout {
    var counts := Counts(count, 1.0);
    Layout(Sizes(320.0, 360.0, 240.0), Collapsed(false, false, false), counts,
           map s | s in Shape(counts) :: if s == SideSlot(Left, 9) then shown else None, map[])
  }

  lemma SparseIsNormal(count: real, shown: Option<Widget>)
    requires 1.0 <= count <= 10.0
    ensures Normal(Sparse(count, shown))
  {
    hide Shape;
  }

  /** The concrete failure at 2.5: a layout that is read from a document loses its shape. */
  lemma FractionalCountMissesSlot()
    ensures var l := Sparse(2.5, None);
            && (exists raw :: Normalized(raw) == Some(l))
            && SideSlot(Left, 3) in Shape(IncreasedLayout(l, Left).counts)
            && SideSlot(Left, 3) !in IncreasedLayout(l, Left).slots
            && !Normal(IncreasedLayout(l, Left))
  {
    hide Normalized, Shape;
    var l := Sparse(2.5, None);
    SparseIsNormal(2.5, None);
    NormalIffRead(l);
    IncreaseKeepsNormalIff(l, Left);
    AskedShape(l.counts, Left);
    assert (2.5).Floor == 2;
    assert Asked(2.5) == 3;
  }

  /** The concrete failure at 9.5: the widget in the last slot disappears. */
  lemma FractionalCountLosesWidget()
    ensures var l := Sparse(9.5, Some(Ai));
            && (exists raw :: Normalized(raw) == Some(l))
            && Ai in Active(l.slots) && Ai !in Active(IncreasedLayout(l, Left).slots)
  {
    hide Normalized, Shape;
    var l := Sparse(9.5, Some(Ai));
    SparseIsNormal(9.5, Some(Ai));
    NormalIffRead(l);
    AskedShape(l.counts, Left);
    assert SideSlot(Left, 9) in l.slots && l.slots[SideSlot(Left, 9)] == Some(Ai);
    IncreasedSlots(l, Left);
  }

  /** Closing a slot keeps the layout normal, also when there is no such slot. */
  lemma CloseKeepsNormal(l: Layout, slot: Slot)
    requires Normal(l)
    ensures Normal(l.(slots := if slot in l.slots then l.slots[slot := None] else l.slots))
  {
    hide Shape;
    EmptiedShowsLess(l.slots, slot);
    assert slot in l.slots ==> l.slots[slot := None].Keys == l.slots.Keys;
  }
}
