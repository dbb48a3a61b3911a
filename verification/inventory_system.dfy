/** The trash inventory (InventorySystem.cs): a capacity-bounded running
    total and one slot per trash type whose count lives only in the slot's
    label text. Sounds, status messages and the quest/weapon notifications
    are left to the callers; `Accepts` says when a pickup notifies them. */
module InventorySystem {
  import opened Wrappers
  import opened Decimal
  import opened InventorySlot

  datatype Inventory = Inventory(maxCapacity: Int32, slots: seq<Slot>, totalItems: Int32)

  predicate Distinct(kinds: seq<TrashType>) {
    forall i, j :: 0 <= i < j < |kinds| ==> kinds[i] != kinds[j]
  }

  /** `GetSlotByType`: the first slot holding trash of type `t`. */
  function SlotIndex(slots: seq<Slot>, t: TrashType): (r: Option<nat>)
    ensures r.Some? ==> r.value < |slots| && slots[r.value].kind == t
    ensures r.Some? ==> forall j :: 0 <= j < r.value ==> slots[j].kind != t
    ensures r.None? ==> forall j :: 0 <= j < |slots| ==> slots[j].kind != t
    decreases |slots|
  {
    if |slots| == 0 then None
    else if slots[0].kind == t then Some(0)
    else match SlotIndex(slots[1..], t)
      case None => None
      case Some(i) => Some(i + 1)
  }

  /** The count a slot's label says it holds: 0 when the slot is empty or
      the text does not parse. */
  function SlotCount(s: Slot): Int32 {
    if s.isEmpty then 0
    else match TryParse(s.countText)
      case Some(n) => n
      case None => 0
  }

  /** `GetItemCount`: the count in the first slot of type `t`, 0 when there
      is no such slot. */
  function GetItemCount(inv: Inventory, t: TrashType): (r: Int32)
    ensures SlotIndex(inv.slots, t).None? ==> r == 0
    ensures SlotIndex(inv.slots, t).Some? && inv.slots[SlotIndex(inv.slots, t).value].isEmpty ==> r == 0
  {
    match SlotIndex(inv.slots, t)
    case None => 0
    case Some(i) => SlotCount(inv.slots[i])
  }

  function GetTotalItems(inv: Inventory): Int32 {
    inv.totalItems
  }

  /** The sum of `GetItemCount` over the given trash types. */
  function TotalCount(inv: Inventory, kinds: seq<TrashType>): int
    decreases |kinds|
  {
    if kinds == [] then 0 else GetItemCount(inv, kinds[0]) + TotalCount(inv, kinds[1..])
  }

  function CanAddItem(inv: Inventory): bool {
    inv.totalItems < inv.maxCapacity
  }

  function IsFull(inv: Inventory): (r: bool)
    ensures r <==> !CanAddItem(inv)
  {
    inv.totalItems >= inv.maxCapacity
  }

  /** A pickup of type `t` is taken (and the weapon and quest managers are
      told) exactly when there is room and a slot for that type. */
  predicate Accepts(inv: Inventory, t: TrashType) {
    CanAddItem(inv) && SlotIndex(inv.slots, t).Some?
  }

  /** Two slot sequences that differ only in counts have the same layout. */
  predicate SameLayout(a: seq<Slot>, b: seq<Slot>) {
    |a| == |b| && forall j :: 0 <= j < |a| ==> a[j].kind == b[j].kind
  }

  lemma SameLayoutSameIndex(a: seq<Slot>, b: seq<Slot>, t: TrashType)
    requires SameLayout(a, b)
    ensures SlotIndex(a, t) == SlotIndex(b, t)
  {
    var ra, rb := SlotIndex(a, t), SlotIndex(b, t);
    if ra.Some? && rb.Some? {
      assert !(ra.value < rb.value) && !(rb.value < ra.value);
    }
  }

  /** Rewriting slot `i` leaves the count of every type whose first slot is
      elsewhere unchanged. */
  lemma OtherCountsUnchanged(inv: Inventory, i: nat, s: Slot)
    requires i < |inv.slots| && s.kind == inv.slots[i].kind
    ensures forall u :: SlotIndex(inv.slots, u) != Some(i) ==>
      GetItemCount(inv.(slots := inv.slots[i := s]), u) == GetItemCount(inv, u)
  {
    var slots' := inv.slots[i := s];
    assert SameLayout(inv.slots, slots');
    forall u | SlotIndex(inv.slots, u) != Some(i)
      ensures GetItemCount(inv.(slots := slots'), u) == GetItemCount(inv, u)
    {
      SameLayoutSameIndex(inv.slots, slots', u);
    }
  }

  /** `AddItem`: when full, or when no slot holds type `t`, nothing changes;
      otherwise the total and that slot's label both go up by one. The new
      count is `GetItemCount(t) + 1` computed in C# `int`. */
  function AddItem(inv: Inventory, t: TrashType): (r: Inventory)
    ensures !Accepts(inv, t) ==> r == inv
    ensures r.maxCapacity == inv.maxCapacity && SameLayout(inv.slots, r.slots)
    ensures Accepts(inv, t) ==> r.totalItems == inv.totalItems + 1
    ensures Accepts(inv, t) ==> !r.slots[SlotIndex(inv.slots, t).value].isEmpty
    ensures forall u :: u != t ==> GetItemCount(r, u) == GetItemCount(inv, u)
  {
    if !CanAddItem(inv) then inv
    else match SlotIndex(inv.slots, t)
      case None => inv
      case Some(i) =>
        var count := Wrap32(GetItemCount(inv, t) + 1);
        var slot := UpdateSlot(inv.slots[i], count).(isEmpty := false);
        OtherCountsUnchanged(inv, i, slot);
        Inventory(inv.maxCapacity, inv.slots[i := slot], inv.totalItems + 1)
  }

  /** `DepositItems`: a missing or empty slot changes nothing; otherwise the
      slot's count leaves the total and the slot becomes empty. */
  function DepositItems(inv: Inventory, t: TrashType): (r: Inventory)
    ensures SlotIndex(inv.slots, t).None? ==> r == inv
    ensures SlotIndex(inv.slots, t).Some? && inv.slots[SlotIndex(inv.slots, t).value].isEmpty ==> r == inv
    ensures SlotIndex(inv.slots, t).Some? ==> GetItemCount(r, t) == 0
    ensures r.maxCapacity == inv.maxCapacity && SameLayout(inv.slots, r.slots)
    ensures forall u :: u != t ==> GetItemCount(r, u) == GetItemCount(inv, u)
  {
    match SlotIndex(inv.slots, t)
    case None => inv
    case Some(i) =>
      if inv.slots[i].isEmpty then inv
      else
        var amount := GetItemCount(inv, t);
        var slot := UpdateSlot(inv.slots[i], 0).(isEmpty := true);
        OtherCountsUnchanged(inv, i, slot);
        SameLayoutSameIndex(inv.slots, inv.slots[i := slot], t);
        Inventory(inv.maxCapacity, inv.slots[i := slot], Wrap32(inv.totalItems - amount))
  }

  /** `UpdateAllSlots` from slot `i` on: every slot is rewritten with the
      count `GetItemCount` reports for its type. */
  function RefreshFrom(inv: Inventory, i: nat): (r: Inventory)
    requires i <= |inv.slots|
    ensures r.maxCapacity == inv.maxCapacity && r.totalItems == inv.totalItems
    ensures SameLayout(inv.slots, r.slots)
    decreases |inv.slots| - i
  {
    if i == |inv.slots| then inv
    else
      var s := inv.slots[i];
      RefreshFrom(inv.(slots := inv.slots[i := UpdateSlot(s, GetItemCount(inv, s.kind))]), i + 1)
  }

  /** `UpdateAllSlots`, run by `Start` and whenever the panel is opened. */
  function Refresh(inv: Inventory): Inventory {
    RefreshFrom(inv, 0)
  }

  /** `Start`: the configured slots with a total of 0, then `UpdateAllSlots`. */
  function Start(maxCapacity: Int32, slots: seq<Slot>): Inventory {
    Refresh(Inventory(maxCapacity, slots, 0))
  }

  /** The inventory's invariant, relative to the list `kinds` of all trash
      types: the total stays within capacity and equals the sum of the
      per-type counts read back from the labels. */
  ghost predicate Inv(inv: Inventory, kinds: seq<TrashType>) {
    && Distinct(kinds)
    && (forall j :: 0 <= j < |inv.slots| ==> inv.slots[j].kind in kinds)
    && (forall u :: GetItemCount(inv, u) >= 0)
    && 0 <= inv.totalItems
    && (inv.maxCapacity >= 0 ==> inv.totalItems <= inv.maxCapacity)
    && (inv.maxCapacity < 0 ==> inv.totalItems == 0)
    && inv.totalItems == TotalCount(inv, kinds)
  }

  /** Changing one type's count by `delta` changes the sum by `delta`. */
  lemma {:induction false} TotalCountChange(a: Inventory, b: Inventory, kinds: seq<TrashType>, t: TrashType, delta: int)
    requires Distinct(kinds) && t in kinds
    requires forall u :: u != t ==> GetItemCount(b, u) == GetItemCount(a, u)
    requires GetItemCount(b, t) == GetItemCount(a, t) + delta
    ensures TotalCount(b, kinds) == TotalCount(a, kinds) + delta
    decreases |kinds|
  {
    var rest := kinds[1..];
    assert Distinct(rest) by {
      forall i, j | 0 <= i < j < |rest| ensures rest[i] != rest[j] {
        assert rest[i] == kinds[i + 1] && rest[j] == kinds[j + 1];
      }
    }
    if kinds[0] == t {
      assert t !in rest by {
        forall j | 0 <= j < |rest| ensures rest[j] != t {
          assert rest[j] == kinds[j + 1];
        }
      }
      TotalCountUnchanged(a, b, rest, t);
    } else {
      assert t in rest by {
        var k :| 0 <= k < |kinds| && kinds[k] == t;
        assert k > 0 && rest[k - 1] == t;
      }
      TotalCountChange(a, b, rest, t, delta);
    }
  }

  /** Counts that agree on every listed type give the same sum. */
  lemma {:induction false} TotalCountUnchanged(a: Inventory, b: Inventory, kinds: seq<TrashType>, t: TrashType)
    requires t !in kinds
    requires forall u :: u != t ==> GetItemCount(b, u) == GetItemCount(a, u)
    ensures TotalCount(b, kinds) == TotalCount(a, kinds)
    decreases |kinds|
  {
    if kinds != [] {
      assert kinds[0] != t;
      assert t !in kinds[1..];
      TotalCountUnchanged(a, b, kinds[1..], t);
    }
  }

  /** With no negative counts, one type's count is at most the sum. */
  lemma {:induction false} CountAtMostTotal(inv: Inventory, kinds: seq<TrashType>, t: TrashType)
    requires forall u :: GetItemCount(inv, u) >= 0
    requires t in kinds
    ensures 0 <= GetItemCount(inv, t) <= TotalCount(inv, kinds)
    decreases |kinds|
  {
    if kinds[0] != t {
      assert t in kinds[1..];
      CountAtMostTotal(inv, kinds[1..], t);
    } else {
      TotalCountNonNegative(inv, kinds[1..]);
    }
  }

  lemma {:induction false} TotalCountNonNegative(inv: Inventory, kinds: seq<TrashType>)
    requires forall u :: GetItemCount(inv, u) >= 0
    ensures TotalCount(inv, kinds) >= 0
    decreases |kinds|
  {
    if kinds != [] {
      TotalCountNonNegative(inv, kinds[1..]);
    }
  }

  lemma {:induction false} TotalCountZero(inv: Inventory, kinds: seq<TrashType>)
    requires forall u :: GetItemCount(inv, u) == 0
    ensures TotalCount(inv, kinds) == 0
    decreases |kinds|
  {
    if kinds != [] {
      TotalCountZero(inv, kinds[1..]);
    }
  }

  /** A slot rewritten by `UpdateSlot(_, n)` reads back as `n` when `n` is
      positive and as 0 otherwise, whatever stale text its label keeps. */
  lemma SlotRoundTrip(s: Slot, n: Int32)
    ensures SlotCount(UpdateSlot(s, n)) == if n > 0 then n else 0
  {
  }

  /** The stale text left in an emptied label is never read: a slot emptied
      by `UpdateSlot(_, 0)` reads back as 0 even if its text is a number. */
  lemma StaleTextIgnored(s: Slot)
    requires !s.isEmpty && TryParse(s.countText) == Some(5)
    ensures UpdateSlot(s, 0).countText == s.countText
    ensures SlotCount(UpdateSlot(s, 0)) == 0 != SlotCount(s)
  {
  }

  lemma AddItemKeepsInv(inv: Inventory, kinds: seq<TrashType>, t: TrashType)
    requires Inv(inv, kinds)
    ensures Inv(AddItem(inv, t), kinds)
    ensures Accepts(inv, t) ==> GetItemCount(AddItem(inv, t), t) == GetItemCount(inv, t) + 1
  {
    if Accepts(inv, t) {
      var r := AddItem(inv, t);
      var i := SlotIndex(inv.slots, t).value;
      assert t in kinds by { assert inv.slots[i].kind == t; }
      CountAtMostTotal(inv, kinds, t);
      AddItemCount(inv, t);
      TotalCountChange(inv, r, kinds, t, 1);
      assert forall u :: GetItemCount(r, u) >= 0 by {
        forall u ensures GetItemCount(r, u) >= 0 {
          if u != t { assert GetItemCount(r, u) == GetItemCount(inv, u); }
        }
      }
      assert forall j :: 0 <= j < |r.slots| ==> r.slots[j].kind in kinds by {
        assert SameLayout(inv.slots, r.slots);
      }
    }
  }

  /** A pickup that is taken adds one to its type's count, as long as that
      count stays within C# `int`. */
  lemma AddItemCount(inv: Inventory, t: TrashType)
    requires Accepts(inv, t) && 0 <= GetItemCount(inv, t) < Int32Max
    ensures GetItemCount(AddItem(inv, t), t) == GetItemCount(inv, t) + 1
  {
    var r := AddItem(inv, t);
    var i := SlotIndex(inv.slots, t).value;
    var c := GetItemCount(inv, t);
    SameLayoutSameIndex(inv.slots, r.slots, t);
    assert r.slots[i] == UpdateSlot(inv.slots[i], c + 1).(isEmpty := false);
  }

  lemma DepositKeepsInv(inv: Inventory, kinds: seq<TrashType>, t: TrashType)
    requires Inv(inv, kinds)
    ensures Inv(DepositItems(inv, t), kinds)
    ensures DepositItems(inv, t).totalItems == inv.totalItems - GetItemCount(inv, t)
  {
    var r := DepositItems(inv, t);
    if SlotIndex(inv.slots, t).Some? {
      var i := SlotIndex(inv.slots, t).value;
      var c := GetItemCount(inv, t);
      assert t in kinds by { assert inv.slots[i].kind == t; }
      CountAtMostTotal(inv, kinds, t);
      if !inv.slots[i].isEmpty {
        assert r.totalItems == inv.totalItems - c;
        TotalCountChange(inv, r, kinds, t, -c);
      }
    }
  }

  /** One step of `UpdateAllSlots` leaves every type's count as it was. */
  lemma RefreshStepKeepsCounts(inv: Inventory, i: nat)
    requires i < |inv.slots|
    requires forall u :: GetItemCount(inv, u) >= 0
    ensures var s := inv.slots[i];
      var inv' := inv.(slots := inv.slots[i := UpdateSlot(s, GetItemCount(inv, s.kind))]);
      forall u :: GetItemCount(inv', u) == GetItemCount(inv, u)
  {
    var s := inv.slots[i];
    var s' := UpdateSlot(s, GetItemCount(inv, s.kind));
    var inv' := inv.(slots := inv.slots[i := s']);
    OtherCountsUnchanged(inv, i, s');
    forall u | SlotIndex(inv.slots, u) == Some(i)
      ensures GetItemCount(inv', u) == GetItemCount(inv, u)
    {
      SameLayoutSameIndex(inv.slots, inv'.slots, u);
      assert u == s.kind;
    }
  }

  lemma {:induction false} RefreshFromKeepsCounts(inv: Inventory, i: nat)
    requires i <= |inv.slots|
    requires forall u :: GetItemCount(inv, u) >= 0
    ensures forall u :: GetItemCount(RefreshFrom(inv, i), u) == GetItemCount(inv, u)
    decreases |inv.slots| - i
  {
    if i < |inv.slots| {
      var s := inv.slots[i];
      var inv' := inv.(slots := inv.slots[i := UpdateSlot(s, GetItemCount(inv, s.kind))]);
      RefreshStepKeepsCounts(inv, i);
      RefreshFromKeepsCounts(inv', i + 1);
    }
  }

  /** Opening the inventory panel rewrites every label but changes no
      count, so the invariant survives it. */
  lemma RefreshKeepsInv(inv: Inventory, kinds: seq<TrashType>)
    requires Inv(inv, kinds)
    ensures forall u :: GetItemCount(Refresh(inv), u) == GetItemCount(inv, u)
    ensures Inv(Refresh(inv), kinds)
  {
    RefreshFromKeepsCounts(inv, 0);
    var r := Refresh(inv);
    TotalCountUnchangedAll(inv, r, kinds);
  }

  lemma {:induction false} TotalCountUnchangedAll(a: Inventory, b: Inventory, kinds: seq<TrashType>)
    requires forall u :: GetItemCount(b, u) == GetItemCount(a, u)
    ensures TotalCount(b, kinds) == TotalCount(a, kinds)
    decreases |kinds|
  {
    if kinds != [] {
      TotalCountUnchangedAll(a, b, kinds[1..]);
    }
  }

  /** A freshly started inventory, whose slots all start empty, satisfies
      the invariant with a total of 0. */
  lemma StartInv(maxCapacity: Int32, slots: seq<Slot>, kinds: seq<TrashType>)
    requires Distinct(kinds)
    requires forall j :: 0 <= j < |slots| ==> slots[j].isEmpty && slots[j].kind in kinds
    ensures Inv(Start(maxCapacity, slots), kinds)
    ensures GetTotalItems(Start(maxCapacity, slots)) == 0
    ensures forall u :: GetItemCount(Start(maxCapacity, slots), u) == 0
  {
    var inv := Inventory(maxCapacity, slots, 0);
    forall u ensures GetItemCount(inv, u) == 0 {
    }
    RefreshFromKeepsCounts(inv, 0);
    var r := Start(maxCapacity, slots);
    assert forall u :: GetItemCount(r, u) == 0;
    TotalCountZero(r, kinds);
  }
}
