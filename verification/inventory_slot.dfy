/** One inventory slot (InventorySlot.cs): the trash type it holds, whether it
    is empty, and the text of its count label. The icon sprite and the
    enabled state of the icon and label are presentation and are left out. */
module InventorySlot {
  import opened Wrappers
  import opened Decimal

  /** A `TrashType` enum value, identified by its ordinal; the enum's own
      declaration is not part of this model. */
  type TrashType = nat

  datatype Slot = Slot(kind: TrashType, isEmpty: bool, countText: string)

  /** A slot as the scene places it: `isEmpty` starts true, and the count
      label holds whatever text it was authored with. */
  function NewSlot(kind: TrashType, authoredText: string): (s: Slot)
    ensures s.isEmpty
    ensures s.kind == kind && s.countText == authoredText
  {
    Slot(kind, true, authoredText)
  }

  /** `UpdateSlot(_, count)`: a positive count is written into the label as
      decimal text; otherwise the slot is marked empty and the label keeps
      its old, now hidden, text. */
  function UpdateSlot(s: Slot, count: Int32): (r: Slot)
    ensures r.kind == s.kind
    ensures r.isEmpty <==> count <= 0
    ensures count > 0 ==> TryParse(r.countText) == Some(count)
    ensures count <= 0 ==> r.countText == s.countText
  {
    if count <= 0 then
      s.(isEmpty := true)
    else
      ParseRender(count);
      Slot(s.kind, false, Render(count))
  }
}
