/** Scene 1 as the scripts wire it together: a successful pickup
    (`InventorySystem.AddItem`) tells the weapon manager
    (`AddTrashCollected`), which re-runs `CheckWeaponUnlocks` against the
    inventory's per-type counts; the weapon manager's own `Update` does the
    same every frame. */
module SceneOneWorld {
  import opened Wrappers
  import opened InventorySlot
  import InventorySystem
  import WeaponManager

  datatype World = World(inv: InventorySystem.Inventory, armory: WeaponManager.Armory)

  predicate WellFormed(w: World) {
    WeaponManager.WellFormed(w.armory)
  }

  /** A trash pickup of type `t`. */
  function Pickup(w: World, kinds: seq<TrashType>, t: TrashType): (r: World)
    requires WellFormed(w)
    ensures WellFormed(r)
    ensures r.inv == InventorySystem.AddItem(w.inv, t)
    ensures !InventorySystem.Accepts(w.inv, t) ==> r == w
  {
    var inv' := InventorySystem.AddItem(w.inv, t);
    if InventorySystem.Accepts(w.inv, t) then
      World(inv', WeaponManager.CheckWeaponUnlocks(w.armory, WeaponManager.TrashSeen(Some(inv'), kinds)))
    else World(inv', w.armory)
  }

  /** One weapon-manager frame. */
  function Frame(w: World, kinds: seq<TrashType>, f: WeaponManager.Frame): (r: World)
    requires WellFormed(w)
    ensures WellFormed(r) && r.inv == w.inv
  {
    w.(armory := WeaponManager.Update(w.armory, f, WeaponManager.TrashSeen(Some(w.inv), kinds)))
  }

  /** Weapons follow the inventory: right after a pickup is taken, a weapon
      is unlocked exactly when it already was or its threshold is within
      the inventory's new total, and the total went up by one. */
  lemma PickupUnlocksByTotal(w: World, kinds: seq<TrashType>, t: TrashType)
    requires WellFormed(w) && InventorySystem.Inv(w.inv, kinds)
    requires InventorySystem.Accepts(w.inv, t)
    ensures var r := Pickup(w, kinds, t);
      && InventorySystem.Inv(r.inv, kinds)
      && InventorySystem.GetTotalItems(r.inv) == InventorySystem.GetTotalItems(w.inv) + 1
      && forall j :: 0 <= j < |w.armory.weapons| ==>
           r.armory.weapons[j].unlocked ==
           (w.armory.weapons[j].unlocked || InventorySystem.GetTotalItems(r.inv) >= w.armory.weapons[j].config.trashRequired)
  {
    InventorySystem.AddItemKeepsInv(w.inv, kinds, t);
  }

  /** A frame does the same for whatever the inventory holds. */
  lemma FrameUnlocksByTotal(w: World, kinds: seq<TrashType>, f: WeaponManager.Frame)
    requires WellFormed(w) && InventorySystem.Inv(w.inv, kinds) && w.armory.initialized && !w.armory.isScene2
    ensures var r := Frame(w, kinds, f);
      forall j :: 0 <= j < |w.armory.weapons| ==>
        r.armory.weapons[j].unlocked ==
        (w.armory.weapons[j].unlocked || InventorySystem.GetTotalItems(w.inv) >= w.armory.weapons[j].config.trashRequired)
  {
  }
}
