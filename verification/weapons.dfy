/** The per-weapon record both weapon managers keep: scene 1's
    `WeaponManager.WeaponUnlockInfo` and scene 2's
    `WeaponManagerScene2.BossWeapon`. Range, muzzle, effects and recoil
    belong to the engine-side shot and are left out. */
module Weapons {

  /** What the scene configures for a roster entry. `hasObject` says whether
      a weapon object is assigned; `trashRequired` and `weaponIndex` are
      read only by the scene-1 manager, `damage` only by the scene-2 one. */
  datatype WeaponConfig = WeaponConfig(
    hasObject: bool,
    name: string,
    trashRequired: int,
    weaponIndex: int,
    fireRate: real,
    maxAmmo: int,
    damage: real)

  /** A roster entry: its configuration and the two hidden fields the
      managers maintain, `isUnlocked` and `currentAmmo`. */
  datatype Weapon = Weapon(config: WeaponConfig, unlocked: bool, ammo: int)

  /** A roster entry before any script runs: the hidden fields hold C#'s
      default values. */
  function Configured(c: WeaponConfig): (w: Weapon)
    ensures w.config == c && !w.unlocked && w.ammo == 0
  {
    Weapon(c, false, 0)
  }

  /** Ammunition lies between 0 and the magazine size, for a weapon whose
      magazine size is not negative. */
  predicate AmmoInRange(w: Weapon) {
    w.config.maxAmmo >= 0 ==> 0 <= w.ammo <= w.config.maxAmmo
  }

  /** `currentAmmo--`, done by a shot, which both managers fire only with
      ammunition left. */
  function Fired(w: Weapon): (r: Weapon)
    requires w.ammo > 0
    ensures r.config == w.config && r.unlocked == w.unlocked
    ensures r.ammo == w.ammo - 1 >= 0
    ensures AmmoInRange(w) ==> AmmoInRange(r)
  {
    w.(ammo := w.ammo - 1)
  }

  /** `currentAmmo = maxAmmo`, done when a reload finishes. */
  function Refilled(w: Weapon): (r: Weapon)
    ensures r.config == w.config && r.unlocked == w.unlocked
    ensures r.ammo == w.config.maxAmmo && AmmoInRange(r)
  {
    w.(ammo := w.config.maxAmmo)
  }
}
