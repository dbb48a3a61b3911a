/** Scene 2's weapon manager (WeaponManagerScene2.cs): every weapon is
    available from the start, the switch key cycles through the roster, and
    a shot that the camera ray lands on the boss or the machine deals the
    weapon's damage. The ray's outcome arrives with the `Frame`; the
    reload's `Invoke` is the separate event `FinishReload`. */
module WeaponManagerScene2 {
  import opened Wrappers
  import opened Weapons

  datatype Arsenal = Arsenal(
    weapons: seq<Weapon>,
    current: int,          // currentWeaponIndex, 0 from the start
    reloading: bool,
    aiming: bool,
    nextFireTime: real)

  /** What the camera ray would hit this frame. */
  datatype Target = NoHit | BossHit | MachineHit

  /** A shot that landed: whom it hit and for how much. */
  datatype Shot = Shot(target: Target, damage: real)

  datatype Frame = Frame(
    now: real,
    fireHeld: bool,
    switchPressed: bool,
    reloadPressed: bool,
    aimHeld: bool,
    aimedAt: Target)

  /** The selection is a roster index (or the initial 0 of an empty
      roster), a reload only runs on a real weapon, and ammunition stays
      within the magazine. */
  predicate Valid(a: Arsenal) {
    && 0 <= a.current
    && (a.current < |a.weapons| || a.current == 0)
    && (a.reloading ==> a.current < |a.weapons|)
    && (forall j :: 0 <= j < |a.weapons| ==> AmmoInRange(a.weapons[j]))
  }

  function InitWeapon(w: Weapon): Weapon {
    if w.config.hasObject then w.(ammo := w.config.maxAmmo) else w
  }

  /** `Start` with `InitializeWeapons`: every weapon with an object has a
      full magazine and the first entry is selected. */
  function Start(configs: seq<WeaponConfig>): (r: Arsenal)
    ensures Valid(r) && r.current == 0 && !r.reloading && |r.weapons| == |configs|
    ensures forall j :: 0 <= j < |configs| ==> r.weapons[j].config == configs[j]
    ensures forall j :: 0 <= j < |configs| && configs[j].hasObject ==> r.weapons[j].ammo == configs[j].maxAmmo
  {
    var roster := seq(|configs|, j requires 0 <= j < |configs| => InitWeapon(Configured(configs[j])));
    Arsenal(roster, 0, false, false, 0.0)
  }

  /** `HandleShooting` with `Shoot`. A pull past the fire-rate gate with
      ammunition spends one round, pushes the gate out by the fire rate and
      reports a hit if the ray landed on the boss or the machine; with an
      empty magazine it only clicks, and the gate is not pushed out. */
  function HandleShooting(a: Arsenal, fireHeld: bool, now: real, aimedAt: Target): (r: (Arsenal, Option<Shot>))
    requires 0 <= a.current
    ensures r.0.(weapons := a.weapons, nextFireTime := a.nextFireTime) == a
    ensures var fires := a.current < |a.weapons| && fireHeld && now >= a.nextFireTime && a.weapons[a.current].ammo > 0;
      && (!fires ==> r == (a, None))
      && (fires ==> var w := a.weapons[a.current];
            && r.0.nextFireTime == now + w.config.fireRate
            && r.0.weapons == a.weapons[a.current := w.(ammo := w.ammo - 1)]
            && (r.1.Some? <==> aimedAt != NoHit)
            && (r.1.Some? ==> r.1.value == Shot(aimedAt, w.config.damage)))
    ensures Valid(a) ==> Valid(r.0)
  {
    if |a.weapons| == 0 || a.current >= |a.weapons| then (a, None)
    else
      var w := a.weapons[a.current];
      if fireHeld && now >= a.nextFireTime then
        if w.ammo <= 0 then (a, None)
        else
          var a1 := a.(nextFireTime := now + w.config.fireRate, weapons := a.weapons[a.current := Fired(w)]);
          (a1, if aimedAt == NoHit then None else Some(Shot(aimedAt, w.config.damage)))
      else (a, None)
  }

  /** `SwitchWeapon`: with two or more weapons, the next one in cyclic
      order; otherwise nothing. */
  function SwitchWeapon(a: Arsenal): (r: Arsenal)
    requires 0 <= a.current
    ensures r.(current := a.current) == a
    ensures |a.weapons| <= 1 ==> r == a
    ensures |a.weapons| > 1 ==> 0 <= r.current < |a.weapons| && r.current == (a.current + 1) % |a.weapons|
    ensures |a.weapons| > 1 && a.current < |a.weapons| ==>
      r.current == if a.current + 1 < |a.weapons| then a.current + 1 else 0
    ensures Valid(a) ==> Valid(r)
  {
    if |a.weapons| <= 1 then a else a.(current := (a.current + 1) % |a.weapons|)
  }

  /** The switch key pressed `k` times in a row. */
  function Switches(a: Arsenal, k: nat): (r: Arsenal)
    requires 0 <= a.current
    ensures 0 <= r.current && r.(current := a.current) == a
    decreases k
  {
    if k == 0 then a else Switches(SwitchWeapon(a), k - 1)
  }

  /** Pressing the switch key `k` times, up to once per weapon, advances
      the selection by `k` places around the roster. */
  lemma {:induction false} SwitchesAdvance(a: Arsenal, k: nat)
    requires Valid(a) && |a.weapons| > 1 && k <= |a.weapons|
    ensures Switches(a, k).current ==
      if a.current + k < |a.weapons| then a.current + k else a.current + k - |a.weapons|
    decreases k
  {
    if k > 0 {
      var b := SwitchWeapon(a);
      assert b.current == if a.current + 1 < |a.weapons| then a.current + 1 else 0;
      SwitchesAdvance(b, k - 1);
    }
  }

  /** Pressing the switch key once per weapon comes back to the weapon held. */
  lemma SwitchCycleReturns(a: Arsenal)
    requires Valid(a)
    ensures Switches(a, |a.weapons|) == a
  {
    var n := |a.weapons|;
    if n > 1 {
      SwitchesAdvance(a, n);
    } else if n == 1 {
      assert Switches(a, 1) == Switches(SwitchWeapon(a), 0);
    }
  }

  /** `StartReload`: None is the index-out-of-range exception an empty
      roster raises; otherwise a reload begins unless the magazine is full. */
  function StartReload(a: Arsenal): (r: Option<Arsenal>)
    requires 0 <= a.current
    ensures r.None? <==> a.current >= |a.weapons|
    ensures r.Some? ==> r.value.(reloading := a.reloading) == a
    ensures r.Some? ==> (r.value.reloading <==>
      (a.reloading || a.weapons[a.current].ammo < a.weapons[a.current].config.maxAmmo))
    ensures Valid(a) && r.Some? ==> Valid(r.value)
  {
    if a.current >= |a.weapons| then None
    else
      var w := a.weapons[a.current];
      if w.ammo >= w.config.maxAmmo then Some(a) else Some(a.(reloading := true))
  }

  /** `FinishReload`: the selected magazine is full again and the reload
      is over. */
  function FinishReload(a: Arsenal): (r: Arsenal)
    requires 0 <= a.current
    ensures a.current < |a.weapons| ==>
      && !r.reloading && |r.weapons| == |a.weapons|
      && r.weapons[a.current].ammo == a.weapons[a.current].config.maxAmmo
      && r.(weapons := a.weapons, reloading := a.reloading) == a
      && forall j :: 0 <= j < |a.weapons| && j != a.current ==> r.weapons[j] == a.weapons[j]
    ensures a.current >= |a.weapons| ==> r == a
    ensures Valid(a) ==> Valid(r)
  {
    if a.current < |a.weapons| then
      a.(reloading := false, weapons := a.weapons[a.current := Refilled(a.weapons[a.current])])
    else a
  }

  /** `Update`: nothing while a reload runs; otherwise shooting, switching,
      the reload key and aiming, in that order. An exception from the reload
      key on an empty roster ends the frame before aiming is read. */
  function Update(a: Arsenal, f: Frame): (r: (Arsenal, Option<Shot>))
    requires 0 <= a.current
    ensures 0 <= r.0.current && |r.0.weapons| == |a.weapons|
    ensures a.reloading ==> r == (a, None)
    ensures Valid(a) ==> Valid(r.0)
  {
    if a.reloading then (a, None)
    else
      var (a1, shot) := HandleShooting(a, f.fireHeld, f.now, f.aimedAt);
      var a2 := if f.switchPressed then SwitchWeapon(a1) else a1;
      if f.reloadPressed then
        match StartReload(a2)
        case None => (a2, shot)
        case Some(a3) => (a3.(aiming := f.aimHeld), shot)
      else (a2.(aiming := f.aimHeld), shot)
  }

  /** A frame's shot is paid for: it reports a hit only when the weapon it
      came from had a round and now has one fewer, and the hit carries that
      weapon's damage. */
  lemma ShotsCostAmmo(a: Arsenal, f: Frame)
    requires Valid(a)
    ensures var (r, shot) := Update(a, f);
      shot.Some? ==>
        && !a.reloading && a.current < |a.weapons|
        && a.weapons[a.current].ammo > 0
        && shot.value == Shot(f.aimedAt, a.weapons[a.current].config.damage)
        && shot.value.target != NoHit
        && r.weapons[a.current].ammo == a.weapons[a.current].ammo - 1
  {
  }

  /** An empty magazine never fires, whatever the frame: no hit, no round
      spent. */
  lemma EmptyNeverFires(a: Arsenal, f: Frame)
    requires Valid(a) && a.current < |a.weapons| && a.weapons[a.current].ammo <= 0
    ensures Update(a, f).1 == None
    ensures Update(a, f).0.weapons[a.current].ammo == a.weapons[a.current].ammo
  {
  }

  /** On an empty roster the reload key throws, so that frame's aim key is
      never read. */
  lemma EmptyRosterReloadSkipsAim(a: Arsenal, f: Frame)
    requires Valid(a) && |a.weapons| == 0 && !a.reloading && f.reloadPressed
    ensures Update(a, f) == (a, None)
  {
  }
}
