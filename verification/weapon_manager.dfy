/** Scene 1's weapon manager (WeaponManager.cs): weapons unlock once enough
    trash is collected, the player cycles through unlocked weapons, fires
    with a fire-rate gate, and reloads. Key presses and `Time.time` arrive
    as a `Frame`; the total trash count arrives from the inventory (None
    when there is no InventorySystem); the `Invoke` that ends a reload is
    the separate event `FinishReload`. */
module WeaponManager {
  import opened Wrappers
  import opened Decimal
  import opened Weapons
  import opened InventorySlot
  import InventorySystem

  datatype Armory = Armory(
    weapons: seq<Weapon>,
    current: int,           // currentWeaponIndex; -1 when nothing is selected
    reloading: bool,
    aiming: bool,
    nextFireTime: real,
    initialized: bool,
    isScene2: bool)         // never assigned by the script, so always false

  /** The input one `Update` sees: `Time.time` and the key states. */
  datatype Frame = Frame(now: real, aimHeld: bool, switchPressed: bool, fireHeld: bool, reloadPressed: bool)

  /** The selection is -1 or a roster index. */
  predicate WellFormed(a: Armory) {
    -1 <= a.current < |a.weapons|
  }

  /** The state every reachable armory is in: a selected weapon is
      unlocked, a reload only runs with a weapon selected, and ammunition
      stays within the magazine. */
  predicate Valid(a: Armory) {
    && WellFormed(a)
    && (a.current >= 0 ==> a.weapons[a.current].unlocked)
    && (a.reloading ==> a.current >= 0)
    && (forall j :: 0 <= j < |a.weapons| ==> AmmoInRange(a.weapons[j]))
  }

  predicate AnyUnlocked(ws: seq<Weapon>) {
    exists j :: 0 <= j < |ws| && ws[j].unlocked
  }

  // ---------------------------------------------------------------------
  // Initialisation
  // ---------------------------------------------------------------------

  function InitWeapon(w: Weapon): Weapon {
    if w.config.hasObject then w.(unlocked := false, ammo := w.config.maxAmmo) else w
  }

  /** `InitializeWeapons`: every weapon with an object is locked and full,
      and nothing is selected. */
  function InitializeWeapons(a: Armory): (r: Armory)
    ensures r.(weapons := a.weapons, current := a.current) == a
    ensures r.current == -1 && |r.weapons| == |a.weapons|
    ensures forall j :: 0 <= j < |a.weapons| && a.weapons[j].config.hasObject ==>
      !r.weapons[j].unlocked && r.weapons[j].ammo == a.weapons[j].config.maxAmmo
    ensures forall j :: 0 <= j < |a.weapons| && !a.weapons[j].config.hasObject ==>
      r.weapons[j] == a.weapons[j]
    ensures forall j :: 0 <= j < |a.weapons| ==> r.weapons[j].config == a.weapons[j].config
  {
    a.(weapons := seq(|a.weapons|, j requires 0 <= j < |a.weapons| => InitWeapon(a.weapons[j])), current := -1)
  }

  /** `Start`: the roster with C#'s default hidden fields, then
      `InitializeWeapons`, then `isInitialized`. */
  function Start(configs: seq<WeaponConfig>): (r: Armory)
    ensures Valid(r) && r.initialized && !r.reloading && !r.isScene2
    ensures r.current == -1 && |r.weapons| == |configs|
    ensures forall j :: 0 <= j < |configs| ==> r.weapons[j].config == configs[j] && !r.weapons[j].unlocked
    ensures forall j :: 0 <= j < |configs| && configs[j].hasObject ==> r.weapons[j].ammo == configs[j].maxAmmo
  {
    var roster := seq(|configs|, j requires 0 <= j < |configs| => Configured(configs[j]));
    InitializeWeapons(Armory(roster, -1, false, false, 0.0, false, false)).(initialized := true)
  }

  // ---------------------------------------------------------------------
  // Shooting and reloading
  // ---------------------------------------------------------------------

  /** `CanShoot`: a weapon is selected, it is unlocked, and no reload runs.
      In a valid state the unlock test never fails. */
  predicate CanShoot(a: Armory)
    requires WellFormed(a)
    ensures Valid(a) ==> (CanShoot(a) <==> a.current >= 0 && !a.reloading)
  {
    a.current >= 0 && a.weapons[a.current].unlocked && !a.reloading
  }

  /** `HandleShooting` with `Shoot` and `HandleEmptyWeapon`. A trigger pull
      that passes `CanShoot` and the fire-rate gate always pushes the next
      fire time out by the weapon's fire rate; it spends one round when
      there is one and otherwise only clicks. */
  function HandleShooting(a: Armory, fireHeld: bool, now: real): (r: Armory)
    requires WellFormed(a)
    ensures r.(weapons := a.weapons, nextFireTime := a.nextFireTime) == a
    ensures !(CanShoot(a) && fireHeld && now >= a.nextFireTime) ==> r == a
    ensures CanShoot(a) && fireHeld && now >= a.nextFireTime ==>
      r.nextFireTime == now + a.weapons[a.current].config.fireRate
    ensures CanShoot(a) && fireHeld && now >= a.nextFireTime && a.weapons[a.current].ammo > 0 ==>
      r.weapons == a.weapons[a.current := a.weapons[a.current].(ammo := a.weapons[a.current].ammo - 1)]
    ensures a.current >= 0 && a.weapons[a.current].ammo <= 0 ==> r.weapons == a.weapons
    ensures |r.weapons| == |a.weapons| && forall j :: 0 <= j < |a.weapons| ==>
      r.weapons[j].config == a.weapons[j].config && r.weapons[j].unlocked == a.weapons[j].unlocked
    ensures Valid(a) ==> Valid(r)
  {
    if !CanShoot(a) then a
    else
      var w := a.weapons[a.current];
      if fireHeld && now >= a.nextFireTime then
        if w.ammo <= 0 then a.(nextFireTime := now + w.config.fireRate)
        else a.(nextFireTime := now + w.config.fireRate, weapons := a.weapons[a.current := Fired(w)])
      else a
  }

  /** `StartReload`: a reload begins only when none is running, a weapon is
      selected and its magazine is not full. */
  function StartReload(a: Armory): (r: Armory)
    requires WellFormed(a)
    ensures r.(reloading := a.reloading) == a
    ensures r.reloading <==>
      (a.reloading || (a.current >= 0 && a.weapons[a.current].ammo < a.weapons[a.current].config.maxAmmo))
    ensures Valid(a) ==> Valid(r)
  {
    if a.reloading || a.current < 0 then a
    else
      var w := a.weapons[a.current];
      if w.ammo >= w.config.maxAmmo then a else a.(reloading := true)
  }

  /** `FinishReload`, run when the reload's `Invoke` fires: the flag clears
      and the selected weapon's magazine is full again. */
  function FinishReload(a: Armory): (r: Armory)
    requires WellFormed(a)
    ensures !r.reloading && r.(weapons := a.weapons, reloading := a.reloading) == a
    ensures |r.weapons| == |a.weapons|
    ensures a.current >= 0 ==> r.weapons[a.current].ammo == a.weapons[a.current].config.maxAmmo
    ensures forall j :: 0 <= j < |a.weapons| && j != a.current ==> r.weapons[j] == a.weapons[j]
    ensures forall j :: 0 <= j < |a.weapons| ==>
      r.weapons[j].config == a.weapons[j].config && r.weapons[j].unlocked == a.weapons[j].unlocked
    ensures Valid(a) ==> Valid(r)
  {
    if a.current >= 0 then
      a.(reloading := false, weapons := a.weapons[a.current := Refilled(a.weapons[a.current])])
    else
      a.(reloading := false)
  }

  // ---------------------------------------------------------------------
  // Selection
  // ---------------------------------------------------------------------

  /** `SwitchToWeapon`: the selection moves only to an in-range, unlocked
      index. */
  function SwitchToWeapon(a: Armory, index: int): (r: Armory)
    ensures r.(current := a.current) == a
    ensures 0 <= index < |a.weapons| && a.weapons[index].unlocked ==> r.current == index
    ensures !(0 <= index < |a.weapons| && a.weapons[index].unlocked) ==> r == a
  {
    if 0 <= index < |a.weapons| && a.weapons[index].unlocked then a.(current := index) else a
  }

  /** The first index at or after `i` whose unlocked flag is `unlocked`. */
  function FirstWithLock(ws: seq<Weapon>, unlocked: bool, i: nat): (r: Option<nat>)
    requires i <= |ws|
    ensures r.Some? ==> i <= r.value < |ws| && ws[r.value].unlocked == unlocked
    ensures r.Some? ==> forall j :: i <= j < r.value ==> ws[j].unlocked != unlocked
    ensures r.None? ==> forall j :: i <= j < |ws| ==> ws[j].unlocked != unlocked
    decreases |ws| - i
  {
    if i == |ws| then None
    else if ws[i].unlocked == unlocked then Some(i)
    else FirstWithLock(ws, unlocked, i + 1)
  }

  /** `SwitchToFirstUnlockedWeapon`: the lowest unlocked index, if any. */
  function SwitchToFirstUnlockedWeapon(a: Armory): (r: Armory)
    ensures r.(current := a.current) == a
    ensures !AnyUnlocked(a.weapons) ==> r == a
    ensures AnyUnlocked(a.weapons) ==> 0 <= r.current < |a.weapons| && a.weapons[r.current].unlocked
    ensures AnyUnlocked(a.weapons) ==> forall j :: 0 <= j < r.current ==> !a.weapons[j].unlocked
  {
    match FirstWithLock(a.weapons, true, 0)
    case None => a
    case Some(j) => SwitchToWeapon(a, j)
  }

  /** The index `SwitchToNextWeapon`'s do-while visits on pass `k`, counting
      from `from` (-1 when nothing is selected): `(from + k) % n`. Pass 0 is
      the starting index itself. */
  function Probe(n: nat, from: int, k: nat): (r: int)
    requires n > 0 && -1 <= from < n && k <= n
    ensures k >= 1 ==> 0 <= r < n
  {
    if from + k < n then from + k else from + k - n
  }

  /** `Probe` is the script's `% weapons.Length` step taken `k` times. */
  lemma ProbeStep(n: nat, from: int, k: nat)
    requires n > 0 && -1 <= from < n && k < n
    ensures Probe(n, from, k + 1) == (Probe(n, from, k) + 1) % n
  {
  }

  /** The number of passes the do-while takes from `from` to index `j`;
      every index is reached within `n` passes. */
  function Steps(n: nat, from: int, j: int): (k: nat)
    requires n > 0 && -1 <= from < n && 0 <= j < n
    ensures 1 <= k <= n && Probe(n, from, k) == j
  {
    if j > from then j - from else j - from + n
  }

  lemma StepsOfProbe(n: nat, from: int, k: nat)
    requires n > 0 && -1 <= from < n && 1 <= k <= n
    ensures Steps(n, from, Probe(n, from, k)) == k
  {
  }

  predicate UnlockedAt(ws: seq<Weapon>, from: int, k: nat)
    requires |ws| > 0 && -1 <= from < |ws| && 1 <= k <= |ws|
  {
    ws[Probe(|ws|, from, k)].unlocked
  }

  /** The first pass from `k` on, up to `n`, that lands on an unlocked
      weapon. */
  function NextUnlocked(ws: seq<Weapon>, from: int, k: nat): (r: Option<nat>)
    requires |ws| > 0 && -1 <= from < |ws| && 1 <= k <= |ws| + 1
    ensures r.Some? ==> k <= r.value <= |ws| && UnlockedAt(ws, from, r.value)
    ensures r.Some? ==> forall j :: k <= j < r.value ==> !UnlockedAt(ws, from, j)
    ensures r.None? ==> forall j :: k <= j <= |ws| ==> !UnlockedAt(ws, from, j)
    decreases |ws| + 1 - k
  {
    if k > |ws| then None
    else if UnlockedAt(ws, from, k) then Some(k)
    else NextUnlocked(ws, from, k + 1)
  }

  /** What `NextUnlocked` from pass 1 means in terms of roster indices. */
  lemma NextUnlockedMeaning(ws: seq<Weapon>, from: int)
    requires |ws| > 0 && -1 <= from < |ws|
    ensures NextUnlocked(ws, from, 1).None? <==> !AnyUnlocked(ws)
    ensures NextUnlocked(ws, from, 1).Some? ==>
      var i := Probe(|ws|, from, NextUnlocked(ws, from, 1).value);
      && Steps(|ws|, from, i) == NextUnlocked(ws, from, 1).value
      && forall j :: 0 <= j < |ws| && ws[j].unlocked ==> Steps(|ws|, from, i) <= Steps(|ws|, from, j)
  {
    var n := |ws|;
    var r := NextUnlocked(ws, from, 1);
    forall j | 0 <= j < n && ws[j].unlocked
      ensures r.Some? && r.value <= Steps(n, from, j)
    {
      assert UnlockedAt(ws, from, Steps(n, from, j));
    }
    if r.Some? {
      StepsOfProbe(n, from, r.value);
    }
  }

  /** `SwitchToNextWeapon`, with its search bounded to one lap of the
      roster: the selection moves to the unlocked weapon the fewest steps
      after the current one in cyclic order (the current one itself being
      `n` steps away), and stays put when nothing is unlocked. The script's
      own loop never ends in that last case when nothing is selected; see
      `SwitchLoopNeverExits`. An empty roster raises a modulo by zero in the
      script, which abandons the frame with nothing changed. */
  function SwitchToNextWeapon(a: Armory): (r: Armory)
    requires WellFormed(a)
    ensures r.(current := a.current) == a && WellFormed(r)
    ensures !AnyUnlocked(a.weapons) ==> r == a
    ensures AnyUnlocked(a.weapons) ==> 0 <= r.current < |a.weapons| && a.weapons[r.current].unlocked
    ensures AnyUnlocked(a.weapons) ==> forall j :: 0 <= j < |a.weapons| && a.weapons[j].unlocked ==>
      Steps(|a.weapons|, a.current, r.current) <= Steps(|a.weapons|, a.current, j)
  {
    if |a.weapons| == 0 then a
    else
      NextUnlockedMeaning(a.weapons, a.current);
      match NextUnlocked(a.weapons, a.current, 1)
      case None => a
      case Some(k) => a.(current := Probe(|a.weapons|, a.current, k))
  }

  /** With only the current weapon unlocked, switching keeps it. */
  lemma SwitchKeepsSoleWeapon(a: Armory)
    requires WellFormed(a) && a.current >= 0 && a.weapons[a.current].unlocked
    requires forall j :: 0 <= j < |a.weapons| && j != a.current ==> !a.weapons[j].unlocked
    ensures SwitchToNextWeapon(a) == a
  {
    var r := SwitchToNextWeapon(a);
    assert AnyUnlocked(a.weapons);
    assert r.current == a.current;
  }

  /** From no selection, switching to the next weapon picks the same weapon
      as `SwitchToFirstUnlockedWeapon`. */
  lemma SwitchFromNoneIsFirst(a: Armory)
    requires WellFormed(a) && a.current == -1
    ensures SwitchToNextWeapon(a) == SwitchToFirstUnlockedWeapon(a)
  {
    var r, f := SwitchToNextWeapon(a), SwitchToFirstUnlockedWeapon(a);
    if AnyUnlocked(a.weapons) {
      assert Steps(|a.weapons|, -1, r.current) == r.current + 1;
      assert Steps(|a.weapons|, -1, f.current) == f.current + 1;
      assert !(r.current < f.current) && !(f.current < r.current);
    }
  }

  /** How the script's do-while ends: on an unlocked weapon, back at its
      starting index, or not yet. */
  datatype LoopExit = Selected(index: int) | BackAtStart | StillLooping

  /** The do-while of `SwitchToNextWeapon` exactly as written, run for at
      most `fuel` passes from index `c` with starting index `start`. */
  function SwitchLoopAsWritten(ws: seq<Weapon>, start: int, c: int, fuel: nat): LoopExit
    requires |ws| > 0 && -1 <= c < |ws|
    decreases fuel
  {
    if fuel == 0 then StillLooping
    else
      var c' := (c + 1) % |ws|;
      if ws[c'].unlocked then Selected(c')
      else if c' == start then BackAtStart
      else SwitchLoopAsWritten(ws, start, c', fuel - 1)
  }

  /** With nothing selected and nothing unlocked, the script's loop never
      exits, however many passes it is given: the index cycles through
      0 .. n-1 and never equals the starting index -1. */
  lemma {:induction false} SwitchLoopNeverExits(ws: seq<Weapon>, c: int, fuel: nat)
    requires |ws| > 0 && -1 <= c < |ws|
    requires forall j :: 0 <= j < |ws| ==> !ws[j].unlocked
    ensures SwitchLoopAsWritten(ws, -1, c, fuel) == StillLooping
    decreases fuel
  {
    if fuel > 0 {
      SwitchLoopNeverExits(ws, (c + 1) % |ws|, fuel - 1);
    }
  }

  /** The smallest case: one locked weapon, nothing selected, the switch
      key pressed. */
  lemma SwitchHangsOnOneLockedWeapon(fuel: nat)
    ensures SwitchLoopAsWritten([Configured(WeaponConfig(true, "Pistol", 5, 0, 0.5, 30, 20.0))], -1, -1, fuel)
      == StillLooping
  {
    SwitchLoopNeverExits([Configured(WeaponConfig(true, "Pistol", 5, 0, 0.5, 30, 20.0))], -1, fuel);
  }

  /** What the script's loop yields from pass `k` on, in terms of
      `NextUnlocked`. */
  function LoopOutcome(ws: seq<Weapon>, from: int, k: nat): LoopExit
    requires |ws| > 0 && -1 <= from < |ws| && 1 <= k <= |ws| + 1
  {
    match NextUnlocked(ws, from, k)
    case Some(j) => Selected(Probe(|ws|, from, j))
    case None => if from >= 0 then BackAtStart else StillLooping
  }

  lemma {:induction false} SwitchLoopFrom(ws: seq<Weapon>, from: int, k: nat)
    requires |ws| > 0 && -1 <= from < |ws| && k < |ws|
    ensures SwitchLoopAsWritten(ws, from, Probe(|ws|, from, k), |ws| - k) == LoopOutcome(ws, from, k + 1)
    decreases |ws| - k
  {
    var n := |ws|;
    ProbeStep(n, from, k);
    var c' := Probe(n, from, k + 1);
    if !ws[c'].unlocked && c' != from {
      if k + 1 < n {
        SwitchLoopFrom(ws, from, k + 1);
      } else {
        assert from == -1;
        assert NextUnlocked(ws, from, k + 2) == None;
      }
    } else if !ws[c'].unlocked {
      assert k + 1 == n;
    }
  }

  /** Whenever the script's loop ends within one lap, it selects what the
      bounded `SwitchToNextWeapon` selects; it fails to end within a lap
      exactly when nothing is selected and nothing is unlocked. */
  lemma SwitchLoopAgrees(a: Armory)
    requires Valid(a) && |a.weapons| > 0
    ensures var out := SwitchLoopAsWritten(a.weapons, a.current, a.current, |a.weapons|);
      && (out == StillLooping <==> a.current == -1 && !AnyUnlocked(a.weapons))
      && (out.Selected? ==> SwitchToNextWeapon(a).current == out.index)
      && (out == BackAtStart ==> SwitchToNextWeapon(a) == a)
  {
    var n := |a.weapons|;
    assert Probe(n, a.current, 0) == a.current;
    SwitchLoopFrom(a.weapons, a.current, 0);
    NextUnlockedMeaning(a.weapons, a.current);
  }

  // ---------------------------------------------------------------------
  // Unlocking
  // ---------------------------------------------------------------------

  predicate Unlockable(w: Weapon, trash: int) {
    !w.unlocked && trash >= w.config.trashRequired
  }

  /** `UnlockWeapon` for roster entry `i`: the weapon unlocks, and if
      nothing is selected the script tries to select the entry named by its
      configured `weaponIndex`. */
  function UnlockWeapon(a: Armory, i: nat): (r: Armory)
    requires WellFormed(a) && i < |a.weapons|
    ensures WellFormed(r) && |r.weapons| == |a.weapons| && r.weapons[i].unlocked
    ensures r.(weapons := a.weapons, current := a.current) == a
    ensures r.weapons == a.weapons[i := a.weapons[i].(unlocked := true)]
    ensures a.current != -1 ==> r.current == a.current
    ensures r.current != a.current ==> r.current >= 0 && r.weapons[r.current].unlocked
  {
    if a.weapons[i].unlocked then
      assert a.weapons[i := a.weapons[i].(unlocked := true)] == a.weapons;
      a
    else
      var a1 := a.(weapons := a.weapons[i := a.weapons[i].(unlocked := true)]);
      if a1.current == -1 then SwitchToWeapon(a1, a.weapons[i].config.weaponIndex) else a1
  }

  /** The `foreach` of `CheckWeaponUnlocks` from entry `i` on; the flag
      says whether anything was unlocked. */
  function UnlockPass(a: Armory, trash: int, i: nat): (r: (Armory, bool))
    requires WellFormed(a) && i <= |a.weapons|
    ensures WellFormed(r.0) && |r.0.weapons| == |a.weapons|
    ensures r.0.(weapons := a.weapons, current := a.current) == a
    ensures forall j :: 0 <= j < |a.weapons| ==>
      r.0.weapons[j].config == a.weapons[j].config && r.0.weapons[j].ammo == a.weapons[j].ammo
    ensures forall j :: 0 <= j < i ==> r.0.weapons[j].unlocked == a.weapons[j].unlocked
    ensures forall j :: i <= j < |a.weapons| ==>
      r.0.weapons[j].unlocked == (a.weapons[j].unlocked || trash >= a.weapons[j].config.trashRequired)
    ensures r.1 <==> exists j :: i <= j < |a.weapons| && Unlockable(a.weapons[j], trash)
    ensures a.current != -1 ==> r.0.current == a.current
    ensures r.0.current != a.current ==> r.0.current >= 0 && r.0.weapons[r.0.current].unlocked
    decreases |a.weapons| - i
  {
    if i == |a.weapons| then (a, false)
    else if Unlockable(a.weapons[i], trash) then
      var a1 := UnlockWeapon(a, i);
      var r1 := UnlockPass(a1, trash, i + 1);
      (r1.0, true)
    else
      UnlockPass(a, trash, i + 1)
  }

  /** `GetTotalTrashCount`: the inventory's counts summed over every trash
      type. */
  function GetTotalTrashCount(inv: InventorySystem.Inventory, kinds: seq<TrashType>): int {
    InventorySystem.TotalCount(inv, kinds)
  }

  /** The trash total `CheckWeaponUnlocks` sees: none without an inventory. */
  function TrashSeen(inv: Option<InventorySystem.Inventory>, kinds: seq<TrashType>): Option<int> {
    match inv
    case None => None
    case Some(i) => Some(GetTotalTrashCount(i, kinds))
  }

  /** `CheckWeaponUnlocks`: afterwards a weapon is unlocked exactly when it
      was already or its threshold is within the trash total; no weapon is
      locked again; and when an unlock happens with nothing selected, some
      unlocked weapon ends up selected. */
  function CheckWeaponUnlocks(a: Armory, trash: Option<int>): (r: Armory)
    requires WellFormed(a)
    ensures WellFormed(r) && |r.weapons| == |a.weapons|
    ensures r.(weapons := a.weapons, current := a.current) == a
    ensures trash.None? ==> r == a
    ensures forall j :: 0 <= j < |a.weapons| ==>
      r.weapons[j].config == a.weapons[j].config && r.weapons[j].ammo == a.weapons[j].ammo
    ensures trash.Some? ==> forall j :: 0 <= j < |a.weapons| ==>
      r.weapons[j].unlocked == (a.weapons[j].unlocked || trash.value >= a.weapons[j].config.trashRequired)
    ensures a.current != -1 ==> r.current == a.current
    ensures trash.Some? && a.current == -1 && (exists j :: 0 <= j < |a.weapons| && Unlockable(a.weapons[j], trash.value)) ==>
      0 <= r.current < |r.weapons| && r.weapons[r.current].unlocked
    ensures Valid(a) ==> Valid(r)
  {
    match trash
    case None => a
    case Some(t) =>
      var (a1, newUnlock) := UnlockPass(a, t, 0);
      if newUnlock && a1.current == -1 then
        var j :| 0 <= j < |a.weapons| && Unlockable(a.weapons[j], t);
        assert a1.weapons[j].unlocked;
        var a2 := SwitchToFirstUnlockedWeapon(a1);
        assert a2.weapons == a1.weapons && 0 <= a2.current < |a2.weapons| && a2.weapons[a2.current].unlocked;
        a2
      else a1
  }

  /** Entry `j` is the first locked weapon in roster order. */
  predicate FirstLocked(ws: seq<Weapon>, j: int) {
    0 <= j < |ws| && !ws[j].unlocked && forall i :: 0 <= i < j ==> ws[i].unlocked
  }

  /** What `UpdateUnlockProgress` reports. */
  datatype Progress = AllUnlocked | Collect(remaining: int, name: string)

  /** `UpdateUnlockProgress`: the first locked weapon in roster order and
      how much more trash it needs (a C# `int` difference), or that all are
      unlocked. */
  function UnlockProgress(ws: seq<Weapon>, trash: Int32): (p: Progress)
    ensures p == AllUnlocked <==> forall j :: 0 <= j < |ws| ==> ws[j].unlocked
    ensures p.Collect? ==> exists j :: FirstLocked(ws, j) && p == Collect(Wrap32(ws[j].config.trashRequired - trash), ws[j].config.name)
  {
    match FirstWithLock(ws, false, 0)
    case None => AllUnlocked
    case Some(j) =>
      var p := Collect(Wrap32(ws[j].config.trashRequired - trash), ws[j].config.name);
      assert FirstLocked(ws, j);
      p
  }

  function ProgressText(p: Progress): string {
    match p
    case AllUnlocked => "All weapons unlocked!"
    case Collect(n, name) => "Collect " + Render(n) + " more trash to unlock " + name
  }

  /** Right after the unlock check that precedes it, the progress line
      never asks for zero or fewer pieces of trash. */
  lemma ProgressAfterCheckIsPositive(a: Armory, trash: Int32)
    requires WellFormed(a) && trash >= 0
    requires forall j :: 0 <= j < |a.weapons| ==> Int32Min <= a.weapons[j].config.trashRequired <= Int32Max
    ensures var p := UnlockProgress(CheckWeaponUnlocks(a, Some(trash)).weapons, trash);
      p == AllUnlocked || p.remaining > 0
  {
  }

  // ---------------------------------------------------------------------
  // The frame
  // ---------------------------------------------------------------------

  /** The part of `Update` that runs only while no reload is in progress:
      aiming, the switch key, the trigger and the reload key, in that order. */
  function HandleInput(a: Armory, f: Frame): (r: Armory)
    requires WellFormed(a)
    ensures WellFormed(r) && |r.weapons| == |a.weapons|
    ensures Valid(a) ==> Valid(r)
    ensures forall j :: 0 <= j < |a.weapons| ==>
      r.weapons[j].config == a.weapons[j].config && r.weapons[j].unlocked == a.weapons[j].unlocked
  {
    var a1 := a.(aiming := f.aimHeld);
    var a2 := if f.switchPressed then SwitchToNextWeapon(a1) else a1;
    assert a2.weapons == a.weapons;
    var a3 := HandleShooting(a2, f.fireHeld, f.now);
    if f.reloadPressed then StartReload(a3) else a3
  }

  /** `Update`: nothing before `Start`; input only while not reloading; the
      unlock check every frame. */
  function Update(a: Armory, f: Frame, trash: Option<int>): (r: Armory)
    requires WellFormed(a)
    ensures WellFormed(r) && |r.weapons| == |a.weapons|
    ensures !a.initialized ==> r == a
    ensures Valid(a) ==> Valid(r)
    ensures forall j :: 0 <= j < |a.weapons| && a.weapons[j].unlocked ==> r.weapons[j].unlocked
    ensures a.initialized && !a.isScene2 && trash.Some? ==> forall j :: 0 <= j < |a.weapons| ==>
      r.weapons[j].unlocked == (a.weapons[j].unlocked || trash.value >= a.weapons[j].config.trashRequired)
  {
    if !a.initialized then a
    else
      var a1 := if !a.reloading then HandleInput(a, f) else a;
      if !a1.isScene2 then CheckWeaponUnlocks(a1, trash) else a1
  }

  /** While a reload runs, no key has any effect: the selection, the fire
      gate, aiming, the ammunition and the reload flag all stay as they
      were; only unlocks can happen. */
  lemma ReloadingIgnoresInput(a: Armory, f: Frame, trash: Option<int>)
    requires Valid(a) && a.reloading
    ensures var r := Update(a, f, trash);
      && r.current == a.current && r.reloading && r.aiming == a.aiming
      && r.nextFireTime == a.nextFireTime
      && forall j :: 0 <= j < |a.weapons| ==> r.weapons[j].ammo == a.weapons[j].ammo
  {
  }

  /** No transition after `Start` locks a weapon again. */
  lemma UnlocksArePermanent(a: Armory, f: Frame, trash: Option<int>, j: nat)
    requires WellFormed(a) && j < |a.weapons| && a.weapons[j].unlocked
    ensures Update(a, f, trash).weapons[j].unlocked
    ensures FinishReload(a).weapons[j].unlocked
  {
  }
}
