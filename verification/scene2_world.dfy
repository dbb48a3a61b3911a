/** Scene 2 as the scripts wire it together: the player's shots damage the
    boss or the machine, whose deaths notify the objective tracker, which
    starts the victory sequence once both are done. */
module SceneTwoWorld {
  import opened Wrappers
  import Weapons
  import WeaponManagerScene2
  import BossController
  import DestructibleMachine
  import Scene2Manager

  datatype World = World(
    bossConfig: BossController.BossConfig,
    arsenal: WeaponManagerScene2.Arsenal,
    boss: BossController.Boss,
    machine: DestructibleMachine.Machine,
    objectives: Scene2Manager.Objectives)

  /** The objective flags mirror the two targets' states. */
  predicate Consistent(w: World) {
    && 0 <= w.arsenal.current
    && Scene2Manager.Inv(w.objectives)
    && (w.objectives.bossDefeated <==> w.boss.dead)
    && (w.objectives.machineDestroyed <==> w.machine.destroyed)
  }

  /** The scene's start-up: every component's `Start`. */
  function Start(weapons: seq<Weapons.WeaponConfig>, boss: BossController.BossConfig, machineHealth: real): (w: World)
    ensures Consistent(w) && !Scene2Manager.IsComplete(w.objectives)
  {
    World(boss, WeaponManagerScene2.Start(weapons), BossController.Start(boss), DestructibleMachine.Start(machineHealth),
          Scene2Manager.InitializeScene2())
  }

  /** A landed shot reaching its target; the flag says whether the
      objective tracker's victory sequence (`hasShownVictory`) started.
      The victory panel that the machine's destruction shows by itself is
      not modelled. */
  function Deliver(w: World, shot: WeaponManagerScene2.Shot): (r: (World, bool))
    requires Consistent(w)
    ensures Consistent(r.0) && r.0.arsenal == w.arsenal
    ensures r.1 <==> !w.objectives.hasShownVictory && r.0.objectives.hasShownVictory
  {
    match shot.target
    case NoHit => (w, false)
    case BossHit =>
      var (b, died) := BossController.TakeDamage(w.boss, shot.damage);
      if died then
        var (o, victory) := Scene2Manager.OnBossDefeated(w.objectives);
        (w.(boss := b, objectives := o), victory)
      else (w.(boss := b), false)
    case MachineHit =>
      var (m, destroyed) := DestructibleMachine.TakeDamage(w.machine, shot.damage);
      if destroyed then
        var (o, victory) := Scene2Manager.OnMachineDestroyed(w.objectives);
        (w.(machine := m, objectives := o), victory)
      else (w.(machine := m), false)
  }

  datatype Event =
    | PlayerFrame(f: WeaponManagerScene2.Frame)
    | ReloadDone
    | BossFrame(s: BossController.Sense)
    | BossAttackEnded

  function Step(w: World, ev: Event): (r: (World, bool))
    requires Consistent(w)
    ensures Consistent(r.0)
    ensures r.1 <==> !w.objectives.hasShownVictory && r.0.objectives.hasShownVictory
  {
    match ev
    case PlayerFrame(f) =>
      var (a, shot) := WeaponManagerScene2.Update(w.arsenal, f);
      var w1 := w.(arsenal := a);
      if shot.Some? then Deliver(w1, shot.value) else (w1, false)
    case ReloadDone => (w.(arsenal := WeaponManagerScene2.FinishReload(w.arsenal)), false)
    case BossFrame(s) => (w.(boss := BossController.Update(w.bossConfig, w.boss, s).0), false)
    case BossAttackEnded => (w.(boss := BossController.DisableHitboxes(w.boss)), false)
  }

  /** Applies the events in order; the count is how often the victory
      sequence started. */
  function Run(w: World, evs: seq<Event>): (r: (World, nat))
    requires Consistent(w)
    ensures Consistent(r.0)
    decreases |evs|
  {
    if evs == [] then (w, 0)
    else
      var (w1, v) := Step(w, evs[0]);
      var (w2, n) := Run(w1, evs[1..]);
      (w2, n + if v then 1 else 0)
  }

  /** From any consistent state, the objective tracker's victory sequence
      (`hasShownVictory`) has started exactly once when both the boss is
      dead and the machine destroyed, and never otherwise, whatever the
      player does and in whichever order. */
  lemma {:induction false} VictoryExactlyWhenBothDown(w: World, evs: seq<Event>)
    requires Consistent(w)
    ensures var (r, n) := Run(w, evs);
      n + (if w.objectives.hasShownVictory then 1 else 0) == (if r.boss.dead && r.machine.destroyed then 1 else 0)
    decreases |evs|
  {
    if evs != [] {
      var (w1, _) := Step(w, evs[0]);
      VictoryExactlyWhenBothDown(w1, evs[1..]);
    }
  }
}
