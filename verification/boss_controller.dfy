/** Scene 2's boss (BossController.cs): health clamped at zero, death that
    notifies the objective tracker, and the attack-gating decision. The
    player's distance, `Time.time` and the `Random.value > 0.5` roll arrive
    as a `Sense`; the animation event that ends an attack is
    `DisableHitboxes`. */
module BossController {

  datatype BossConfig = BossConfig(maxHealth: real, attackCooldown: real, attackRange: real, detectionRange: real)

  datatype Boss = Boss(health: real, dead: bool, attacking: bool, nextAttackTime: real)

  /** `Start`: full health and no attack running. */
  function Start(cfg: BossConfig): (b: Boss)
    ensures b.health == cfg.maxHealth && !b.dead && !b.attacking
  {
    DisableHitboxes(Boss(cfg.maxHealth, false, false, 0.0))
  }

  /** `DisableHitboxes`: the attack is over. */
  function DisableHitboxes(b: Boss): (r: Boss)
    ensures !r.attacking && r.(attacking := b.attacking) == b
  {
    b.(attacking := false)
  }

  /** `TakeDamage` with `Die`: health drops by the damage but not below
      zero; reaching zero kills the boss, ends any attack, and reports the
      defeat (the flag in the result) to the objective tracker. */
  function TakeDamage(b: Boss, damage: real): (r: (Boss, bool))
    ensures b.dead ==> r == (b, false)
    ensures !b.dead ==> r.0.health == if b.health - damage > 0.0 then b.health - damage else 0.0
    ensures r.0.health >= 0.0 || r.0 == b
    ensures !b.dead ==> (r.1 <==> r.0.health == 0.0) && (r.0.dead <==> r.1)
    ensures r.1 ==> !r.0.attacking
    ensures !r.1 ==> r.0.attacking == b.attacking
    ensures r.0.nextAttackTime == b.nextAttackTime
  {
    if b.dead then (b, false)
    else
      var h := if b.health - damage > 0.0 then b.health - damage else 0.0;
      if h <= 0.0 then (DisableHitboxes(b.(health := h, dead := true)), true)
      else (b.(health := h), false)
  }

  datatype AttackKind = JumpAttack | ZombieAttack

  /** What the engine reports to one `Update`. */
  datatype Sense = Sense(playerPresent: bool, distance: real, now: real, jumpRoll: bool)

  /** What the boss does this frame. */
  datatype Action = Nothing | ReturnToIdle | Face | Attack(kind: AttackKind) | Chase

  predicate AttackGate(cfg: BossConfig, b: Boss, s: Sense) {
    && s.playerPresent
    && s.distance <= cfg.detectionRange
    && s.distance <= cfg.attackRange
    && !b.attacking
    && s.now >= b.nextAttackTime
  }

  /** `Update` with `HandleCombat` and the two attack starters. */
  function Update(cfg: BossConfig, b: Boss, s: Sense): (r: (Boss, Action))
    ensures b.dead || !s.playerPresent ==> r == (b, Nothing)
    ensures r.1.Attack? <==> !b.dead && AttackGate(cfg, b, s)
    ensures r.1.Attack? ==>
      && r.0 == b.(attacking := true, nextAttackTime := s.now + cfg.attackCooldown)
      && r.1.kind == (if s.jumpRoll then JumpAttack else ZombieAttack)
    ensures !r.1.Attack? ==> r.0 == b
    ensures r.1 == Chase ==> !b.attacking
  {
    if b.dead || !s.playerPresent then (b, Nothing)
    else if s.distance > cfg.detectionRange then (b, ReturnToIdle)
    else if s.distance <= cfg.attackRange && !b.attacking then
      if s.now >= b.nextAttackTime then
        (b.(attacking := true, nextAttackTime := s.now + cfg.attackCooldown),
         Attack(if s.jumpRoll then JumpAttack else ZombieAttack))
      else (b, Face)
    else if !b.attacking then (b, Chase)
    else (b, Nothing)
  }

  /** While an attack runs, the boss neither starts another nor chases. */
  lemma BusyBossOnlyWaits(cfg: BossConfig, b: Boss, s: Sense)
    requires b.attacking
    ensures Update(cfg, b, s).0 == b
    ensures Update(cfg, b, s).1 == Nothing || Update(cfg, b, s).1 == ReturnToIdle
  {
  }

  /** Everything that can happen to the boss after `Start`. */
  datatype Event = Frame(s: Sense) | Damage(amount: real) | AttackEnded

  function Step(cfg: BossConfig, b: Boss, ev: Event): (r: (Boss, bool))
    ensures b.dead ==> r.0.dead && !r.1
    ensures r.1 <==> !b.dead && r.0.dead
    ensures b.health >= 0.0 ==> r.0.health >= 0.0
    ensures r.0.dead ==> r.0.health == 0.0 || b.dead
  {
    match ev
    case Frame(s) => (Update(cfg, b, s).0, false)
    case Damage(d) => TakeDamage(b, d)
    case AttackEnded => (DisableHitboxes(b), false)
  }

  /** Applies the events in order; the count is how many defeats were
      reported. */
  function Run(cfg: BossConfig, b: Boss, evs: seq<Event>): (r: (Boss, nat))
    ensures b.health >= 0.0 ==> r.0.health >= 0.0
    decreases |evs|
  {
    if evs == [] then (b, 0)
    else
      var (b1, died) := Step(cfg, b, evs[0]);
      var (b2, n) := Run(cfg, b1, evs[1..]);
      (b2, n + if died then 1 else 0)
  }

  /** Death is final and reported exactly once; a boss that has died is at
      zero health and stays there. */
  lemma {:induction false} DefeatReportedOnce(cfg: BossConfig, b: Boss, evs: seq<Event>)
    requires b.dead ==> b.health == 0.0
    ensures b.dead ==> Run(cfg, b, evs).0.dead
    ensures Run(cfg, b, evs).0.dead ==> Run(cfg, b, evs).0.health == 0.0
    ensures Run(cfg, b, evs).1 == if !b.dead && Run(cfg, b, evs).0.dead then 1 else 0
    decreases |evs|
  {
    if evs != [] {
      var (b1, _) := Step(cfg, b, evs[0]);
      DefeatReportedOnce(cfg, b1, evs[1..]);
    }
  }
}
