/** A scene-1 enemy (EnemyController.cs, with the guard of
    EnemyHitDetection.cs): health, stagger, attack gating, death and patrol
    bookkeeping. What the engine supplies each frame (the player's
    distance and viewing angle, `Time.time`, `Time.deltaTime`, whether the
    agent has arrived, a `Random.Range` pick) arrives as a `Sense`; the
    stagger's `Invoke` is the separate event `RecoverFromHit`. The enemy is
    assumed to have its `NavMeshAgent`. */
module EnemyController {
  import opened Wrappers

  /** The largest finite `float`, `float.MaxValue`. */
  const FloatMax: real := 340282346638528859811704183484516925440.0

  /** An entry of the patrol list: a `PatrolPoint` with its wait time, or an
      unassigned (C# null) one. */
  datatype PatrolPoint = Missing | Point(waitTime: real)

  datatype EnemyConfig = EnemyConfig(
    detectionRange: real,
    attackRange: real,
    attackAngle: real,
    maxHealth: real,
    damageAmount: real,
    attackCooldown: real,
    randomPatrol: bool,
    points: seq<PatrolPoint>)

  datatype Enemy = Enemy(
    health: real,
    dead: bool,
    hit: bool,               // staggered after a hit
    attacking: bool,
    nextAttackTime: real,
    patrolIndex: int,        // -1 until a patrol point is chosen
    waiting: bool,
    waitTimer: real)

  /** The patrol index is a list index once there is a list. */
  predicate Valid(cfg: EnemyConfig, e: Enemy) {
    |cfg.points| > 0 ==> 0 <= e.patrolIndex < |cfg.points|
  }

  // ---------------------------------------------------------------------
  // Patrol points
  // ---------------------------------------------------------------------

  /** Entry `r` is present, nearer than `float.MaxValue`, no farther than
      any present entry below `upTo`, and strictly nearer than every
      present entry before it. */
  predicate ClosestBelow(points: seq<PatrolPoint>, dist: seq<real>, upTo: int, r: int)
    requires |dist| == |points| && 0 <= upTo <= |points|
  {
    && 0 <= r < upTo && points[r].Point? && dist[r] < FloatMax
    && (forall j :: 0 <= j < upTo && points[j].Point? ==> dist[r] <= dist[j])
    && (forall j :: 0 <= j < r && points[j].Point? ==> dist[r] < dist[j])
  }

  predicate AnyNear(points: seq<PatrolPoint>, dist: seq<real>, upTo: int)
    requires |dist| == |points| && 0 <= upTo <= |points|
  {
    exists j :: 0 <= j < upTo && points[j].Point? && dist[j] < FloatMax
  }

  /** `FindClosestPatrolPoint`, given each entry's distance from the enemy:
      the first present entry of least distance, or 0 when no present entry
      is nearer than `float.MaxValue`. */
  method FindClosestPatrolPoint(points: seq<PatrolPoint>, dist: seq<real>) returns (r: int)
    requires |dist| == |points|
    ensures AnyNear(points, dist, |points|) ==> ClosestBelow(points, dist, |points|, r)
    ensures !AnyNear(points, dist, |points|) ==> r == 0
  {
    var closest := FloatMax;
    r := 0;
    var i := 0;
    while i < |points|
      invariant 0 <= i <= |points|
      invariant AnyNear(points, dist, i) ==> ClosestBelow(points, dist, i, r) && closest == dist[r]
      invariant !AnyNear(points, dist, i) ==> r == 0 && closest == FloatMax
    {
      if points[i].Point? {
        if dist[i] < closest {
          closest := dist[i];
          r := i;
        }
      }
      i := i + 1;
    }
  }

  /** `MoveToNextPatrolPoint`: a random patrol takes the `Random.Range`
      pick, a sequential one the next entry round the list. */
  function MoveToNextPatrolPoint(cfg: EnemyConfig, e: Enemy, pick: nat): (r: Enemy)
    requires |cfg.points| > 0 && cfg.randomPatrol ==> pick < |cfg.points|
    requires e.patrolIndex >= -1
    ensures r.(patrolIndex := e.patrolIndex) == e
    ensures |cfg.points| == 0 ==> r == e
    ensures |cfg.points| > 0 ==> 0 <= r.patrolIndex < |cfg.points|
    ensures |cfg.points| > 0 && cfg.randomPatrol ==> r.patrolIndex == pick
    ensures |cfg.points| > 0 && !cfg.randomPatrol ==> r.patrolIndex == (e.patrolIndex + 1) % |cfg.points|
  {
    if |cfg.points| == 0 then e
    else if cfg.randomPatrol then e.(patrolIndex := pick)
    else e.(patrolIndex := (e.patrolIndex + 1) % |cfg.points|)
  }

  /** A sequential patrol visits every entry once per `|points|` moves. */
  function Moves(cfg: EnemyConfig, e: Enemy, k: nat): (r: Enemy)
    requires !cfg.randomPatrol && e.patrolIndex >= -1
    ensures r.patrolIndex >= -1
    decreases k
  {
    if k == 0 then e else Moves(cfg, MoveToNextPatrolPoint(cfg, e, 0), k - 1)
  }

  lemma {:induction false} SequentialPatrolCycles(cfg: EnemyConfig, e: Enemy, k: nat)
    requires !cfg.randomPatrol && |cfg.points| > 0 && 0 <= e.patrolIndex < |cfg.points|
    requires k <= |cfg.points|
    ensures Moves(cfg, e, k).patrolIndex ==
      if e.patrolIndex + k < |cfg.points| then e.patrolIndex + k else e.patrolIndex + k - |cfg.points|
    decreases k
  {
    if k > 0 {
      var e1 := MoveToNextPatrolPoint(cfg, e, 0);
      assert e1.patrolIndex == if e.patrolIndex + 1 < |cfg.points| then e.patrolIndex + 1 else 0;
      SequentialPatrolCycles(cfg, e1, k - 1);
    }
  }

  /** `Start` with `SetupPatrolPoints`: full health, and, when there is a
      patrol list, the closest entry followed by one move. An empty
      configured list is replaced by the scene's patrol points. */
  method Start(cfg: EnemyConfig, scenePoints: seq<PatrolPoint>, dist: seq<real>, pick: nat)
    returns (cfg': EnemyConfig, e: Enemy)
    requires |dist| == |if |cfg.points| == 0 then scenePoints else cfg.points|
    requires cfg.randomPatrol && |dist| > 0 ==> pick < |dist|
    ensures cfg' == cfg.(points := if |cfg.points| == 0 then scenePoints else cfg.points)
    ensures e.health == cfg.maxHealth && !e.dead && !e.hit && !e.attacking && !e.waiting
    ensures Valid(cfg', e)
    ensures |cfg'.points| == 0 ==> e.patrolIndex == -1
  {
    cfg' := if |cfg.points| == 0 then cfg.(points := scenePoints) else cfg;
    e := Enemy(cfg.maxHealth, false, false, false, 0.0, -1, false, 0.0);
    if |cfg'.points| > 0 {
      var closest := FindClosestPatrolPoint(cfg'.points, dist);
      e := e.(patrolIndex := closest);
      e := MoveToNextPatrolPoint(cfg', e, pick);
    }
  }

  // ---------------------------------------------------------------------
  // The frame
  // ---------------------------------------------------------------------

  /** What the engine reports to one `Update`. */
  datatype Sense = Sense(
    playerPresent: bool,
    distance: real,
    angle: real,
    now: real,
    deltaTime: real,
    arrived: bool,          // !pathPending && remainingDistance < 0.5
    pick: nat)

  /** What the enemy does this frame. */
  datatype Action =
    | Frozen                // dead or staggered
    | StartedAttack
    | Holding               // in range and facing, but cooling down or mid-attack
    | Rotating
    | Chasing
    | Patrolling

  /** `StartAttack` is reached exactly under these conditions. */
  predicate AttackGate(cfg: EnemyConfig, e: Enemy, s: Sense) {
    && s.playerPresent
    && s.distance <= cfg.detectionRange
    && s.distance <= cfg.attackRange
    && s.angle <= cfg.attackAngle * 0.5
    && s.now >= e.nextAttackTime
    && !e.attacking
  }

  /** `HandlePatrolling`. At a present point the enemy waits until the
      accumulated timer reaches the point's wait time and then moves on;
      while waiting at an unassigned (C# null) entry the wait-time lookup
      throws, so only the timer's advance survives. */
  function HandlePatrolling(cfg: EnemyConfig, e: Enemy, s: Sense): (r: Enemy)
    requires Valid(cfg, e)
    requires |cfg.points| > 0 && cfg.randomPatrol ==> s.pick < |cfg.points|
    ensures Valid(cfg, r)
    ensures r.(patrolIndex := e.patrolIndex, waiting := e.waiting, waitTimer := e.waitTimer) == e
    ensures |cfg.points| == 0 ==> r == e
    ensures |cfg.points| > 0 && e.waiting && cfg.points[e.patrolIndex].Missing? ==>
      r == e.(waitTimer := e.waitTimer + s.deltaTime)
    ensures |cfg.points| > 0 && e.waiting && cfg.points[e.patrolIndex].Point? ==>
      r.waitTimer == e.waitTimer + s.deltaTime &&
      (!r.waiting <==> e.waitTimer + s.deltaTime >= cfg.points[e.patrolIndex].waitTime)
    ensures |cfg.points| > 0 && e.waiting && cfg.points[e.patrolIndex].Point? ==>
      if e.waitTimer + s.deltaTime >= cfg.points[e.patrolIndex].waitTime
      then r.patrolIndex == MoveToNextPatrolPoint(cfg, e, s.pick).patrolIndex
      else r.patrolIndex == e.patrolIndex
    ensures |cfg.points| > 0 && !e.waiting ==>
      r == if s.arrived then e.(waiting := true, waitTimer := 0.0) else e
  {
    if |cfg.points| == 0 then e
    else if e.waiting then
      var e1 := e.(waitTimer := e.waitTimer + s.deltaTime);
      match cfg.points[e.patrolIndex]
      case Missing => e1
      case Point(wait) =>
        if e1.waitTimer >= wait then MoveToNextPatrolPoint(cfg, e1.(waiting := false), s.pick) else e1
    else if s.arrived then e.(waiting := true, waitTimer := 0.0)
    else e
  }

  /** `Update` with `HandleCombat` and `StartAttack`. */
  function Update(cfg: EnemyConfig, e: Enemy, s: Sense): (r: (Enemy, Action))
    requires Valid(cfg, e)
    requires |cfg.points| > 0 && cfg.randomPatrol ==> s.pick < |cfg.points|
    ensures Valid(cfg, r.0)
    ensures e.dead || e.hit ==> r == (e, Frozen)
    ensures r.1 == StartedAttack <==> !e.dead && !e.hit && AttackGate(cfg, e, s)
    ensures r.1 == StartedAttack ==> r.0 == e.(attacking := true, nextAttackTime := s.now + cfg.attackCooldown)
    ensures r.1 != StartedAttack ==> r.0.attacking == e.attacking && r.0.nextAttackTime == e.nextAttackTime
    ensures r.0.health == e.health && r.0.dead == e.dead && r.0.hit == e.hit
  {
    if e.dead || e.hit then (e, Frozen)
    else if s.playerPresent && s.distance <= cfg.detectionRange then
      if s.distance <= cfg.attackRange then
        if s.angle <= cfg.attackAngle * 0.5 then
          if s.now >= e.nextAttackTime && !e.attacking then
            (e.(attacking := true, nextAttackTime := s.now + cfg.attackCooldown), StartedAttack)
          else (e, Holding)
        else (e, Rotating)
      else (e, Chasing)
    else (HandlePatrolling(cfg, e, s), Patrolling)
  }

  /** A new attack is never started while one is in progress. */
  lemma NoAttackWhileAttacking(cfg: EnemyConfig, e: Enemy, s: Sense)
    requires Valid(cfg, e) && e.attacking
    requires |cfg.points| > 0 && cfg.randomPatrol ==> s.pick < |cfg.points|
    ensures Update(cfg, e, s).1 != StartedAttack
    ensures Update(cfg, e, s).0.nextAttackTime == e.nextAttackTime
  {
  }

  // ---------------------------------------------------------------------
  // Being hit, attacking the player
  // ---------------------------------------------------------------------

  predicate CanBeHit(e: Enemy) {
    !e.dead && !e.hit
  }

  predicate IsInAttackState(e: Enemy) {
    e.attacking && !e.dead
  }

  /** `TakeHit` with `StartHitStagger` and `Die`: the damage comes off the
      health; at zero or below the enemy dies (the flag in the result is
      the `QuestManager.OnEnemyDefeated` report), otherwise it staggers. */
  function TakeHit(e: Enemy, damage: real): (r: (Enemy, bool))
    ensures e.dead ==> r == (e, false)
    ensures !e.dead ==> r.0.health == e.health - damage
    ensures !e.dead ==> (r.1 <==> r.0.health <= 0.0) && (r.0.dead <==> r.0.health <= 0.0)
    ensures !e.dead && r.0.health > 0.0 ==> r.0 == e.(health := e.health - damage, hit := true)
    ensures !e.dead && r.0.health <= 0.0 ==> r.0 == e.(health := e.health - damage, dead := true)
  {
    if e.dead then (e, false)
    else
      var h := e.health - damage;
      if h <= 0.0 then (e.(health := h, dead := true), true)
      else (e.(health := h, hit := true), false)
  }

  /** `RecoverFromHit`: the stagger ends. */
  function RecoverFromHit(e: Enemy): (r: Enemy)
    ensures !r.hit && r.(hit := e.hit) == e
    ensures CanBeHit(r) <==> !e.dead
  {
    e.(hit := false)
  }

  /** `EnemyHitDetection.HandleHit`: a hit is taken only while `CanBeHit`;
      the first flag says whether it was taken. */
  function HandleHit(e: Enemy, damage: real): (r: (Enemy, bool, bool))
    ensures r.1 <==> CanBeHit(e)
    ensures !r.1 ==> r.0 == e && !r.2
    ensures r.1 ==> (r.0, r.2) == TakeHit(e, damage)
  {
    if CanBeHit(e) then
      var (e1, died) := TakeHit(e, damage);
      (e1, true, died)
    else (e, false, false)
  }

  /** `OnAttackHit`, the animation event at the end of an attack: the
      player takes the damage (the result's second part) only when in
      range, and the attack is over either way. */
  function OnAttackHit(cfg: EnemyConfig, e: Enemy, playerPresent: bool, distance: real): (r: (Enemy, Option<real>))
    ensures !IsInAttackState(e) ==> r == (e, None)
    ensures IsInAttackState(e) ==> r.0 == e.(attacking := false)
    ensures r.1.Some? <==> IsInAttackState(e) && playerPresent && distance <= cfg.attackRange
    ensures r.1.Some? ==> r.1.value == cfg.damageAmount
  {
    if !e.attacking || e.dead then (e, None)
    else if playerPresent && distance <= cfg.attackRange then (e.(attacking := false), Some(cfg.damageAmount))
    else (e.(attacking := false), None)
  }

  /** `HandleHitboxCollision`: the attack ends only when it lands. */
  function HandleHitboxCollision(cfg: EnemyConfig, e: Enemy, distance: real): (r: (Enemy, Option<real>))
    ensures r.1.Some? <==> IsInAttackState(e) && distance <= cfg.attackRange
    ensures r.1.Some? ==> r.0 == e.(attacking := false) && r.1.value == cfg.damageAmount
    ensures r.1.None? ==> r.0 == e
  {
    if !e.attacking || e.dead then (e, None)
    else if distance <= cfg.attackRange then (e.(attacking := false), Some(cfg.damageAmount))
    else (e, None)
  }

  // ---------------------------------------------------------------------
  // Life cycle over a run of events
  // ---------------------------------------------------------------------

  /** Everything that can happen to an enemy after `Start`. A `Hit` comes
      through `EnemyHitDetection`'s guard; a `Shot` is a scene-1 weapon's
      ray calling `TakeHit` directly, with no guard. */
  datatype Event =
    | Frame(s: Sense)
    | Hit(damage: real)
    | Shot(damage: real)
    | Recover
    | AttackHit(playerPresent: bool, distance: real)
    | HitboxCollision(distance: real)

  predicate Allowed(cfg: EnemyConfig, ev: Event) {
    ev.Frame? && |cfg.points| > 0 && cfg.randomPatrol ==> ev.s.pick < |cfg.points|
  }

  /** One event; the flag says whether the enemy died of it. */
  function Step(cfg: EnemyConfig, e: Enemy, ev: Event): (r: (Enemy, bool))
    requires Valid(cfg, e) && Allowed(cfg, ev)
    ensures Valid(cfg, r.0)
    ensures e.dead ==> r.0.dead && !r.1
    ensures r.1 <==> !e.dead && r.0.dead
  {
    match ev
    case Frame(s) => (Update(cfg, e, s).0, false)
    case Hit(d) => var (e1, _, died) := HandleHit(e, d); (e1, died)
    case Shot(d) => TakeHit(e, d)
    case Recover => (RecoverFromHit(e), false)
    case AttackHit(p, d) => (OnAttackHit(cfg, e, p, d).0, false)
    case HitboxCollision(d) => (HandleHitboxCollision(cfg, e, d).0, false)
  }

  /** Applies the events in order; the count is how many deaths were
      reported. */
  function Run(cfg: EnemyConfig, e: Enemy, evs: seq<Event>): (r: (Enemy, nat))
    requires Valid(cfg, e) && forall i :: 0 <= i < |evs| ==> Allowed(cfg, evs[i])
    ensures Valid(cfg, r.0)
    decreases |evs|
  {
    if evs == [] then (e, 0)
    else
      var (e1, died) := Step(cfg, e, evs[0]);
      var (e2, n) := Run(cfg, e1, evs[1..]);
      (e2, n + if died then 1 else 0)
  }

  /** Death is final, and it is reported exactly once: a run reports a
      death precisely when it turns a living enemy into a dead one. */
  lemma {:induction false} DeathIsFinalAndReportedOnce(cfg: EnemyConfig, e: Enemy, evs: seq<Event>)
    requires Valid(cfg, e) && forall i :: 0 <= i < |evs| ==> Allowed(cfg, evs[i])
    ensures e.dead ==> Run(cfg, e, evs).0.dead
    ensures Run(cfg, e, evs).1 == if !e.dead && Run(cfg, e, evs).0.dead then 1 else 0
    decreases |evs|
  {
    if evs != [] {
      DeathIsFinalAndReportedOnce(cfg, Step(cfg, e, evs[0]).0, evs[1..]);
    }
  }
}
