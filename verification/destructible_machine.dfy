/** Scene 2's machine (DestructibleMAchine.cs): health with no clamp and a
    one-shot destruction latch. The returned flag reports the destruction.
    The source then shows `VictoryManager`'s panel and notifies the
    objective tracker; the scene-2 world models only the notification. */
module DestructibleMachine {

  datatype Machine = Machine(health: real, destroyed: bool)

  /** The field initialiser and `Start`: full health, intact. */
  function Start(maxHealth: real): (m: Machine)
    ensures m.health == maxHealth && !m.destroyed
  {
    Machine(maxHealth, false)
  }

  /** `TakeDamage` with `DestroyMachine`: the damage comes off the health
      as it is, and the first time health is at or below zero the machine
      is destroyed and its effects run (the flag in the result). */
  function TakeDamage(m: Machine, damage: real): (r: (Machine, bool))
    ensures m.destroyed ==> r == (m, false)
    ensures !m.destroyed ==> r.0.health == m.health - damage
    ensures !m.destroyed ==> (r.0.destroyed <==> r.0.health <= 0.0) && (r.1 <==> r.0.destroyed)
  {
    if m.destroyed then (m, false)
    else
      var h := m.health - damage;
      if h <= 0.0 then (Machine(h, true), true) else (Machine(h, false), false)
  }

  /** Applies hits in order; the count is how often destruction ran. */
  function Run(m: Machine, hits: seq<real>): (r: (Machine, nat))
    decreases |hits|
  {
    if hits == [] then (m, 0)
    else
      var (m1, fired) := TakeDamage(m, hits[0]);
      var (m2, n) := Run(m1, hits[1..]);
      (m2, n + if fired then 1 else 0)
  }

  /** The sum of a run of hits. */
  function Total(hits: seq<real>): real
    decreases |hits|
  {
    if hits == [] then 0.0 else hits[0] + Total(hits[1..])
  }

  /** Destruction runs at most once, and exactly when the run turns an
      intact machine into a destroyed one. */
  lemma {:induction false} DestructionRunsOnce(m: Machine, hits: seq<real>)
    ensures m.destroyed ==> Run(m, hits).0 == m
    ensures Run(m, hits).1 == if !m.destroyed && Run(m, hits).0.destroyed then 1 else 0
    decreases |hits|
  {
    if hits != [] {
      DestructionRunsOnce(TakeDamage(m, hits[0]).0, hits[1..]);
    }
  }

  /** While the machine stands, every hit counts in full: after a run that
      leaves it intact its health is the start value less all the damage. */
  lemma {:induction false} IntactHealthIsStartLessDamage(m: Machine, hits: seq<real>)
    requires !m.destroyed && !Run(m, hits).0.destroyed
    ensures Run(m, hits).0.health == m.health - Total(hits)
    decreases |hits|
  {
    if hits != [] {
      var m1 := TakeDamage(m, hits[0]).0;
      DestructionRunsOnce(m1, hits[1..]);
      IntactHealthIsStartLessDamage(m1, hits[1..]);
    }
  }
}
