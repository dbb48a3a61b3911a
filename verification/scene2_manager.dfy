/** Scene 2's objective tracker (Scene2Manager.cs): two one-way flags, one
    for the boss and one for the machine, and a latch that starts the
    victory sequence once both are set. Sounds, notifications and the
    victory coroutine's effects are presentation; starting that coroutine
    is reported as an output. */
module Scene2Manager {

  datatype Objectives = Objectives(bossDefeated: bool, machineDestroyed: bool, hasShownVictory: bool)

  /** The latch is set exactly when both objectives are done. */
  predicate Inv(o: Objectives) {
    o.hasShownVictory <==> o.bossDefeated && o.machineDestroyed
  }

  /** `InitializeScene2`: every flag is cleared. */
  function InitializeScene2(): (o: Objectives)
    ensures !o.bossDefeated && !o.machineDestroyed && !o.hasShownVictory
    ensures Inv(o)
  {
    Objectives(false, false, false)
  }

  /** `CheckVictoryCondition`: the victory sequence starts (the flag in the
      result) when both objectives are done and it has not started before. */
  function CheckVictoryCondition(o: Objectives): (r: (Objectives, bool))
    ensures r.1 <==> !o.hasShownVictory && o.bossDefeated && o.machineDestroyed
    ensures r.0.hasShownVictory <==> o.hasShownVictory || r.1
    ensures r.0.bossDefeated == o.bossDefeated && r.0.machineDestroyed == o.machineDestroyed
  {
    if o.hasShownVictory then (o, false)
    else if o.bossDefeated && o.machineDestroyed then (o.(hasShownVictory := true), true)
    else (o, false)
  }

  /** `OnBossDefeated`: the first call sets the flag and checks for
      victory; later calls do nothing. */
  function OnBossDefeated(o: Objectives): (r: (Objectives, bool))
    ensures r.0.bossDefeated && r.0.machineDestroyed == o.machineDestroyed
    ensures o.bossDefeated ==> r == (o, false)
    ensures Inv(o) ==> Inv(r.0)
    ensures Inv(o) ==> (r.1 <==> !o.bossDefeated && o.machineDestroyed)
  {
    if o.bossDefeated then (o, false)
    else CheckVictoryCondition(o.(bossDefeated := true))
  }

  /** `OnMachineDestroyed`: the first call sets the flag and checks for
      victory; later calls do nothing. */
  function OnMachineDestroyed(o: Objectives): (r: (Objectives, bool))
    ensures r.0.machineDestroyed && r.0.bossDefeated == o.bossDefeated
    ensures o.machineDestroyed ==> r == (o, false)
    ensures Inv(o) ==> Inv(r.0)
    ensures Inv(o) ==> (r.1 <==> !o.machineDestroyed && o.bossDefeated)
  {
    if o.machineDestroyed then (o, false)
    else CheckVictoryCondition(o.(machineDestroyed := true))
  }

  function IsBossDefeated(o: Objectives): bool { o.bossDefeated }
  function IsMachineDestroyed(o: Objectives): bool { o.machineDestroyed }
  function IsComplete(o: Objectives): bool { o.hasShownVictory }

  /** In every state the tracker can reach, `IsComplete` reports exactly
      that `IsBossDefeated` and `IsMachineDestroyed` both hold. */
  lemma CompleteMeansBoth(o: Objectives)
    requires Inv(o)
    ensures IsComplete(o) <==> IsBossDefeated(o) && IsMachineDestroyed(o)
  {
  }

  /** Each notification is idempotent. */
  lemma NotificationsIdempotent(o: Objectives)
    ensures OnBossDefeated(OnBossDefeated(o).0) == (OnBossDefeated(o).0, false)
    ensures OnMachineDestroyed(OnMachineDestroyed(o).0) == (OnMachineDestroyed(o).0, false)
  {
  }

  /** The order in which the two objectives complete does not matter: the
      final state is the same, and so is the number of times the victory
      sequence starts. */
  lemma NotificationsCommute(o: Objectives)
    requires Inv(o)
    ensures var (b, v1) := OnBossDefeated(o);
            var (bm, v2) := OnMachineDestroyed(b);
            var (m, w1) := OnMachineDestroyed(o);
            var (mb, w2) := OnBossDefeated(m);
            bm == mb && (if v1 then 1 else 0) + (if v2 then 1 else 0) == (if w1 then 1 else 0) + (if w2 then 1 else 0)
  {
  }

  /** What other scripts can report to the tracker. */
  datatype Event = BossDefeated | MachineDestroyed

  function Step(o: Objectives, e: Event): (Objectives, bool) {
    match e
    case BossDefeated => OnBossDefeated(o)
    case MachineDestroyed => OnMachineDestroyed(o)
  }

  /** Applies the events in order; the count is how often the victory
      sequence started. */
  function Run(o: Objectives, es: seq<Event>): (r: (Objectives, nat))
    ensures Inv(o) ==> Inv(r.0)
    decreases |es|
  {
    if es == [] then (o, 0)
    else
      var (o1, v) := Step(o, es[0]);
      var (o2, n) := Run(o1, es[1..]);
      (o2, n + if v then 1 else 0)
  }

  /** Between two resets the victory sequence starts at most once, however
      many notifications arrive and in whatever order; and it has started
      exactly when both objectives are done. */
  lemma {:induction false} VictoryAtMostOnce(o: Objectives, es: seq<Event>)
    requires Inv(o)
    ensures Run(o, es).1 + (if o.hasShownVictory then 1 else 0) <= 1
    ensures Run(o, es).1 + (if o.hasShownVictory then 1 else 0) == (if Run(o, es).0.hasShownVictory then 1 else 0)
    decreases |es|
  {
    if es != [] {
      VictoryAtMostOnce(Step(o, es[0]).0, es[1..]);
    }
  }

  /** A status mark: ✓ for done, □ otherwise. */
  function Mark(done: bool): (m: string)
    ensures |m| == 1 && (m[0] == '\U{2713}' <==> done)
  {
    if done then "\U{2713}" else "\U{25A1}"
  }

  const Header: string := "Scene 2 Objectives:\nDefeat Boss ["
  const Middle: string := "]\nDestroy Machine ["

  /** `UpdateObjectivesUI`: the objectives panel's text. */
  function ObjectivesText(o: Objectives): (s: string)
    ensures |s| == |Header| + 1 + |Middle| + 1 + 1
    ensures s[..|Header|] == Header && s[|Header|] == Mark(o.bossDefeated)[0]
    ensures s[|Header| + 1..|Header| + 1 + |Middle|] == Middle
    ensures s[|Header| + 1 + |Middle|] == Mark(o.machineDestroyed)[0] && s[|s| - 1] == ']'
  {
    var s := Header + Mark(o.bossDefeated) + Middle + Mark(o.machineDestroyed) + "]";
    assert s == Header + ([Mark(o.bossDefeated)[0]] + (Middle + ([Mark(o.machineDestroyed)[0]] + "]")));
    s
  }

  /** The panel text determines both objective flags. */
  lemma ObjectivesTextInjective(o1: Objectives, o2: Objectives)
    requires ObjectivesText(o1) == ObjectivesText(o2)
    ensures o1.bossDefeated == o2.bossDefeated && o1.machineDestroyed == o2.machineDestroyed
  {
    var s1, s2 := ObjectivesText(o1), ObjectivesText(o2);
    assert s1[|Header|] == s2[|Header|];
    assert s1[|Header| + 1 + |Middle|] == s2[|Header| + 1 + |Middle|];
  }
}
