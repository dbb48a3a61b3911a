/** The persistent game manager (GameManager.cs): a new-game reset, the
    saved player state, and a guard that lets only one scene change start
    at a time. What the scene offers (the player's health component, the
    quest counters) arrives as optional readings; the scene load is the
    event `OnNewSceneLoaded`. */
module GameManager {
  import opened Wrappers
  import opened Decimal

  /** `PlayerState`. */
  datatype PlayerState = PlayerState(
    health: real,
    trashCount: Int32,
    enemiesDefeated: Int32,
    cluesFound: Int32,
    inScene2: bool)

  datatype Game = Game(
    isInScene2: bool,
    changingScene: bool,
    state: PlayerState,
    startingHealth: real,
    scene2Name: string)

  /** The three counters a `QuestManager` offers. */
  datatype QuestCounts = QuestCounts(trash: Int32, enemies: Int32, clues: Int32)

  const FirstSceneName: string := "FinalScene1"

  /** `InitNewGame`: full health, every counter 0, both scene-2 flags
      clear. */
  function InitNewGame(g: Game): (r: Game)
    ensures r.state == PlayerState(g.startingHealth, 0, 0, 0, false) && !r.isInScene2
    ensures r.changingScene == g.changingScene && r.startingHealth == g.startingHealth && r.scene2Name == g.scene2Name
  {
    g.(isInScene2 := false, state := PlayerState(g.startingHealth, 0, 0, 0, false))
  }

  /** `Awake` of the first instance: the serialised settings, then a new
      game. */
  function Awake(startingHealth: real, scene2Name: string): (g: Game)
    ensures g.state == PlayerState(startingHealth, 0, 0, 0, false)
    ensures !g.isInScene2 && !g.changingScene && g.scene2Name == scene2Name && g.startingHealth == startingHealth
  {
    InitNewGame(Game(false, false, PlayerState(0.0, 0, 0, 0, false), startingHealth, scene2Name))
  }

  /** `SaveCurrentState`: the player's health and the quest counters are
      copied into the saved state when their sources exist. */
  function SaveCurrentState(g: Game, health: Option<real>, quest: Option<QuestCounts>): (r: Game)
    ensures r.(state := g.state) == g && r.state.inScene2 == g.state.inScene2
    ensures r.state.health == if health.Some? then health.value else g.state.health
    ensures quest.Some? ==>
      r.state.trashCount == quest.value.trash && r.state.enemiesDefeated == quest.value.enemies &&
      r.state.cluesFound == quest.value.clues
    ensures quest.None? ==>
      r.state.trashCount == g.state.trashCount && r.state.enemiesDefeated == g.state.enemiesDefeated &&
      r.state.cluesFound == g.state.cluesFound
  {
    var s1 := if health.Some? then g.state.(health := health.value) else g.state;
    var s2 := if quest.Some? then s1.(trashCount := quest.value.trash, enemiesDefeated := quest.value.enemies,
                                      cluesFound := quest.value.clues)
              else s1;
    g.(state := s2)
  }

  /** `FinishScene1`: ignored while a scene change is under way; otherwise
      the change starts, the state is saved and both scene-2 flags are set.
      The flag in the result is the request to load scene 2. */
  function FinishScene1(g: Game, health: Option<real>, quest: Option<QuestCounts>): (r: (Game, bool))
    ensures g.changingScene ==> r == (g, false)
    ensures !g.changingScene ==> r.1 && r.0.changingScene && r.0.isInScene2 && r.0.state.inScene2
    ensures !g.changingScene ==>
      r.0.state == SaveCurrentState(g, health, quest).state.(inScene2 := true)
    ensures r.0.startingHealth == g.startingHealth && r.0.scene2Name == g.scene2Name
  {
    if g.changingScene then (g, false)
    else
      var g1 := SaveCurrentState(g.(changingScene := true), health, quest);
      (g1.(isInScene2 := true, state := g1.state.(inScene2 := true)), true)
  }

  /** `CompleteLevel1`: the same guard and the same effects as
      `FinishScene1`, with a direct scene load. */
  function CompleteLevel1(g: Game, health: Option<real>, quest: Option<QuestCounts>): (r: (Game, bool))
    ensures g.changingScene ==> r == (g, false)
    ensures !g.changingScene ==> r.1 && r.0.changingScene && r.0.isInScene2 && r.0.state.inScene2
  {
    if g.changingScene then (g, false)
    else
      var g1 := SaveCurrentState(g.(changingScene := true), health, quest);
      (g1.(isInScene2 := true, state := g1.state.(inScene2 := true)), true)
  }

  /** Both ways of leaving scene 1 have the same effect on the manager. */
  lemma LeavingSceneOneAgrees(g: Game, health: Option<real>, quest: Option<QuestCounts>)
    ensures FinishScene1(g, health, quest) == CompleteLevel1(g, health, quest)
  {
  }

  /** `OnNewSceneLoaded` with `SetupScene2`: loading the first scene starts
      a new game; loading scene 2 hands the saved health to the player,
      when there is one with a health component (the result's second
      part); either way the scene change is over. */
  function OnNewSceneLoaded(g: Game, sceneName: string, playerWithHealth: bool): (r: (Game, Option<real>))
    ensures !r.0.changingScene
    ensures sceneName == FirstSceneName ==> r == (InitNewGame(g).(changingScene := false), None)
    ensures sceneName != FirstSceneName ==> r.0 == g.(changingScene := false)
    ensures r.1.Some? <==> sceneName != FirstSceneName && sceneName == g.scene2Name && playerWithHealth
    ensures r.1.Some? ==> r.1.value == g.state.health
  {
    if sceneName == FirstSceneName then
      var g1 := InitNewGame(g.(isInScene2 := false, state := g.state.(inScene2 := false)));
      (g1.(changingScene := false), None)
    else if sceneName == g.scene2Name then
      (g.(changingScene := false), if playerWithHealth then Some(g.state.health) else None)
    else
      (g.(changingScene := false), None)
  }

  function IsScene2(g: Game): bool { g.isInScene2 }

  function GetPlayerHealth(g: Game): real { g.state.health }

  /** A second request to leave scene 1 before the next scene has loaded
      is ignored, whatever the readings. */
  lemma SecondFinishIgnored(g: Game, h1: Option<real>, q1: Option<QuestCounts>, h2: Option<real>, q2: Option<QuestCounts>)
    ensures var (g1, _) := FinishScene1(g, h1, q1);
      FinishScene1(g1, h2, q2) == (g1, false)
  {
  }

  /** The player's health survives the scene change: the health read when
      leaving scene 1 is what `GetPlayerHealth` reports and what the
      scene-2 player is given; `IsScene2` holds throughout. */
  lemma HealthCarriedIntoSceneTwo(g: Game, h: real, quest: Option<QuestCounts>)
    requires !g.changingScene && g.scene2Name != FirstSceneName
    ensures var (g1, _) := FinishScene1(g, Some(h), quest);
      var (g2, given) := OnNewSceneLoaded(g1, g.scene2Name, true);
      && GetPlayerHealth(g1) == h && IsScene2(g1)
      && given == Some(h) && GetPlayerHealth(g2) == h && IsScene2(g2) && !g2.changingScene
  {
  }

  /** Loading the first scene always starts over, from any state. */
  lemma FirstSceneStartsOver(g: Game, playerWithHealth: bool)
    ensures var (g1, _) := OnNewSceneLoaded(g, FirstSceneName, playerWithHealth);
      g1 == Awake(g.startingHealth, g.scene2Name)
  {
  }
}
