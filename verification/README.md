# Trash, weapons, enemies and objectives: a Dafny model of the game's core scripts

This project models the gameplay core of a two-scene Unity game.

- **Scene 1.** The player collects trash into a capacity-bounded inventory whose per-type counts live in the slots' label text. The running trash total unlocks weapons. A weapon manager handles switching, shooting, reloading and the unlock-progress line. Patrolling enemies chase, attack, stagger and die. A tutorial panel shows queued messages one at a time and may pause the game while it does.
- **Scene 2.** A second weapon manager, where every weapon is available, fires at a boss and a destructible machine. An objective tracker starts its victory sequence (`hasShownVictory`) once both are down; the machine's destruction also shows a victory panel on its own, which is not modelled.
- **Across scenes.** A persistent game manager carries the player's state from scene 1 into scene 2.

Every script becomes a module of pure functions over immutable datatypes:

| module | file |
|---|---|
| `InventorySlot` | `inventory_slot.dfy` |
| `InventorySystem` | `inventory_system.dfy` |
| `Weapons` | `weapons.dfy` (the weapon record both managers share) |
| `WeaponManager` | `weapon_manager.dfy` |
| `WeaponManagerScene2` | `weapon_manager_scene2.dfy` |
| `EnemyController` | `enemy_controller.dfy` |
| `BossController` | `boss_controller.dfy` |
| `DestructibleMachine` | `destructible_machine.dfy` |
| `Scene2Manager` | `scene2_manager.dfy` |
| `TutorialManager` | `tutorial_manager.dfy` |
| `GameManager` | `game_manager.dfy` |

`Decimal` models C#'s `int`: 32-bit wrap-around, `int.ToString()` and `int.TryParse`. `Wrappers` holds `Option`.

Two more modules wire the scripts together the way the game calls them:
- `SceneOneWorld`: a pickup notifies the weapon manager.
- `SceneTwoWorld`: shots damage the boss or the machine, and their deaths notify the objective tracker.

The engine becomes parameters and events:
- `Time.time`, distances, angles and key presses arrive as a `Frame` or `Sense` value.
- `Random.Range` and `Random.value` become a `pick` or `jumpRoll` parameter.
- Each of these completions is its own event:
  - the end of an `Invoke` delay (a reload finishing)
  - an animation event (an attack ending)
  - a coroutine's fade finishing
- Trace functions (`Run`) apply any sequence of such events, so that "at most once" and "in order" properties can be stated over all interleavings.

## Model

| member | source | states |
|---|---|---|
| Decimal.ParseRender | InventorySlot.cs:29 | `int.TryParse` reads back exactly the number `int.ToString()` wrote, for every C# `int` |
| Decimal.EmptyDoesNotParse | InventorySystem.cs:193 | an empty label never parses, so it counts as 0 |
| InventorySlot.NewSlot | InventorySlot.cs:10 | a slot starts out empty, with the type and label text it was authored with |
| InventorySlot.UpdateSlot | InventorySlot.cs:21-37 | the slot is empty exactly when the count is at most 0; a positive count is written so that it parses back to the same count; otherwise the old text stays |
| InventorySystem.SlotIndex | InventorySystem.cs:178-186 | the result is the first slot of that type, or none when no slot has it |
| InventorySystem.GetItemCount | InventorySystem.cs:188-199 | a missing or empty slot counts as 0 |
| InventorySystem.IsFull | InventorySystem.cs:247 | full exactly when no item can be added |
| InventorySystem.AddItem | InventorySystem.cs:99-136 | a pickup is refused (nothing changes) when full or when no slot holds the type; otherwise the total goes up by one, the slot becomes non-empty, and every other type's count is unchanged |
| InventorySystem.AddItemKeepsInv | InventorySystem.cs:99-136 | a pickup keeps the inventory's invariant: counts are non-negative, the total stays within capacity, and the total equals the sum of the per-type counts; an accepted pickup adds exactly one to its type's count |
| InventorySystem.AddItemCount | InventorySystem.cs:122-125 | an accepted pickup raises its own type's count by one, read back through the label text |
| InventorySystem.DepositItems | InventorySystem.cs:138-158 | a missing or empty slot changes nothing; otherwise the type's count becomes 0 and other counts stay |
| InventorySystem.DepositKeepsInv | InventorySystem.cs:138-158 | a deposit keeps the invariant and lowers the total by exactly the deposited count |
| InventorySystem.RefreshFrom | InventorySystem.cs:206-217 | rewriting the slots keeps the capacity, the total and the slot layout |
| InventorySystem.RefreshKeepsInv | InventorySystem.cs:206-217 | re-rendering every slot from its own count changes no type's count and keeps the invariant |
| InventorySystem.StartInv | InventorySystem.cs:31-36 | a freshly started inventory with empty slots has total 0, every count 0, and satisfies the invariant |
| InventorySystem.SlotRoundTrip | InventorySystem.cs:188-199 | a slot written with count n reads back as n when positive, and as 0 otherwise |
| InventorySystem.StaleTextIgnored | InventorySystem.cs:190-191 | an emptied slot keeps its old label text but reads as 0 |
| InventorySystem.TotalCountChange | InventorySystem.cs:201-204 | changing one listed type's count by some amount changes the summed total by the same amount |
| InventorySystem.CountAtMostTotal | InventorySystem.cs:201-204 | with non-negative counts, any one type's count is at most the total |
| Weapons.Fired | WeaponManager.cs:166 | a shot spends exactly one round, never goes below 0, and keeps a magazine that was in range in range |
| Weapons.Refilled | WeaponManager.cs:234 | a finished reload fills the magazine and changes nothing else |
| WeaponManager.InitializeWeapons | WeaponManager.cs:94-109 | every weapon with an object starts locked with a full magazine; weapons without one are untouched |
| WeaponManager.Start | WeaponManager.cs:72-77 | after `Start` the manager is initialised, nothing is selected, no weapon is unlocked, every weapon with an object is full, and the state is valid |
| WeaponManager.CanShoot | WeaponManager.cs:347-352 | in every valid state, shooting is allowed exactly when a weapon is selected and no reload runs, since a selected weapon is always unlocked |
| WeaponManager.HandleShooting | WeaponManager.cs:145-180 | no shot unless a weapon is selected, the trigger is held and the fire-rate gate is open; a shot pushes the gate out by the fire rate and spends a round only if there is one; nothing else changes and validity is kept |
| WeaponManager.StartReload | WeaponManager.cs:212-227 | a reload starts only when none runs, a weapon is selected and its magazine is not full; nothing else changes |
| WeaponManager.FinishReload | WeaponManager.cs:229-238 | the reload ends and the selected weapon's magazine is full; other weapons are unchanged |
| WeaponManager.SwitchToWeapon | WeaponManager.cs:326-337 | the selection moves exactly when the index is in range and that weapon is unlocked |
| WeaponManager.SwitchToFirstUnlockedWeapon | WeaponManager.cs:314-324 | selects the lowest-indexed unlocked weapon; with none unlocked, nothing changes |
| WeaponManager.NextUnlockedMeaning | WeaponManager.cs:302-311 | the bounded search finds an unlocked weapon exactly when one exists, and the one it finds is the first in cyclic order after the selection |
| WeaponManager.SwitchToNextWeapon | WeaponManager.cs:295-312 | with nothing unlocked nothing changes; otherwise the selection becomes the first unlocked weapon in cyclic order after the current one |
| WeaponManager.SwitchKeepsSoleWeapon | WeaponManager.cs:295-312 | when only the selected weapon is unlocked, switching keeps it |
| WeaponManager.SwitchFromNoneIsFirst | WeaponManager.cs:295-324 | from no selection, switching picks the same weapon as `SwitchToFirstUnlockedWeapon` |
| WeaponManager.SwitchLoopNeverExits | WeaponManager.cs:302-311 | as written, with nothing selected and nothing unlocked the do-while never ends, however many passes it is given |
| WeaponManager.SwitchHangsOnOneLockedWeapon | WeaponManager.cs:302-311 | the smallest instance: one locked weapon, nothing selected, and the loop is still running after any number of passes |
| WeaponManager.SwitchLoopAgrees | WeaponManager.cs:295-312 | the loop as written fails to end within one lap exactly when nothing is selected and nothing is unlocked; otherwise it selects what `SwitchToNextWeapon` selects |
| WeaponManager.UnlockWeapon | WeaponManager.cs:280-293 | the weapon unlocks and no other entry changes; if nothing was selected, the selection may only move to an unlocked weapon |
| WeaponManager.UnlockPass | WeaponManager.cs:250-259 | each later entry ends up unlocked exactly when it already was or the trash total reaches its threshold; the flag says whether anything was newly unlocked |
| WeaponManager.CheckWeaponUnlocks | WeaponManager.cs:246-268 | without an inventory nothing happens; otherwise a weapon is unlocked exactly when it was already or the total reaches its threshold; a selection is kept; an unlock from no selection leaves some unlocked weapon selected; validity is kept |
| WeaponManager.UnlockProgress | WeaponManager.cs:406-424 | reports the first locked weapon in roster order with the trash still needed for it (in C# `int`), or that everything is unlocked |
| WeaponManager.ProgressAfterCheckIsPositive | WeaponManager.cs:246-268 | right after an unlock check, the progress line never asks for 0 or fewer items |
| WeaponManager.HandleInput | WeaponManager.cs:117-127 | aiming, switching, shooting and the reload key keep the state valid and change no weapon's configuration or unlock |
| WeaponManager.Update | WeaponManager.cs:111-129 | nothing happens before `Start`; validity is kept; no weapon is ever locked again; in scene 1 every weapon whose threshold the trash total reaches is unlocked after the frame |
| WeaponManager.ReloadingIgnoresInput | WeaponManager.cs:115-117 | while a reload runs no key has an effect: the selection, the fire gate, aiming and ammunition stay |
| WeaponManager.UnlocksArePermanent | WeaponManager.cs:111-129 | neither a frame nor a finished reload locks an unlocked weapon |
| WeaponManagerScene2.Start | WeaponManagerScene2.cs:76-94 | the first weapon is selected and every weapon with an object has a full magazine |
| WeaponManagerScene2.HandleShooting | WeaponManagerScene2.cs:107-171 | a shot needs a selected weapon, the trigger, an open gate and a round; it spends that round, pushes the gate out, and reports a hit with the weapon's damage exactly when the ray lands on the boss or the machine; otherwise nothing changes |
| WeaponManagerScene2.SwitchWeapon | WeaponManagerScene2.cs:181-196 | with two or more weapons the selection moves to the next one cyclically; otherwise nothing changes |
| WeaponManagerScene2.SwitchesAdvance | WeaponManagerScene2.cs:181-196 | k presses advance the selection by k places around the roster |
| WeaponManagerScene2.SwitchCycleReturns | WeaponManagerScene2.cs:181-196 | one press per weapon returns to the weapon held |
| WeaponManagerScene2.StartReload | WeaponManagerScene2.cs:206-215 | an empty roster throws; otherwise a reload starts exactly when the magazine is not full |
| WeaponManagerScene2.FinishReload | WeaponManagerScene2.cs:217-222 | the selected magazine is full again and the reload is over; other weapons are unchanged |
| WeaponManagerScene2.Update | WeaponManagerScene2.cs:96-105 | a running reload blocks the frame; validity is kept |
| WeaponManagerScene2.ShotsCostAmmo | WeaponManagerScene2.cs:107-171 | a reported hit always comes from a selected weapon that had a round and now has one fewer, and it carries that weapon's damage |
| WeaponManagerScene2.EmptyNeverFires | WeaponManagerScene2.cs:116-119 | an empty magazine never produces a hit or spends a round |
| WeaponManagerScene2.EmptyRosterReloadSkipsAim | WeaponManagerScene2.cs:96-105 | on an empty roster the reload key's exception ends the frame before aiming is read |
| EnemyController.FindClosestPatrolPoint | EnemyController.cs:131-150 | the result is a present patrol point at minimal distance, the first such, when one is nearer than `float.MaxValue`; otherwise 0 |
| EnemyController.MoveToNextPatrolPoint | EnemyController.cs:227-244 | a random patrol takes the picked index, a sequential one the next index cyclically; the index is always in range; nothing else changes |
| EnemyController.SequentialPatrolCycles | EnemyController.cs:227-244 | k sequential moves advance the patrol index by k places around the list |
| EnemyController.Start | EnemyController.cs:59-64 | full health, no stagger, no attack; a patrol list (scene points when none is configured) with an in-range starting index |
| EnemyController.HandlePatrolling | EnemyController.cs:205-225 | patrolling keeps the index in range and touches only the patrol fields; arriving starts a wait; at a present point the enemy stops waiting and moves to the next point exactly when the advanced timer reaches the point's wait time; an unassigned (C# null) point being waited at throws after the wait timer advances |
| EnemyController.Update | EnemyController.cs:152-203 | a dead or staggered enemy does nothing; an attack starts exactly when the player is present, within attack range, within half the attack angle, no attack runs and the cooldown has passed; health and death never change |
| EnemyController.NoAttackWhileAttacking | EnemyController.cs:179-203 | no second attack starts while one runs |
| EnemyController.TakeHit | EnemyController.cs:330-395 | a dead enemy ignores hits; otherwise the damage comes off, and the enemy dies exactly when health reaches 0 or below, and otherwise staggers |
| EnemyController.RecoverFromHit | EnemyController.cs:362-369 | the stagger ends; the enemy can be hit again exactly when alive |
| EnemyController.HandleHit | EnemyHitDetection.cs:18-26 | a hit is taken exactly when the enemy can be hit |
| EnemyController.OnAttackHit | EnemyController.cs:292-306 | the attack ends, and it deals the configured damage exactly when the player is still within attack range |
| EnemyController.HandleHitboxCollision | EnemyController.cs:318-328 | damage is dealt, and the attack ends, exactly when attacking and within range |
| EnemyController.DeathIsFinalAndReportedOnce | EnemyController.cs:330-395 | over any sequence of events, including guarded hits and the unguarded `TakeHit` of a scene-1 shot (WeaponManager.cs:182-187), a dead enemy stays dead, and death is reported exactly once when the run kills it |
| BossController.Start | BossController.cs:53-58 | the boss starts at full health, alive, not attacking |
| BossController.TakeDamage | BossController.cs:102-119 | a dead boss ignores damage; health drops but is clamped at 0; the boss dies exactly when health hits 0, which ends its attack and reports the defeat |
| BossController.Update | BossController.cs:83-168 | a dead boss or an absent player means nothing happens; an attack starts exactly when the player is within attack range, no attack runs and the cooldown has passed; the roll chooses the jump or the zombie attack |
| BossController.BusyBossOnlyWaits | BossController.cs:121-144 | while an attack runs the boss neither starts another nor chases |
| BossController.DefeatReportedOnce | BossController.cs:216-240 | over any event sequence a dead boss stays dead at health 0, and the defeat is reported exactly once when the run kills it |
| DestructibleMachine.Start | DestructibleMAchine.cs:22-37 | the machine starts intact at full health |
| DestructibleMachine.TakeDamage | DestructibleMAchine.cs:39-55 | the damage comes off unclamped; the machine is destroyed exactly when health falls to 0 or below, and destruction runs once |
| DestructibleMachine.DestructionRunsOnce | DestructibleMAchine.cs:39-84 | over any run of hits destruction runs at most once, and exactly when an intact machine ends up destroyed |
| DestructibleMachine.IntactHealthIsStartLessDamage | DestructibleMAchine.cs:39-55 | while the machine stands, its health is its starting health less the sum of all hits |
| Scene2Manager.InitializeScene2 | Scene2Manager.cs:56-62 | every objective flag starts cleared |
| Scene2Manager.CheckVictoryCondition | Scene2Manager.cs:101-112 | victory starts exactly when both objectives are done and it has not started before |
| Scene2Manager.OnBossDefeated | Scene2Manager.cs:64-74 | the first call marks the boss and starts victory exactly when the machine is already down; later calls do nothing |
| Scene2Manager.OnMachineDestroyed | Scene2Manager.cs:76-86 | the first call marks the machine and starts victory exactly when the boss is already down; later calls do nothing |
| Scene2Manager.CompleteMeansBoth | Scene2Manager.cs:160-162 | in every reachable state the completion getter is the conjunction of the other two |
| Scene2Manager.NotificationsIdempotent | Scene2Manager.cs:64-86 | a repeated notification changes nothing |
| Scene2Manager.NotificationsCommute | Scene2Manager.cs:64-86 | the order in which the two objectives complete changes neither the final state nor the number of victories |
| Scene2Manager.VictoryAtMostOnce | Scene2Manager.cs:101-131 | over any sequence of notifications the victory sequence starts at most once, and it has started exactly when both objectives are done |
| Scene2Manager.ObjectivesText | Scene2Manager.cs:88-99 | the panel text is the fixed header, the boss mark, the fixed middle line, the machine mark and a closing bracket |
| Scene2Manager.ObjectivesTextInjective | Scene2Manager.cs:88-99 | the panel text determines both objective flags |
| TutorialManager.Awake | TutorialManager.cs:61-106 | the tutorial starts with an empty queue, nothing shown and the panel hidden |
| TutorialManager.BeginDisplay | TutorialManager.cs:149-163 | a display marks the tutorial busy and shows the panel; a pausing message stops time, and as written it always saves the current time scale |
| TutorialManager.ShowNextMessage | TutorialManager.cs:132-147 | with a queued message, the front one starts displaying and leaves the queue; otherwise a fade-out starts |
| TutorialManager.QueueMessage | TutorialManager.cs:108-130 | without a panel the message is dropped; while busy it joins the back of the queue; otherwise it is shown at once |
| TutorialManager.FinishHide | TutorialManager.cs:203-210 | a finished fade-out restores a 0 time scale to the saved one, hides the panel and clears the busy flag |
| TutorialManager.ClearAllMessages | TutorialManager.cs:240-252 | the queue empties; a running display is stopped and fades out |
| TutorialManager.Step | TutorialManager.cs:108-211 | apart from clearing, each event is a FIFO step: the message shown comes off the front of the queue, and an arriving one goes on the back |
| TutorialManager.ShownInQueueOrder | TutorialManager.cs:108-147 | over any event sequence without a clear, the messages shown followed by those still waiting are exactly the ones waiting at the start followed by those queued since |
| TutorialManager.LastMessageHides | TutorialManager.cs:182-211 | continuing past the last message hides the panel and clears the busy flag once the fade-out ends |
| TutorialManager.TimeScaleStuckAsWritten | TutorialManager.cs:155-159 | as written, two pausing messages read and dismissed in a row leave the game at time scale 0 with nothing on screen |
| TutorialManager.QueuedDuringFadeOutStrandedAsWritten | TutorialManager.cs:124-127 | as written, a message queued while the last one fades out stays queued with nothing displaying it, through any fade-out or key events, until another message is queued |
| TutorialManager.CorrectedStepKeepsInv | TutorialManager.cs:149-211 | with the corrections, every event keeps this invariant: time is either running at its original scale or paused with that scale saved, and a pause, a busy flag or a waiting message always has a live display or fade-out behind it |
| TutorialManager.CorrectedIdleRestoresScale | TutorialManager.cs:203-206 | with the corrections, an idle tutorial has an empty queue and the game runs at its original time scale |
| TutorialManager.CorrectedResumesAfterTwoPauses | TutorialManager.cs:155-159 | with the corrections, the game runs again after the two pausing messages |
| TutorialManager.CorrectedShowsLateMessage | TutorialManager.cs:124-127 | with the corrections, the message queued during the fade-out is shown |
| GameManager.InitNewGame | GameManager.cs:60-74 | a new game starts at full health with every counter 0 and outside scene 2 |
| GameManager.Awake | GameManager.cs:45-58 | the first instance starts a new game with no scene change pending |
| GameManager.SaveCurrentState | GameManager.cs:114-132 | the health and the three quest counters are copied when their source exists and kept otherwise |
| GameManager.FinishScene1 | GameManager.cs:83-99 | ignored while a scene change is pending; otherwise the state is saved, scene 2 is flagged and the scene load starts |
| GameManager.CompleteLevel1 | GameManager.cs:221-229 | same guard and effects as `FinishScene1` |
| GameManager.LeavingSceneOneAgrees | GameManager.cs:83-99 | both ways of leaving scene 1 have the same effect |
| GameManager.OnNewSceneLoaded | GameManager.cs:134-172 | loading the first scene starts a new game; loading scene 2 hands the saved health to a player that has health; either way the pending scene change ends |
| GameManager.SecondFinishIgnored | GameManager.cs:83-99 | a second request to leave scene 1 before the load completes changes nothing |
| GameManager.HealthCarriedIntoSceneTwo | GameManager.cs:114-172 | the health saved when leaving scene 1 is what the scene-2 player receives |
| GameManager.FirstSceneStartsOver | GameManager.cs:134-152 | loading the first scene always yields the manager a fresh `Awake` gives, whatever came before |
| SceneOneWorld.PickupUnlocksByTotal | InventorySystem.cs:128 | right after an accepted pickup the inventory total is one higher and still the sum of the counts, and each weapon is unlocked exactly when it was already or the new total reaches its threshold |
| SceneOneWorld.FrameUnlocksByTotal | WeaponManager.cs:240-278 | after a weapon-manager frame, each weapon is unlocked exactly when it was already or the inventory total reaches its threshold |
| SceneTwoWorld.Deliver | WeaponManagerScene2.cs:160-167 | a landed shot damages its target; the tracker's flags keep mirroring the boss's death and the machine's destruction; the objective tracker's victory sequence (`hasShownVictory`) starts only on the notification that completes both |
| SceneTwoWorld.VictoryExactlyWhenBothDown | Scene2Manager.cs:101-112 | from any consistent state and over any events, the objective tracker's victory sequence (`hasShownVictory`) has started exactly once by the end when both the boss is dead and the machine destroyed, and never otherwise |

## Left out

- Sound, animation, particle effects, UI text other than the objectives panel, notifications, camera, recoil, cursor and scene-loading visuals are presentation. They are left out.
- Null-reference exceptions from missing engine objects are not modelled. Every object a script dereferences is assumed present. This covers the weapon object, the slot icon, an enemy's `NavMeshAgent`, the player and the camera. The exceptions the model does reproduce are listed with their members.
- InventorySlot.UpdateSlot: a slot without an icon throws (InventorySlot.cs:34, InventorySystem.cs:114/213); the model assumes every slot has one.
- SceneTwoWorld.Deliver: the machine's destruction alone also shows VictoryManager's victory panel and sets `Time.timeScale` to 0 (DestructibleMAchine.cs:69-74, VictoryManager.cs:36-56), even while the boss is alive; VictoryManager is not part of this model, and only the objective tracker's `hasShownVictory` is modelled.
- EnemyController.HandlePatrolling: a patrol point destroyed by Unity but still in the list is read for its stale `waitTime`, so it is modelled as a present `Point`; only an unassigned (C# null) entry is `Missing`.
- WeaponManager.HandleShooting: the raycast and its target are not modelled. A scene-1 shot that the ray lands on an enemy calls `EnemyController.TakeHit` directly, without the `CanBeHit` guard; that call is the `Shot` event of the enemy's event trace, so it can also hit a staggered enemy. `EnemyController.HandleHit` models the separate `EnemyHitDetection` path.
- WeaponManager.Update: the `isScene2` field is never assigned in the source, so it keeps its default `false`. The model carries it but no operation changes it.
- WeaponManager.GetTotalTrashCount: the sum over all trash types is unbounded here, while the source sums in C# `int`. The inventory's invariant bounds the sum by the capacity, so no wrap-around can occur in a reachable state.
- WeaponManager.SwitchToNextWeapon: with an empty roster the source computes `% 0` and throws. The model treats that frame's switch as doing nothing.
- EnemyController.MoveToNextPatrolPoint: the random pick must lie within the list. `Random.Range` guarantees this.
- EnemyController: the NavMesh path following, destination setting and the arrival test are engine work. Arrival arrives as a `Sense` flag.
- TutorialManager.Step: one interleaving is excluded (`Allowed`). It queues a message while the busy flag is clear but an untracked display coroutine is still alive, which starts a second, concurrent display.
- TutorialManager: `Time.timeScale` is assumed to be changed only by the tutorial. Each fade is assumed to take at least one frame.
- TutorialManager: `StopAllAudio`, voice-over clips and the fade curve are left out.
- GameManager: the singleton instance check is left out. So are `PlayerPrefs` and JSON persistence (`SaveGameState`, `LoadGame`) and scene loading itself.
- Decimal.TryParse: models `int.TryParse` under the invariant culture: optional surrounding white space, one optional sign and decimal digits. Culture-specific signs and digits are left out.
- Floating point: `float` values (health, damage, times, distances) are modelled as exact reals, without rounding.

## Findings

| source | as written | input that shows it | evidently intended | confidence | as-written member | corrected member |
|---|---|---|---|---|---|---|
| WeaponManager.cs:302-311 | the `do … while (currentWeaponIndex != startIndex)` search starts from `startIndex = -1`, a value the index can never take again, so with nothing unlocked it never ends | one weapon, locked, nothing selected (`currentWeaponIndex == -1`), switch key pressed | try each weapon at most once and do nothing when none is unlocked | not executed | WeaponManager.SwitchHangsOnOneLockedWeapon | WeaponManager.SwitchToNextWeapon |
| TutorialManager.cs:155-159 | every pausing message saves the current `Time.timeScale`, even when an earlier pausing message has already set it to 0 | two pausing messages queued back to back, each read and dismissed | remember the time scale from before the first pause | not executed | TutorialManager.TimeScaleStuckAsWritten | TutorialManager.CorrectedStepKeepsInv |
| TutorialManager.cs:124-127 | `QueueMessage` shows a message at once only while `isDisplayingMessage` is false; the fade-out started by the last message keeps it true and then clears it without looking at the queue | a message queued after the last message was dismissed but before its fade-out ends | show the late message once the fade-out ends | not executed | TutorialManager.QueuedDuringFadeOutStrandedAsWritten | TutorialManager.CorrectedShowsLateMessage |
