# Magic Maze: entities and game loop in Dafny

Magic Maze is a small tile-based maze game. The player walks a grid, casts
spells and kills monsters. This project models two parts of it:

- **Entities** (`magicmaze/entity.rb`):
  - beings with clamped life and mana and a three-way death signal (`:died`, `:dead`, nil);
  - missiles that fly along the spiritual layer for at most 10 cells. A missile is removed by the first entity-layer
    occupant other than its caster that it meets: a door, the player or any monster. It damages that occupant only
    when it is a `Monster`, which the source defines as the original-motion monster. Its caster scores only when the
    hit answers `:died`;
  - astral bodies: the Eyeball spy spell, alive for 50 ticks, and the movable-map view, which jumps five cells per move;
  - the two monster brains. The dumb monster walks straight and turns clockwise when blocked. The
    "original motion" monster scores the four directions, biases them toward the player and takes the
    first strict maximum.
- **Game loop** (`magicmaze/gameloop.rb`):
  - the four-bit movement-intent mask, its cancellation of opposite keys and its resolution into player impulses;
  - the speed setting (frame delay 10..100 ms in steps of 5) and the per-frame sleep;
  - the yes/no-confirmed quit and restart commands;
  - the frame loop that runs while the state is `:game_loop`;
  - the level driver. It advances on `:next_level`, ends with `:endgame` past the last level, and restores the
    checkpoint on `:restart_level` and `:player_died`.

Modules, one per file:

| module | file | content |
|---|---|---|
| `Movement` | movement.dfy | directions (N=0, E=1, S=2, W=3), positions, one-cell steps |
| `Lifecycle` | lifecycle.dfy | life/mana clamping, death signals, missile and Eyeball lifespans, monster sleep gate, as pure functions with lemmas |
| `MonsterAI` | monster_ai.dfy | the desire scoring of the original-motion monster and its first-strict-maximum choice |
| `Entity` | entity.dfy | the game map's layers, and the `Being`, `Missile`, `MissileTile` and `AstralBody` classes whose methods update their fields in place |
| `GameLoop` | gameloop.dfy | intent bits, speed, frame pacing, game states, and the `Game` class with the frame loop and level driver |

Classes follow the source's objects:

- Each method states its new state through the pure functions of `Lifecycle`, `MonsterAI` and the map functions of `Entity`.
- The properties are lemmas about those functions.

Modelling choices:

- **Randomness and hashing are inputs.** The four `rand(35) + 175` base scores arrive as `jp`. The `x.hash` and
  `y.hash` of the first-sleep spread arrive as integers.
- **The comparison at entity.rb:350 is a boolean parameter.** The test `direction == @direction.value` compares
  the monster's Direction object with its own integer value. It has the same outcome in every iteration of the
  desire loop. The model therefore takes that outcome as a boolean `selfCompare`. When it holds, every desire
  gains 15, not only the straight-ahead one. The lemmas in `MonsterAI` show what that does:
  - the bonus never changes the difference between two open directions;
  - it never changes the choice when every open raw desire is positive;
  - with a negative open desire, it can make the difference between staying and moving away from the player.
- **Input, the clock and the entity ticks arrive per frame** as a `Frame`:
  - the commands;
  - the player's facing;
  - an optional `:state_change` throw;
  - the two clock readings.
- **Impulses and sleeps are recorded.** Each impulse handed to the player is appended to a `seq` field, and
  likewise each `SDL.delay` argument.

## Model

| member | source | states |
|---|---|---|
| Lifecycle.LifeAfter | magicmaze/entity.rb:69-74 | life after add_life lies in 0..100; it is 0 exactly when life+diff <= 0, equals life+diff in range, and is capped at 100 |
| Lifecycle.Signal | magicmaze/entity.rb:73-80 | add_life answers :died exactly when a living being reaches 0, :dead exactly when an already dead one is hit to 0, nil exactly when life stays positive |
| Lifecycle.ManaAfter | magicmaze/entity.rb:84-88 | mana after add_mana lies in 0..100 and equals mana+diff when that is in range, else the bound it crossed |
| Lifecycle.DeadStaysDead | magicmaze/entity.rb:79 | once life is 0, every further hit answers :dead and life stays 0 |
| Lifecycle.DiedAtMostOnce | magicmaze/entity.rb:68-81 | over any series of hits :died is answered at most once, and exactly once iff the being was alive and ends at 0 |
| Lifecycle.NoDiedInDeadRun | magicmaze/entity.rb:79 | a run of :dead answers contains no :died |
| Lifecycle.FlyStep | magicmaze/entity.rb:130-131 | a free tick spends one movement; the missile survives iff the move succeeded and at least one movement is left |
| Lifecycle.FlightBounded | magicmaze/entity.rb:118 | a missile with n >= 1 movements makes at most n moving ticks, so at most 10 from creation |
| Lifecycle.FlightUnobstructed | magicmaze/entity.rb:129-131 | unobstructed, a missile makes exactly as many moving ticks as it has movements |
| Lifecycle.EyeStep | magicmaze/entity.rb:231-233 | an Eyeball tick spends one movement first; the eye stays active iff it was active and at least one movement is left |
| Lifecycle.EyeballLifespan | magicmaze/entity.rb:228-235 | an active Eyeball with m >= 1 movements has m - n left after n ticks and is still active iff n < m: created with 50, it is inactive from its 50th tick |
| Lifecycle.EyeballMovesBounded | magicmaze/entity.rb:174-181 | an Eyeball with m movements moves at most m - 1 times, 49 from creation; an inactive one never moves |
| Lifecycle.EyeballMovesExact | magicmaze/entity.rb:174-181 | with mana on every tick, an Eyeball with m >= 1 movements moves exactly m - 1 times |
| Lifecycle.IdleTicks | magicmaze/entity.rb:279-280 | a monster with sleep s > 0 waits exactly s ticks before it acts, one with s <= 0 acts at once |
| Lifecycle.InitialSleep | magicmaze/entity.rb:307 | the first sleep of an original-motion monster is in 0..7 and congruent to x.hash+y.hash modulo 8 |
| MonsterAI.Biased | magicmaze/entity.rb:328-345 | each direction's base score gains 1000 when the player lies that way and loses 200 when the player lies the opposite way |
| MonsterAI.Desire | magicmaze/entity.rb:350-358 | a refused direction has desire 0; any other has its raw score plus the bonus when the self-comparison holds |
| MonsterAI.Desires | magicmaze/entity.rb:349-358 | the four desires are the per-direction Desire values |
| MonsterAI.FirstStrictMaxUnique | magicmaze/entity.rb:364-367 | the outcome of the strict-maximum scan is determined by the desires |
| MonsterAI.ClosedNeverChosen | magicmaze/entity.rb:356-371 | when the monster moves, the chosen direction is not one whose access was refused |
| MonsterAI.PlayerNorthChoosesNorth | magicmaze/entity.rb:328-372 | with the player straight north and every neighbour open, the monster turns north and moves |
| MonsterAI.BonusIsUniform | magicmaze/entity.rb:350-352 | the +15 bonus leaves the difference between any two open desires unchanged |
| MonsterAI.BonusKeepsChoice | magicmaze/entity.rb:350-370 | when every open raw desire is positive, the bonus changes neither the chosen direction nor whether the monster moves |
| MonsterAI.BonusCanMakeMonsterFlee | magicmaze/entity.rb:350-370 | a concrete case where the bonus turns "stay" into "move north, away from the player" |
| Entity.PutEntity | magicmaze/entity.rb:75 | setting the entity layer changes only that cell's entity slot and keeps the map's extent |
| Entity.PutObject | magicmaze/entity.rb:77 | setting the object layer changes only that cell's object slot and keeps the map's extent |
| Entity.PutSpirit | magicmaze/entity.rb:148 | setting the spiritual layer changes only that cell's spirit slot and keeps the map's extent |
| Entity.DeathCells | magicmaze/entity.rb:73-78 | a death clears the entity slot; a blood splat is written only where the object layer was empty, an existing object is kept |
| Entity.PhysicalStep | magicmaze/entity.rb:34-36 | a physical move succeeds iff the target is on the map, unblocked and empty; then the mover leaves its cell and occupies the target, else nothing changes |
| Entity.SpiritualStep | magicmaze/entity.rb:34-36 | the same for the spiritual layer |
| Entity.SpiritualSlide | magicmaze/entity.rb:251 | n consecutive add! calls on the spiritual layer, each applied to the map the previous one left |
| Entity.SlideAlongLine | magicmaze/entity.rb:250-252 | five jumps of the movable map end on the line ahead, at most five cells away, and keep the map's extent |
| Entity.SlideBlockedAtStart | magicmaze/entity.rb:250-252 | if the first jump is refused, all five are and nothing changes |
| Entity.AccessTo | magicmaze/entity.rb:355-361 | a neighbour is "no location" iff off the map and "open" iff physical access is allowed |
| Entity.Around | magicmaze/entity.rb:355 | the four neighbour accesses in direction order |
| Entity.ScanFrom | magicmaze/entity.rb:347-368 | continuing the scan from a prefix outcome gives the first-strict-maximum outcome of all desires |
| Entity.PlayerAt | magicmaze/entity.rb:324 | the player's location from game_data, or the monster's own location when there is none |
| Entity.HitsOther | magicmaze/entity.rb:127 | a missile hits when the entity layer holds something and it is not the caster |
| Entity.Select | magicmaze/entity.rb:347-368 | the scan from mp = -3000, m = -1 gives the first strict maximum, or -1 when no desire exceeds -3000 |
| Entity.Being.DumbMonster | magicmaze/entity.rb:272-276 | a dumb monster starts with its tile's health and sleep 8 |
| Entity.Being.OriginalMotionMonster | magicmaze/entity.rb:303-308 | an original-motion monster starts with its tile's health and the spread sleep |
| Entity.Being.Alive | magicmaze/entity.rb:90-92 | alive? is life > 0; AddLife answers nil exactly when the being is Alive afterwards |
| Entity.Being.RemoveOldEntity | magicmaze/entity.rb:43-45 | the being's cell loses its entity and the being leaves the active set |
| Entity.Being.AddLife | magicmaze/entity.rb:68-81 | life becomes LifeAfter, the answer is Signal, and at 0 the map becomes DeathCells with the being deregistered, otherwise the map is unchanged |
| Entity.Being.AddMana | magicmaze/entity.rb:84-88 | mana becomes ManaAfter |
| Entity.Being.MoveForward | magicmaze/entity.rb:34-36 | moved iff physical access ahead; the map and position become PhysicalStep |
| Entity.Being.DumbTick | magicmaze/entity.rb:278-293 | sleep drops by one; once negative the monster steps forward and sleeps 8, or turns clockwise and sleeps 4 |
| Entity.Being.ScoreDirections | magicmaze/entity.rb:349-368 | the loop's (mp, m) is the first strict maximum of the desires around the monster |
| Entity.Being.AttemptMovement | magicmaze/entity.rb:317-380 | with a positive maximum the monster faces the chosen direction, steps by PhysicalStep and sleeps 8 or 2; otherwise nothing changes |
| Entity.Being.OriginalTick | magicmaze/entity.rb:310-315 | sleep drops by one and attempt_movement runs once it is negative |
| Entity.Missile.constructor | magicmaze/entity.rb:112-119 | a missile starts active, in its caster's direction, with 10 movements |
| Entity.Missile.RemoveMissile | magicmaze/entity.rb:145-149 | the tile forgets the missile, it turns inactive and its spiritual cell is cleared |
| Entity.Missile.MoveForward | magicmaze/entity.rb:34-36 | moved iff spiritual access ahead; the map and position become SpiritualStep |
| Entity.Missile.HitEntity | magicmaze/entity.rb:136-143 | only a Monster, i.e. an original-motion monster, is damaged and then only its life changes; the caster gains 10 only on :died; a killed monster leaves the missile's cell; the missile is always removed |
| Entity.Missile.ActionTick | magicmaze/entity.rb:121-134 | an inactive missile does nothing; on a blocked cell it is removed; on another entity it hits, changing only a monster's life and clearing the cell of a killed one; otherwise it spends a movement, moves, and is removed when the move fails or movements run out |
| Entity.MissileKillsMonster | magicmaze/entity.rb:121-143 | a missile of damage 4 on the cell of an original-motion monster with life 3 kills it: the caster gains 10 and the cell is left empty with a blood splat |
| Entity.AstralBody.constructor | magicmaze/entity.rb:225-229 | an astral body starts active in its caster's direction; an Eyeball has 50 movements |
| Entity.AstralBody.RemoveEntity | magicmaze/entity.rb:187-190 | its spiritual cell is cleared, it leaves the active set and turns inactive |
| Entity.AstralBody.CancelSpell | magicmaze/entity.rb:213-219 | cancelling deactivates the body |
| Entity.AstralBody.MoveForward | magicmaze/entity.rb:250-252 | one move is one spiritual step, five for the movable map (SpiritualSlide) |
| Entity.AstralBody.ActionTick | magicmaze/entity.rb:231-235 | an Eyeball's active flag and movements follow EyeStep, and it is removed below 1 movement; a live body with mana moves and uses mana; the result is whether it is still active |
| Entity.AstralBody.Steer | magicmaze/entity.rb:196-211 | a direction key faces that way and then runs action_tick |
| GameLoop.WithIntent | magicmaze/gameloop.rb:61-63 | a key sets its direction's bit and leaves the other three bits alone; pressing it twice changes nothing |
| GameLoop.CancelOpposites | magicmaze/gameloop.rb:68-72 | a fully set opposite pair is cleared; a pair with one bit set is kept |
| GameLoop.CancelBit | magicmaze/gameloop.rb:68-72 | after cancellation bit k is set exactly when it was set and its opposite was not |
| GameLoop.BitsBelowExact | magicmaze/gameloop.rb:73-78 | the bits visited by the four shifts are exactly the set bits, in ascending order |
| GameLoop.ImpulseFor | magicmaze/gameloop.rb:81-87 | the impulse is move-forward iff the player already faces that direction, otherwise a turn toward it |
| GameLoop.ImpulsesFollowBits | magicmaze/gameloop.rb:73-87 | calc_movement issues one impulse per set bit, in ascending bit order, each chosen by old_turn_and_move |
| GameLoop.ShiftStep | magicmaze/gameloop.rb:74-77 | after m shifts, bit 0 of the mask is bit m of the original |
| GameLoop.OppositeKeysCancel | magicmaze/gameloop.rb:66-72 | holding two opposite keys issues nothing on that axis; holding only north and south issues nothing |
| GameLoop.MaskRecordsKeys | magicmaze/gameloop.rb:61-63 | from the cleared mask, bit k is set after the input exactly when its key was pressed |
| GameLoop.IssuedDirections | magicmaze/gameloop.rb:61-79 | in one frame an impulse toward k is issued exactly when key k was pressed and its opposite was not |
| GameLoop.SpeedUp | magicmaze/gameloop.rb:133-136 | the delay drops by 5 exactly when it is above 10, and stays a valid delay |
| GameLoop.SlowDown | magicmaze/gameloop.rb:138-141 | the delay rises by 5 exactly when it is below 100, and stays a valid delay |
| GameLoop.DelayStaysValid | magicmaze/gameloop.rb:18 | from the initial 50, any sequence of speed keys keeps the delay a multiple of 5 in 10..100 |
| GameLoop.FrameSleep | magicmaze/gameloop.rb:232-234 | the frame sleeps iff it took less than the delay, and then for the remainder, so that the frame lasts exactly the delay |
| GameLoop.Confirmed | magicmaze/gameloop.rb:101-106 | the confirmed block runs, setting the target state, only on a yes |
| GameLoop.InputStateChange | magicmaze/gameloop.rb:108-112 | without a confirmed quit or restart the input leaves the state alone; with one the state is stopped_game or restart_level |
| GameLoop.FrameOutcome | magicmaze/gameloop.rb:223-230 | the state after a frame: a :state_change throw wins, otherwise the state the input left |
| GameLoop.FramesSnoc | magicmaze/gameloop.rb:213-236 | one more frame extends the delay, impulse and sleep records by exactly that frame's contribution |
| GameLoop.FramesKeepPacing | magicmaze/gameloop.rb:232-234 | over any series of frames the delay stays valid, every sleep is positive, and no sleep exceeds 100 ms while the clock runs forward |
| GameLoop.AfterLevel | magicmaze/gameloop.rb:260-274 | next_level advances the level and becomes endgame past the last one; restart_level and player_died restore the saved status; the driver continues exactly for next_level (within range), restart_level and player_died |
| GameLoop.Game.constructor | magicmaze/gameloop.rb:13-21 | a new game has delay 50, the given level and the given player status as the pending restart |
| GameLoop.Game.LoadMap | magicmaze/gameloop.rb:32-42 | loading records the level, hands the pending restart status to the player's reset, clears it and saves the loaded status |
| GameLoop.Game.TurnAndMove | magicmaze/gameloop.rb:61-63 | the mask becomes WithIntent |
| GameLoop.Game.OldTurnAndMove | magicmaze/gameloop.rb:81-87 | exactly one impulse, ImpulseFor, is appended |
| GameLoop.Game.CancelOppositeMoves | magicmaze/gameloop.rb:68-72 | the mask becomes CancelOpposites |
| GameLoop.Game.CalcMovement | magicmaze/gameloop.rb:65-79 | the mask ends at 0 and the impulses of the cancelled mask's set bits are appended in ascending order |
| GameLoop.Game.ReallyDo | magicmaze/gameloop.rb:101-106 | the state becomes Confirmed |
| GameLoop.Game.Escape | magicmaze/gameloop.rb:108-112 | a yes stops the game, a no changes nothing |
| GameLoop.Game.RestartLevelCommand | magicmaze/gameloop.rb:150-154 | a yes requests a restart, a no changes nothing |
| GameLoop.Game.IncreaseSpeed | magicmaze/gameloop.rb:133-136 | the delay becomes SpeedUp |
| GameLoop.Game.DecreaseSpeed | magicmaze/gameloop.rb:138-141 | the delay becomes SlowDown |
| GameLoop.Game.Dispatch | magicmaze/gameloop.rb:48-63 | one command updates the mask, the state and the delay as its handler does |
| GameLoop.Game.CheckInput | magicmaze/gameloop.rb:220 | the commands are dispatched in order |
| GameLoop.Game.PlayFrame | magicmaze/gameloop.rb:215-234 | the mask is cleared, the input is read, the impulses are issued, a throw overrides the state, and the frame sleeps as FrameSleep says |
| GameLoop.Game.PlayNextFrame | magicmaze/gameloop.rb:213-236 | one pass of the while loop extends the delay, impulse and sleep records by the frame played |
| GameLoop.Game.RunGameLoop | magicmaze/gameloop.rb:203-242 | the loop plays frames while the state is game_loop; the state returned is the outcome of the last frame played, every earlier frame kept it at game_loop; the delay, the impulses and the sleeps are those of the frames played |
| GameLoop.Game.LevelTransition | magicmaze/gameloop.rb:260-273 | the level, state and restart status become AfterLevel |
| GameLoop.Game.Start | magicmaze/gameloop.rb:245-275 | the driver plays at least one level, and stops early only after a state other than next_level, restart_level or player_died |

## Left out

- Graphics, sound, fades, messages, `puts`, `GC.start` and the `sleep 1` on death: these are output only.
- Map file loading (`FileMap`, `to_gamemap`, `purge`) and `update_checkpoint` are not part of this model. The
  loaded player status is an opaque `Checkpoint` value supplied with each level.
- `player.rb`, `movement.rb` and `map.rb` are not part of this model.
  - EntityLocation keeps a being's own position equal to the cell that holds it. The map here does not carry that
    as an invariant. Missile.HitEntity and Missile.ActionTick require it of the being they hit instead.
  - The source tells entities apart by object identity. Here beings, missiles and astral bodies share one space
    of `nat` ids, used in the active-entity set and on the spiritual layer, and the model presumes those ids are
    distinct. Missile.HitEntity and Missile.ActionTick require the hit being's id to differ from the missile's, so
    that removing the missile cannot deregister the being.
  - `add_impulse` is recorded as a `seq` of impulses.
  - `Direction` is the `Dir` datatype.
  - `allowed_access_to?` is modelled abstractly: the target is on the map, its background does not block, and
    the mover's own layer is empty there.
  - `remove_old_entity` clears the mover's layer and deregisters it from the active entities.
- Tile sprites and the sprite-id lookup are left out. They are drawing only.
- `Door` is left out. It is a plain entity with no behaviour, and appears only as a `DoorAt` occupant.
- The player's `action_tick` is left out, as is `active_entities.each_tick`, the order in which entities tick.
  Their effect on a frame arrives as `Frame.thrown`, the `:state_change` value thrown during the frame, if any.
- SDL event polling and key maps are left out. `check_input` is modelled as the sequence of commands it
  dispatches, and `get_yes_no_answer` as the `yes` flag of `Quit` and `Restart`.
- The other actions are left out: fullscreen, save, pause, volume, help, spell paging and casting, and the getters.
  They change nothing this model tracks.
- `rand(35)`, `Integer#hash` and `SDL.get_ticks` are parameters.
- `AstralBody#run`, the caster's `follow_entity` and the movable map's redraw on move are left out. They are
  input and display.
- The `@direction` nil check at entity.rb:176 is left out. The direction is always set, so the test always passes.
- The "Orig Location" message at entity.rb:359-361 is left out. It is output only. An off-map neighbour keeps its
  desire, as in the source.
- The frame loop and the level driver run over finite input sequences. They stop when the input is exhausted,
  where the game would keep polling.
- GameLoop.Game.Start: the ensures states when the driver stops and that the level never decreases. The final
  state and level are stated per level by LevelTransition and AfterLevel, not over the whole run.
