# Rocket decision layer, in Dafny

A model of the decision layer of the `Rocket` controller of a 2D rocket-lander
game (`Assets/Rocket.cs`). The script reads keyboard or touch input, applies
thrust and rotation, reacts to collisions by tag, and runs one of two level
transitions: success (load the next scene) or death (go back to scene 0).
Everything the script asks of the engine is modelled as an abstract effect
token. That covers forces, rotations, audio, particles, camera shake, `Invoke`
and scene loads. The model keeps what the script decides, and in what order.

- `Scenes.dfy` (module `Scenes`): the build-index rule of `LoadNextLevel`. The
  next index is the successor, wrapping from the last scene to 0.
- `Controls.dfy` (module `Controls`): the classification rules. Keyboard A/D
  give a rotation direction and Space gives thrust. The screen regions decide
  what a touch does: right of `Screen.width / 2` is the thrust region, between
  `width/2 - width/4` and `width/2` turns negative, left of `width/4` turns
  positive.
- `Transitions.dfy` (module `Transitions`): the handlers as pure functions.
  Each one maps a `RocketState` to the next state and the effects it issues.
  `RocketState` holds `isTouchDevice`, `isTranscending`, `collisionsDisabled`
  and the queue of `Invoke` calls still waiting. A run over a sequence of
  events (collision, frame, delayed call due) is a fold of these handlers.
- `TransitionProperties.dfy` (module `TransitionProperties`): what the gate
  promises. It covers the collision outcomes, `Update` gating, the debug keys,
  the touch loops, and, over whole runs, that at most one transition sequence
  ever starts.
- `RocketBehaviour.dfy` (module `RocketBehaviour`): class `Rocket`. Its fields
  are updated in place by methods named after the script's own. Each method is
  proved against the matching `Transitions` function. Its new fields are that
  function's next state, and its engine calls are appended to the ghost log
  `effects`. The two touch handlers keep the source's `foreach` as a `for`
  loop. `FinishRun` is a small client that uses only the method contracts.

Modelling decisions:

- `Invoke(name, loadLevelDelay)` appends to a queue `pending`. The event
  `InvokeDue` fires the oldest entry. Every call uses the same delay, so calls
  fire in the order they were made. The invariant `Consistent` says the queue
  is empty before a sequence starts and holds at most one call after.
- Touch x is a `real`. `Screen.width` is a `nat`: a screen width is never
  negative, and for non-negative operands C#'s truncating `/` agrees with
  Dafny's.
- A touch in the thrust region whose phase is `Canceled` applies thrust, and
  only `Ended` stops it. This follows the source's `phase != TouchPhase.Ended`.
- These engine queries are parameters: `SystemInfo.deviceType` (constructor),
  `Debug.isDebugBuild`, `Screen.width`, the active scene's build index,
  `sceneCountInBuildSettings`, and the keys and touches of a frame.
- The gate might be read as "one transition at a time". Nothing resets
  `isTranscending`, so at most one sequence starts in the rocket's lifetime.

## Model

| member | source | states |
|---|---|---|
| `Scenes.NextSceneIndex` | Assets/Rocket.cs:112-123 | for an active index inside the build settings the next index is inside them too; the next index is always 0 or the successor |
| `Scenes.NextSceneIndexIsSuccessor` | Assets/Rocket.cs:112-123 | inside the build settings the rule is the successor modulo the scene count |
| `Scenes.NextSceneIndexWraps` | Assets/Rocket.cs:117-120 | the result is 0 exactly when the active scene is the last one (or the index is -1) |
| `Scenes.AdvanceScenesWithinPass` | Assets/Rocket.cs:112-123 | up to `count` successive loads climb one scene per load and wrap past the last scene once |
| `Scenes.AdvanceScenesCycle` | Assets/Rocket.cs:112-123 | from any scene, fewer than `count` next-level loads reach every scene of the build settings, and the index returns to the start after exactly `count` loads and no sooner |
| `Controls.KeyThrust` | Assets/Rocket.cs:130-140 | Space held means thrust and Space released means stop; the keyboard always does one of the two |
| `Controls.KeyboardTurn` | Assets/Rocket.cs:182-189 | A alone turns positive, D alone turns negative, and both keys or neither give no turn (each as an if-and-only-if) |
| `Controls.KeyboardTurnMirror` | Assets/Rocket.cs:182-189 | swapping A and D reverses the turn |
| `Controls.TouchThrust` | Assets/Rocket.cs:146-155 | a touch acts on thrust exactly when it is right of `width/2`, and stops thrust exactly when it is also `Ended` |
| `Controls.QuarterBelowHalf` | Assets/Rocket.cs:199-203 | under integer division `width/4 <= width/2 - width/4` |
| `Controls.ZonesDisjoint` | Assets/Rocket.cs:142-208 | the thrust, negative-turn and positive-turn regions pairwise never overlap |
| `Controls.TouchTurnZones` | Assets/Rocket.cs:199-206 | a touch turns negative exactly in the negative region and positive exactly in the positive region; a thrust touch never turns |
| `Controls.AtMostOneTouchAction` | Assets/Rocket.cs:142-208 | each touch triggers at most one of thrust or a turn |
| `Transitions.Initial` | Assets/Rocket.cs:22-31 | a new rocket is a touch device exactly on a handheld, with no sequence running, collisions enabled and nothing scheduled |
| `Transitions.ThrustEffects` | Assets/Rocket.cs:160-174 | thrusting and stopping hand nothing to `Invoke` |
| `Transitions.ThrustEffectsJet` | Assets/Rocket.cs:160-174 | `ApplyThrusting` leaves the jet playing, `StopApplyingThrust` leaves it stopped, and a touch outside the region leaves it as it was |
| `Transitions.TurnEffects` | Assets/Rocket.cs:182-189 | one rotation decision rotates at most once and schedules nothing |
| `Transitions.DebugKeys` | Assets/Rocket.cs:59-70 | C flips `collisionsDisabled` and nothing else of the state changes; the output is the one next-scene load exactly when L is pressed, and empty otherwise |
| `Transitions.SuccessSequence` | Assets/Rocket.cs:93-100 | sets `isTranscending` and queues load-next, with exactly one `Invoke` |
| `Transitions.DeathSequence` | Assets/Rocket.cs:102-110 | sets `isTranscending` and queues load-first, with exactly one `Invoke` |
| `Transitions.Collide` | Assets/Rocket.cs:72-91 | afterwards a sequence runs exactly when one already ran or an enabled collision had a tag other than "Friendly"; the collision gate is left alone |
| `Transitions.InvokeFires` | Assets/Rocket.cs:112-128 | with nothing queued nothing happens; otherwise the oldest call is dequeued and exactly one scene load is issued: of `NextSceneIndex` for a queued load-next, of scene 0 for a queued load-first |
| `TransitionProperties.CollisionGate` | Assets/Rocket.cs:74 | a collision while `isTranscending` or `collisionsDisabled` changes no state and issues nothing |
| `TransitionProperties.CollisionNoOpIff` | Assets/Rocket.cs:74-89 | a collision is a no-op exactly when it is gated or tagged "Friendly" |
| `TransitionProperties.CollisionOutcomes` | Assets/Rocket.cs:76-110 | an enabled collision tagged "Finish" starts the success sequence and queues load-next; any other non-"Friendly" tag starts the death sequence (camera shake) and queues load-first |
| `TransitionProperties.SequenceLoadsTarget` | Assets/Rocket.cs:99-128 | the queued call loads the next scene after "Finish" and scene 0 after a death, whatever frames and collisions come in between |
| `TransitionProperties.PendingKept` | Assets/Rocket.cs:74 | once a sequence runs, frames and collisions neither clear `isTranscending`, touch the queue nor schedule anything |
| `TransitionProperties.TouchThrustSchedulesNothing` | Assets/Rocket.cs:142-158 | the touch thrust loop hands nothing to `Invoke` |
| `TransitionProperties.TouchTurnSchedulesNothing` | Assets/Rocket.cs:191-208 | the touch rotate loop hands nothing to `Invoke` |
| `TransitionProperties.FlightSchedulesNothing` | Assets/Rocket.cs:39-51 | flight input on either kind of device hands nothing to `Invoke` |
| `TransitionProperties.GatedEventSchedulesNothing` | Assets/Rocket.cs:37-91 | while a sequence runs, no frame or collision schedules anything or changes the queue |
| `TransitionProperties.UpdateGating` | Assets/Rocket.cs:39-56 | while a sequence runs, a frame does no thrust or rotate handling; only debug keys act, and at most by loading a scene |
| `TransitionProperties.UpdateZeroesSpin` | Assets/Rocket.cs:178-193 | when no sequence runs, every frame zeroes the angular velocity on either kind of device |
| `TransitionProperties.KeyboardFrameTurns` | Assets/Rocket.cs:48-49 | when no sequence runs, on a keyboard device a frame rotates positive exactly when A is held alone and negative exactly when D is held alone |
| `TransitionProperties.KeyboardFrameJet` | Assets/Rocket.cs:130-140 | when no sequence runs, on a keyboard device the jet is playing after a frame exactly when Space is held |
| `TransitionProperties.JetUntouched` | Assets/Rocket.cs:160-174 | effects that do not name the jet leave it as it was |
| `TransitionProperties.TouchThrustLastWins` | Assets/Rocket.cs:142-158 | later touches override earlier ones: the jet ends as the last touch in the thrust region left it, or unchanged when no touch is in the region |
| `TransitionProperties.TouchTurnsCounted` | Assets/Rocket.cs:197-207 | the rotate loop issues only rotations, exactly one for each touch in a rotate region |
| `TransitionProperties.TouchTurnsByZone` | Assets/Rocket.cs:197-207 | the rotate loop turns in a direction exactly when some touch lies in that direction's region |
| `TransitionProperties.TouchThrustTurnsNothing` | Assets/Rocket.cs:142-158 | the thrust loop never rotates the rocket |
| `TransitionProperties.TouchFrameJetIsThrustJet` | Assets/Rocket.cs:41-45 | on a touch device with no sequence running, only the thrust loop of a frame acts on the jet |
| `TransitionProperties.TouchFrameJet` | Assets/Rocket.cs:41-45 | when no sequence runs, on a touch device the jet after a frame is as the last touch in the thrust region left it (playing unless that touch has `Ended`), or unchanged when no touch is in the region |
| `TransitionProperties.TouchFrameTurns` | Assets/Rocket.cs:41-45 | when no sequence runs, on a touch device a frame turns negative exactly when some touch is in the negative region and positive exactly when some touch is in the positive region |
| `TransitionProperties.TouchTurnsAccumulate` | Assets/Rocket.cs:197-207 | the turns of a batch of touches are those of its parts, concatenated |
| `TransitionProperties.FlightLoadsNothing` | Assets/Rocket.cs:39-51 | thrust and rotate handling on either kind of device never load a scene |
| `TransitionProperties.DebugKeysAlwaysRun` | Assets/Rocket.cs:53-70 | in a debug build C flips the gate and L loads the next scene whatever `isTranscending` is; a frame loads a scene exactly when it is a debug build and L is pressed |
| `TransitionProperties.ReleaseBuildLoadsNothing` | Assets/Rocket.cs:53-56 | outside a debug build a frame never loads a scene and never changes the state |
| `TransitionProperties.TouchEffectsLoadNothing` | Assets/Rocket.cs:142-208 | the touch loops never load a scene |
| `TransitionProperties.DebugToggleTwice` | Assets/Rocket.cs:66-69 | two frames with C pressed in a debug build restore the state |
| `TransitionProperties.ApplyKeepsGate` | Assets/Rocket.cs:72-128 | one event keeps `Consistent`, never clears `isTranscending`, and schedules exactly once when it starts a sequence and otherwise never |
| `TransitionProperties.RunKeepsGate` | Assets/Rocket.cs:72-128 | over any sequence of events the same holds: `isTranscending` is never reset and `Invoke` is called once if the run starts a sequence, otherwise never |
| `TransitionProperties.DeviceKept` | Assets/Rocket.cs:28-31 | `isTouchDevice` is set once in `Start`; no run of events changes it |
| `TransitionProperties.AtMostOneSequence` | Assets/Rocket.cs:74-110 | from a new rocket, whatever happens, at most one transition sequence starts and at most one `Invoke` is ever waiting |
| `RocketBehaviour.Rocket.constructor` | Assets/Rocket.cs:22-35 | the fields start as `Initial` says, the invariant holds and nothing has been issued |
| `RocketBehaviour.Rocket.Update` | Assets/Rocket.cs:37-57 | the new fields and issued effects are those of `Frame`; the invariant is kept |
| `RocketBehaviour.Rocket.RespondToDebugKeys` | Assets/Rocket.cs:59-70 | the new fields and issued effects are those of `DebugKeys` |
| `RocketBehaviour.Rocket.OnCollisionEnter` | Assets/Rocket.cs:72-91 | the new fields and issued effects are those of `Collide`; the invariant is kept |
| `RocketBehaviour.Rocket.StartSuccesSequence` | Assets/Rocket.cs:93-100 | the new fields and issued effects are those of `SuccessSequence` |
| `RocketBehaviour.Rocket.StartDeathSequence` | Assets/Rocket.cs:102-110 | the new fields and issued effects are those of `DeathSequence` |
| `RocketBehaviour.Rocket.InvokeDue` | Assets/Rocket.cs:99-128 | the oldest queued call fires as `InvokeFires` says; the invariant is kept |
| `RocketBehaviour.Rocket.LoadNextLevel` | Assets/Rocket.cs:112-123 | issues one scene load of `NextSceneIndex` and changes no flag |
| `RocketBehaviour.Rocket.LoadFirstLevel` | Assets/Rocket.cs:125-128 | issues one load of scene 0 and changes no flag |
| `RocketBehaviour.Rocket.RespondToThrustInput` | Assets/Rocket.cs:130-140 | issues thrust or stop as `KeyThrust` decides and changes no flag |
| `RocketBehaviour.Rocket.RespondToTouchThrustInput` | Assets/Rocket.cs:142-158 | the loop issues, touch by touch, the effects of `TouchThrustEffects` and changes no flag |
| `RocketBehaviour.Rocket.StopApplyingThrust` | Assets/Rocket.cs:160-164 | stops the audio and the jet |
| `RocketBehaviour.Rocket.ApplyThrusting` | Assets/Rocket.cs:166-174 | adds force, starts the engine sound if silent and plays the jet |
| `RocketBehaviour.Rocket.RespondToRotateInput` | Assets/Rocket.cs:176-190 | zeroes the angular velocity, then rotates as `KeyboardTurn` decides |
| `RocketBehaviour.Rocket.RespondToTouchRotateInput` | Assets/Rocket.cs:191-208 | zeroes the angular velocity, then the loop issues one rotation per touch in a rotate region |

## Left out

- Physics and float numerics: force magnitudes (`mainThrust`, `rcsThrust`), `Time.deltaTime` scaling, `transform.Rotate` angles and `angularVelocity` values. A rotation is modelled only by its direction, and zeroing the angular velocity only as an effect.
- Engine state behind the effects: whether the audio source is playing (so `ApplyThrusting` issues one `PlayUnlessPlaying` token), particle and audio internals, and the camera-shake magnitudes.
- Timing: the wall-clock `loadLevelDelay` of `Invoke`. Only the order of the queued calls is modelled; when a call comes due is an input event.
- Scene loading: the model records `LoadScene(index)` but does not destroy and recreate the rocket. Later events in a run still reach the same object.
- Engine queries (`SystemInfo.deviceType`, `Debug.isDebugBuild`, `Screen.width`, `SceneManager` queries, `Input`) are parameters. `GetComponent` wiring in `Start` has no logic to model.
- `RocketBehaviour.FinishRun` is a client example without a contract; it has no row.
- The helper lemmas `Transitions.SeqAssoc`, `Transitions.SchedulesConcat`, `Transitions.JetOnConcat`, `Transitions.FrameInDebugBuild` and `Transitions.FrameInReleaseBuild` are proof steps and have no row.
- Integer width: build indices are unbounded integers. In C# `currentSceneIndex + 1` would wrap at `int.MaxValue`, which no build index reaches, so `Scenes.NextSceneIndex` and `Rocket.LoadNextLevel` do not model the wrap-around.

## Definitions specified by lemmas

These definitions model the source but carry no contract of their own; the lemmas named after each specify them.

- `Controls.TouchTurn` (Assets/Rocket.cs:199-206) is specified by `TouchTurnZones`, `AtMostOneTouchAction` and `TouchTurnsByZone`.
- `Controls.InThrustZone`, `Controls.InNegativeTurnZone` and `Controls.InPositiveTurnZone` (Assets/Rocket.cs:146, 199, 203) are specified by `ZonesDisjoint`, `TouchThrust` and `TouchTurnZones`; `Controls.InTurnZone` names the region of a turn direction.
- `Transitions.Frame` (Assets/Rocket.cs:37-57) is specified by `UpdateGating`, `UpdateZeroesSpin`, `KeyboardFrameTurns`, `KeyboardFrameJet`, `TouchFrameJet`, `TouchFrameTurns`, `DebugKeysAlwaysRun`, `ReleaseBuildLoadsNothing`, `DebugToggleTwice` and `Rocket.Update`.
- `Transitions.FlightEffects` (Assets/Rocket.cs:41-50) is specified by `FlightSchedulesNothing`, `FlightLoadsNothing`, `UpdateZeroesSpin`, `KeyboardFrameTurns`, `KeyboardFrameJet`, `TouchFrameJet` and `TouchFrameTurns`.
- `Transitions.TouchThrustEffects` (Assets/Rocket.cs:144-157) is specified by `TouchThrustSchedulesNothing`, `TouchThrustLastWins`, `TouchThrustTurnsNothing`, `TouchEffectsLoadNothing` and `Rocket.RespondToTouchThrustInput`.
- `Transitions.TouchTurnEffects` (Assets/Rocket.cs:197-207) is specified by `TouchTurnSchedulesNothing`, `TouchTurnsCounted`, `TouchTurnsByZone`, `TouchTurnsAccumulate`, `TouchEffectsLoadNothing` and `Rocket.RespondToTouchRotateInput`.
- `Transitions.ApplyThrustingEffects` and `Transitions.StopThrustEffects` (Assets/Rocket.cs:160-174) are specified by `ThrustEffects` and `ThrustEffectsJet`.
- `Transitions.LoadNextLevelEffects` (Assets/Rocket.cs:112-123) is specified by `InvokeFires`, `DebugKeys`, `DebugKeysAlwaysRun` and `Rocket.LoadNextLevel`, with its index given by `Scenes.NextSceneIndex`.
- `Transitions.Apply` and `Transitions.Run`, the fold of the handlers over a sequence of events, are specified by `ApplyKeepsGate`, `RunKeepsGate`, `PendingKept`, `SequenceLoadsTarget`, `DeviceKept` and `AtMostOneSequence`.
- `Scenes.AdvanceScenes` (repeated `LoadNextLevel`) and `Scenes.ReachedWithinPass` are specified by `AdvanceScenesWithinPass` and `AdvanceScenesCycle`.
- `TransitionProperties.RotateZoneTouches` counts the touches in a rotate region, for `TouchTurnsCounted`.
