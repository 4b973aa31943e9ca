# Ecosystem agents in Dafny

This project models the four per-frame controllers of a small 2D ecosystem game and proves properties of them:

- **PredatorController.** It rests, hunts the nearest prey and kills it when in range. After `killsToDie` kills it enters an absorbing Dying state, shrinks and disappears.
- **FireflyController.** It wanders, and every `flashInterval` seconds a one-in-three roll makes it blink. The blink is the `BlinkAndMaybeDie` coroutine. The `maxFlashes`-th completed blink destroys the firefly. Between blinks it chases the nearest hunting predator within `attractRadius`.
- **PreyController.** It shrinks linearly down to a death floor. Touching another prey starts a guarded pulse (the `CoPulse` coroutine), which swells the prey and lets it settle a little larger. Reaching the floor starts the non-reentrant death sequence (`CoDieExplosion`): a pop, a fade, then destruction. The sprite colour follows the scale.
- **GameManager.** At `Start` it spawns a fixed number of each species. Afterwards it runs three independent countdown timers, one per species.

Each controller has two modules. A pure module (`PredatorSpec`, `FireflySpec`, `PreySpec`, `SpawnerSpec`) states every operation as a function on a snapshot of the controller's fields, together with a `Run` over a sequence of host events and lemmas about whole runs. An imperative module (`Predator`, `Firefly`, `Prey`, `Spawner`) holds a class with the source's fields, and each method is proved to update those fields as the corresponding function says (`ensures View() == XSpec.F(cfg, old(View()), …)`). What is proved of the functions therefore holds of the objects.

Two modules are shared:

- `Engine` holds the engine arithmetic: `Mathf.Lerp`, `Mathf.InverseLerp`, `Mathf.Clamp01`, `Random.Range` on a given uniform draw, and the `Vector2.right` fallback.
- `Scan` holds the running-minimum "first nearest" loop that both `PickTarget` methods use.

The engine services become inputs:

- The frame time `dt`.
- The random draws (`DirectionDraw`, the blink `roll`, and a stream of `PositionDraw`s for spawning).
- The result of `FindObjectsByType`, as a sequence of sightings with a liveness flag and a distance.
- The trigger contact, as an enum tag.

`Destroy` becomes a `destroyed` flag; the host stops calling a destroyed object, so its methods require it alive. `Instantiate` appends to a list of placements. A coroutine becomes a phase record: the stage at which it is suspended, with its loop variable or the wait left. Starting a coroutine runs its first step at once with the same frame time, as `StartCoroutine` runs a coroutine up to its first `yield`.

## Model

| member | source | states |
|---|---|---|
| Engine.UsableDirection | Assets/Scripts/PreyController.cs:120-122 | the direction kept is never shorter than the 0.001 squared-length threshold; a too-short draw becomes (1, 0), a usable one is kept |
| Engine.NegKeepsSqrMagnitude | Assets/Scripts/PreyController.cs:142 | reversing a direction keeps its length, so a bounce never makes the direction unusable |
| Engine.Clamp01 | Assets/Scripts/PreyController.cs:223 | the result lies in [0, 1], equals the input inside it, and is 0 or 1 outside |
| Engine.Lerp | Assets/Scripts/PreyController.cs:187 | the clamped interpolation gives `a` at or before 0, `b` at or after 1, and always lies between `a` and `b` |
| Engine.LerpMonotone | Assets/Scripts/PreyController.cs:204 | a later parameter moves the interpolation further towards `b`, in both directions |
| Engine.InverseLerp | Assets/Scripts/PreyController.cs:222 | the result lies in [0, 1]; it is 0 for equal bounds and at or below `a`, and 1 at or above `b` |
| Engine.LerpUndoesInverseLerp | Assets/Scripts/PreyController.cs:222-225 | between the bounds, interpolating at the inverse-interpolated value gives back the value |
| Engine.InverseLerpMonotone | Assets/Scripts/PreyController.cs:222 | the inverse interpolation never decreases as the value grows |
| Engine.Progress | Assets/Scripts/PreyController.cs:184-185 | the loop fraction `t / duration` is at least 1 once `t` reaches the duration, is not negative for non-negative `t`, and is 1 when the duration is not positive |
| Engine.ProgressMonotone | Assets/Scripts/PreyController.cs:184-185 | the loop fraction never decreases as `t` grows |
| Engine.RandomRange | Assets/Scripts/PreyController.cs:124 | the drawn value lies between the two bounds in either order, and is `lo + (hi - lo) * u` for a draw `u` in [0, 1] |
| Scan.FirstNearest | Assets/Scripts/PredatorController.cs:88-100 | the running-minimum loop returns nothing exactly when no entry is eligible; otherwise it returns an eligible entry that is no farther than any eligible entry and strictly nearer than every eligible entry before it |
| Scan.NearestIsFirstNearest | Assets/Scripts/PredatorController.cs:91-100 | the recursive reference definition of the scan has the same first-nearest property, in both directions |
| Scan.FirstNearestUnique | Assets/Scripts/PredatorController.cs:95 | because a tie does not replace the current best, at most one entry is the first nearest |
| PredatorSpec.Awake | Assets/Scripts/PredatorController.cs:33-41 | the state after Awake satisfies the invariant: kills within the quota, Dying exactly at the quota, destroyed only when Dying |
| PredatorSpec.PreyCandidates | Assets/Scripts/PredatorController.cs:91-94 | each prey of the lookup becomes a candidate that is eligible exactly when it still exists, at its distance |
| PredatorSpec.PickTarget | Assets/Scripts/PredatorController.cs:79-110 | the target is nothing exactly when no prey exists; otherwise it is an existing prey at minimal distance, strictly nearer than every existing prey before it |
| PredatorSpec.DistanceAfterStep | Assets/Scripts/PredatorController.cs:121-124 | a step of length `s` towards a target at distance `d` leaves a distance within `[d - s, d + s]`, exactly `d - s` when the step does not overshoot, and 0 when already on the target |
| PredatorSpec.DistanceAfterMove | Assets/Scripts/PredatorController.cs:120-124 | after the frame's step of `moveSpeed * dt` towards the target, the distance lies within that step of the old distance, and is exactly the old distance less the step when the step does not overshoot |
| PredatorSpec.UpdateRest | Assets/Scripts/PredatorController.cs:61-77 | the predator starts hunting exactly when its rest timer ran out and the scan found a prey, which becomes the target; a timer that ran out with no prey found is reset to `restDuration` |
| PredatorSpec.KillTarget | Assets/Scripts/PredatorController.cs:131-149 | a kill raises `kills` by exactly one and clears the target; the predator is Dying exactly when `kills >= killsToDie`, and otherwise rests again for `restDuration` |
| PredatorSpec.GoRestAgain | Assets/Scripts/PredatorController.cs:151-155 | the predator rests for a full `restDuration`, keeping its kills, target, scale and liveness; a reachable predator that is not Dying stays reachable |
| PredatorSpec.UpdateHunt | Assets/Scripts/PredatorController.cs:112-129 | a lost target sends the predator back to rest; a kill happens exactly when the post-move distance is at most `attackRange`, otherwise nothing changes |
| PredatorSpec.UpdateDying | Assets/Scripts/PredatorController.cs:157-167 | dying lowers the scale by exactly `shrinkSpeed * dt` and changes nothing else, so the scale never grows for a non-negative speed and frame; the predator is destroyed exactly when the scale reaches 0.05 or below |
| PredatorSpec.Update | Assets/Scripts/PredatorController.cs:43-59 | a frame keeps the invariant, keeps Dying with the kill count, adds at most one kill and only in Hunt, hunts only an existing prey, and destroys only a Dying predator at the vanishing scale |
| PredatorSpec.RunKeepsInv | Assets/Scripts/PredatorController.cs:43-59 | every run of frames from a reachable state keeps the kill count within the quota and Dying exactly at the quota |
| PredatorSpec.DyingIsAbsorbing | Assets/Scripts/PredatorController.cs:157-167 | once Dying, no run of frames leaves Dying or changes the kill count |
| PredatorSpec.KillsNeverDecrease | Assets/Scripts/PredatorController.cs:138 | over a run the kill count never decreases and grows by at most one per frame |
| PredatorSpec.SecondKillEndsTheHunt | Assets/Scripts/PredatorController.cs:141-148 | with the default settings a predator never kills more than twice, is Dying exactly after its second kill, and hunts no more after it |
| Predator.PredatorController.Awake | Assets/Scripts/PredatorController.cs:33-41 | the constructed object is the Awake state: Rest, `restTimer == restDuration`, scale 0.7, no kills |
| Predator.PredatorController.Update | Assets/Scripts/PredatorController.cs:43-59 | the fields change as PredatorSpec.Update says, and the index of the prey destroyed by a kill is returned exactly when `kills` grew |
| Predator.PredatorController.UpdateRest | Assets/Scripts/PredatorController.cs:61-77 | the fields change as PredatorSpec.UpdateRest says |
| Predator.PredatorController.PickTarget | Assets/Scripts/PredatorController.cs:79-110 | the running-minimum loop sets the target PredatorSpec.PickTarget names |
| Predator.PredatorController.UpdateHunt | Assets/Scripts/PredatorController.cs:112-129 | the fields change as PredatorSpec.UpdateHunt says, and the killed prey is the old target, which existed |
| Predator.PredatorController.KillTarget | Assets/Scripts/PredatorController.cs:131-149 | the fields change as PredatorSpec.KillTarget says, and the destroyed prey is the old target |
| Predator.PredatorController.GoRestAgain | Assets/Scripts/PredatorController.cs:151-155 | the predator rests again with a full rest timer |
| Predator.PredatorController.UpdateDying | Assets/Scripts/PredatorController.cs:157-167 | the fields change as PredatorSpec.UpdateDying says |
| FireflySpec.PickNewDirection | Assets/Scripts/FireflyController.cs:98-105 | a usable direction and a direction timer within `dirChangeRange`; nothing else changes |
| FireflySpec.Start | Assets/Scripts/FireflyController.cs:38-46 | the firefly starts reachable, wandering, with the normal colour, `flashTimer == flashInterval` and no flashes |
| FireflySpec.PredatorCandidates | Assets/Scripts/FireflyController.cs:172-179 | each predator is a candidate that is eligible exactly when it exists, hunts, and is within `attractRadius` |
| FireflySpec.PickTarget | Assets/Scripts/FireflyController.cs:162-190 | the target is nothing exactly when no predator qualifies; otherwise it is a qualifying predator at minimal distance, strictly nearer than every qualifying predator before it |
| FireflySpec.UpdateWander | Assets/Scripts/FireflyController.cs:67-96 | a blink starts exactly on a roll of 1 once the flash timer ran out and no blink runs, ending the tick; a timer that ran out with no blink running and no blink started is reset to `flashInterval`; without a blink the firefly chases exactly when the scan found a target; otherwise the flash timer counts down by `dt`; the direction timer counts down by `dt` keeping the direction, and once it runs out direction and timer are those PickNewDirection draws |
| FireflySpec.FlashTick | Assets/Scripts/FireflyController.cs:75-95 | the flash timer counts down by `dt`, unless it ran out with no blink running and the roll is not 1, when it is reset to `flashInterval`; a roll of 1 then starts the blink; without a blink the target is the scan's and the firefly chases exactly when there is one; direction, flash count and liveness are untouched |
| FireflySpec.ScanForPredator | Assets/Scripts/FireflyController.cs:90-95 | the target is the one PickTarget names, and the firefly switches to Chase exactly when there is one, keeping its state otherwise; nothing else changes |
| FireflySpec.StartBlink | Assets/Scripts/FireflyController.cs:107-115 | the blink up to its first wait: the firefly is flashing, in Flash and lit, at the first 0.1-second wait of the first round; nothing else changes |
| FireflySpec.UpdateChase | Assets/Scripts/FireflyController.cs:134-159 | a missing target only returns to Wander; a target that stopped hunting or moved beyond `attractRadius` is dropped and the firefly wanders; otherwise nothing changes |
| FireflySpec.Update | Assets/Scripts/FireflyController.cs:48-65 | Flash frames change nothing; no frame changes the flash count or destroys; a blink starts only from Wander with no blink running; Chase is entered and kept exactly as the scan and the chase checks say; the invariant is kept |
| FireflySpec.FinishBlink | Assets/Scripts/FireflyController.cs:120-130 | a completed blink adds exactly one flash and resets `flashTimer`; it destroys exactly when `flashCount >= maxFlashes`, and otherwise clears `flashingNow` and wanders |
| FireflySpec.BlinkStep | Assets/Scripts/FireflyController.cs:107-131 | resuming the blink adds at most one flash, exactly when its fourth 0.1-second wait ends, and keeps the invariant |
| FireflySpec.OnTriggerEnter2D | Assets/Scripts/FireflyController.cs:193-200 | only a boundary wall changes anything: the direction is reversed and its timer re-rolled within `dirChangeRange` |
| FireflySpec.RunKeepsInv | Assets/Scripts/FireflyController.cs:107-131 | every run of frames, blink resumptions and contacts keeps a reachable firefly reachable: a usable direction, Flash exactly while `flashingNow`, a blink running exactly while flashing and alive, a flash count within the quota and destroyed exactly at the quota |
| FireflySpec.FlashCountNeverDecreases | Assets/Scripts/FireflyController.cs:120 | over any run the flash count never decreases |
| FireflySpec.ThirdFlashDestroys | Assets/Scripts/FireflyController.cs:120-127 | with the default settings a firefly flashes at most three times and is destroyed exactly at its third flash |
| Firefly.FireflyController.Start | Assets/Scripts/FireflyController.cs:38-46 | the constructed object is the Start state, which is reachable |
| Firefly.FireflyController.Update | Assets/Scripts/FireflyController.cs:48-65 | the fields change as FireflySpec.Update says; it reports a move towards the predator exactly when a chasing firefly keeps chasing from beyond `followDist` |
| Firefly.FireflyController.UpdateWander | Assets/Scripts/FireflyController.cs:67-96 | the fields change as FireflySpec.UpdateWander says |
| Firefly.FireflyController.FlashTick | Assets/Scripts/FireflyController.cs:75-95 | the flash timer, its roll and the scan change the fields as the second half of FireflySpec.UpdateWander says |
| Firefly.FireflyController.PickNewDirection | Assets/Scripts/FireflyController.cs:98-105 | the fields change as FireflySpec.PickNewDirection says |
| Firefly.FireflyController.StartBlink | Assets/Scripts/FireflyController.cs:107-115 | the blink coroutine up to its first wait: flashing, in Flash, with the flash colour |
| Firefly.FireflyController.ResumeBlink | Assets/Scripts/FireflyController.cs:112-131 | the fields change as FireflySpec.BlinkStep says |
| Firefly.FireflyController.UpdateChase | Assets/Scripts/FireflyController.cs:134-159 | the fields change as FireflySpec.UpdateChase says, and the move is reported exactly when the target is kept from beyond `followDist` |
| Firefly.FireflyController.PickTarget | Assets/Scripts/FireflyController.cs:162-190 | the running-minimum loop sets the target FireflySpec.PickTarget names |
| Firefly.FireflyController.OnTriggerEnter2D | Assets/Scripts/FireflyController.cs:193-200 | the fields change as FireflySpec.OnTriggerEnter2D says |
| PreySpec.LifeFraction | Assets/Scripts/PreyController.cs:222-223 | the life fraction lies in [0, 1]; when the floor is below the start scale it is 0 at or below the floor and 1 at or above the start scale |
| PreySpec.LifeFractionMonotone | Assets/Scripts/PreyController.cs:222-223 | a larger prey never looks less alive |
| PreySpec.LifeFractionDeterminesScale | Assets/Scripts/PreyController.cs:222-225 | between the floor and the start scale, the colour determines the scale |
| PreySpec.UpdateColorFromScale | Assets/Scripts/PreyController.cs:220-240 | only the colour changes: the life fraction follows the scale, and the opacity is forced to 1 unless dying, when it is kept |
| PreySpec.PickNewDirection | Assets/Scripts/PreyController.cs:118-125 | a usable direction and a direction timer within `dirDurationRange`; nothing else changes |
| PreySpec.Awake | Assets/Scripts/PreyController.cs:52-67 | the prey starts wandering at `startScale`, opaque, with no cooldown and no coroutine, and (under sane settings) reachable |
| PreySpec.UpdateWander | Assets/Scripts/PreyController.cs:98-116 | the scale drops by `shrinkRatePerSecond * dt` but never below the death floor; only scale, direction and timer change, and a usable direction stays usable; the direction timer counts down by `dt` keeping the direction, and once it runs out direction and timer are those PickNewDirection draws |
| PreySpec.Resize | Assets/Scripts/PreyController.cs:187-190 | the scale is set and the colour follows it: the life fraction is that of the new scale, the opacity is forced to 1 unless dying; nothing else changes |
| PreySpec.FinishPulse | Assets/Scripts/PreyController.cs:211-217 | the end of a pulse: the scale is the settle scale, the cooldown is `pulseCooldownDuration`, and the prey wanders with no pulse running |
| PreySpec.FallFrom | Assets/Scripts/PreyController.cs:198-217 | while the pulse goes on, a falling step keeps its start, peak and settle scales and is at loop time `t + dt` |
| PreySpec.PulseStep | Assets/Scripts/PreyController.cs:172-218 | a pulse resumption touches neither death, direction nor timer; the rise ends at exactly the peak; a finished pulse leaves the settle scale, the full cooldown, and Wander |
| PreySpec.NewPulse | Assets/Scripts/PreyController.cs:177-179 | a pulse starts rising at the current scale and settles `pulseScaleBoost` above it; with a multiplier of at least 1 its peak is not below its start |
| PreySpec.StartedPulse | Assets/Scripts/PreyController.cs:174-179 | the prey is in Pulse with its pulsing flag set and a pulse rising from its current scale; nothing else changes |
| PreySpec.TryPulse | Assets/Scripts/PreyController.cs:163-179 | nothing happens while Dying, pulsing or cooling down; otherwise a pulse starts from the current scale, aimed at that scale times `pulseMaxScaleMultiplier`, to settle at that scale plus `pulseScaleBoost` |
| PreySpec.FadeFrom | Assets/Scripts/PreyController.cs:268-287 | a fade step holds the popped scale while the opacity follows `Lerp(1, 0, t / deathFadeDuration)`; the prey is destroyed only once the fade time is used up |
| PreySpec.DeathStep | Assets/Scripts/PreyController.cs:249-288 | a death resumption keeps the state, the pulse, the cooldown and the direction, and keeps the sequence's start and popped scales |
| PreySpec.NewDeath | Assets/Scripts/PreyController.cs:252-253 | the pop starts at the current scale and, with a multiplier of at least 1, does not shrink it |
| PreySpec.StartedDeath | Assets/Scripts/PreyController.cs:245-253 | the prey is Dying with its dying flag set and a pop starting from its current scale; nothing else changes |
| PreySpec.EnterDyingState | Assets/Scripts/PreyController.cs:242-253 | nothing happens once the death sequence runs; otherwise the prey is Dying and the sequence starts from the current scale, popping to that scale times `deathPopScaleMultiplier` |
| PreySpec.Update | Assets/Scripts/PreyController.cs:69-96 | the cooldown counts down only while positive; Dying is kept; a wandering prey stays wandering exactly when the shrunk scale is above the floor, and otherwise starts a death sequence from a scale at or below the floor; only a Dying prey is destroyed; the colour follows the scale |
| PreySpec.HandleTrigger | Assets/Scripts/PreyController.cs:138-161 | a wall reverses the direction and re-rolls its timer and never pulses; another prey calls TryPulse; the prey's own body and anything else are ignored |
| PreySpec.StayIsLikeEnter | Assets/Scripts/PreyController.cs:127-135 | staying in contact is handled exactly like entering it |
| PreySpec.RecolorMakesInv | Assets/Scripts/PreyController.cs:220-240 | recolouring a consistent prey makes its colour match its scale |
| PreySpec.PeakNotBelowStart | Assets/Scripts/PreyController.cs:178 | with a multiplier of at least 1, the pulse peak is not below the scale it starts from |
| PreySpec.ResizeInPulseKeepsInv | Assets/Scripts/PreyController.cs:187-195 | a rising or falling step, or the hold, keeps the invariant |
| PreySpec.FinishPulseKeepsInv | Assets/Scripts/PreyController.cs:211-217 | the end of a pulse keeps the invariant: the settle scale is above the floor, so the prey may wander |
| PreySpec.FallFromKeepsInv | Assets/Scripts/PreyController.cs:198-217 | a falling step keeps the invariant |
| PreySpec.PulseStepKeepsInv | Assets/Scripts/PreyController.cs:172-218 | every pulse resumption keeps the invariant |
| PreySpec.StartedPulseKeepsInv | Assets/Scripts/PreyController.cs:174-181 | setting up a pulse that TryPulse allowed keeps the invariant |
| PreySpec.TryPulseKeepsInv | Assets/Scripts/PreyController.cs:163-170 | TryPulse keeps the invariant |
| PreySpec.DeathStepKeepsConsistent | Assets/Scripts/PreyController.cs:249-288 | every death resumption keeps the prey consistent, and a prey is destroyed fully faded |
| PreySpec.DeathStepKeepsInv | Assets/Scripts/PreyController.cs:249-288 | every death resumption keeps the invariant |
| PreySpec.EnterDyingStateKeepsConsistent | Assets/Scripts/PreyController.cs:242-253 | death begun by a wandering prey leaves it consistent, in the first step of the pop |
| PreySpec.UpdateKeepsInv | Assets/Scripts/PreyController.cs:69-96 | every frame keeps the invariant |
| PreySpec.HandleTriggerKeepsInv | Assets/Scripts/PreyController.cs:138-161 | every contact keeps the invariant |
| PreySpec.StepKeepsInv | Assets/Scripts/PreyController.cs:69-96 | every host event keeps the invariant |
| PreySpec.RunKeepsInv | Assets/Scripts/PreyController.cs:69-96 | any run of frames, contacts and coroutine resumptions keeps a reachable prey reachable: Pulse exactly while a pulse runs, Dying exactly once death has begun, never both |
| PreySpec.DyingIsAbsorbing | Assets/Scripts/PreyController.cs:165 | once Dying with no pulse running, no run makes the prey Wander or Pulse again or starts a pulse |
| PreySpec.DestroyedOnlyWhenFaded | Assets/Scripts/PreyController.cs:268-287 | a prey destroys itself only through its death sequence, and is fully transparent when there was a fade |
| PreySpec.CooldownBlocksPulse | Assets/Scripts/PreyController.cs:71-72 | a prey with no pulse running starts none during any run whose frames add up to less than its cooldown, whatever contacts come in between |
| PreySpec.NoPulseWithinCooldown | Assets/Scripts/PreyController.cs:167 | after a pulse ends, no new pulse starts before frames totalling `pulseCooldownDuration` seconds have passed |
| PreySpec.TicksKeepDying | Assets/Scripts/PreyController.cs:87-93 | under frames alone a Dying prey stays Dying |
| PreySpec.WanderShrinksLinearly | Assets/Scripts/PreyController.cs:100-102 | undisturbed, a wandering prey keeps wandering and its scale is its start scale less `shrinkRatePerSecond` times the elapsed frame time, while that stays above the floor |
| PreySpec.FloorOnFirstTick | Assets/Scripts/PreyController.cs:87-93 | a frame that shrinks a wandering prey to the floor starts its death, and it stays Dying |
| PreySpec.WanderReachesFloor | Assets/Scripts/PreyController.cs:87-102 | undisturbed, a wandering prey is Dying once the elapsed frame time would shrink it to the floor |
| PreySpec.ThirtyFiveSecondsOfWandering | Assets/Scripts/PreyController.cs:100-102 | with the default 1.0 / 0.3 / 0.02 a prey left alone wanders for 35 seconds, at scale `1 - 0.02 t`, and is Dying from then on |
| Prey.PreyController.Awake | Assets/Scripts/PreyController.cs:52-67 | the constructed object is the Awake state, reachable under sane settings |
| Prey.PreyController.Update | Assets/Scripts/PreyController.cs:69-96 | the fields change as PreySpec.Update says |
| Prey.PreyController.UpdateWander | Assets/Scripts/PreyController.cs:98-116 | the fields change as PreySpec.UpdateWander says |
| Prey.PreyController.PickNewDirection | Assets/Scripts/PreyController.cs:118-125 | the fields change as PreySpec.PickNewDirection says |
| Prey.PreyController.OnTriggerEnter2D | Assets/Scripts/PreyController.cs:127-130 | the fields change as PreySpec.HandleTrigger says for an entered contact |
| Prey.PreyController.OnTriggerStay2D | Assets/Scripts/PreyController.cs:132-135 | the fields change as PreySpec.HandleTrigger says for a staying contact |
| Prey.PreyController.HandleTrigger | Assets/Scripts/PreyController.cs:138-161 | the fields change as PreySpec.HandleTrigger says |
| Prey.PreyController.TryPulse | Assets/Scripts/PreyController.cs:163-181 | the fields change as PreySpec.TryPulse says |
| Prey.PreyController.ResumePulse | Assets/Scripts/PreyController.cs:172-218 | the fields change as PreySpec.PulseStep says |
| Prey.PreyController.FallFrom | Assets/Scripts/PreyController.cs:198-217 | the fields change as PreySpec.FallFrom says |
| Prey.PreyController.FinishPulse | Assets/Scripts/PreyController.cs:211-217 | the fields change as PreySpec.FinishPulse says |
| Prey.PreyController.EnterDyingState | Assets/Scripts/PreyController.cs:242-253 | the fields change as PreySpec.EnterDyingState says |
| Prey.PreyController.ResumeDeath | Assets/Scripts/PreyController.cs:249-288 | the fields change as PreySpec.DeathStep says |
| Prey.PreyController.FadeFrom | Assets/Scripts/PreyController.cs:268-287 | the fields change as PreySpec.FadeFrom says |
| Prey.PreyController.SetScale | Assets/Scripts/PreyController.cs:187-190 | the scale is set and the colour follows it |
| Prey.PreyController.UpdateColorFromScale | Assets/Scripts/PreyController.cs:220-240 | the fields change as PreySpec.UpdateColorFromScale says |
| SpawnerSpec.SpawnPosition | Assets/Scripts/GameManager.cs:81-83 | the spawn point lies in `[xMin, xMax] × [yMin, yMax]`, whichever way round the bounds are, with z = 0 |
| SpawnerSpec.Spawn | Assets/Scripts/GameManager.cs:77-86 | without a prefab nothing is spawned; otherwise exactly one agent of the species is added inside the spawn rectangle, after everything spawned before |
| SpawnerSpec.SpawnTimes | Assets/Scripts/GameManager.cs:33-36 | a loop of `n` spawns keeps what was spawned and adds `n` agents of the species inside the rectangle, or none when `n` is not positive or the prefab is missing |
| SpawnerSpec.Start | Assets/Scripts/GameManager.cs:31-51 | Start keeps what existed, adds the three start counts, and sets each timer to its interval |
| SpawnerSpec.TickSpecies | Assets/Scripts/GameManager.cs:55-60 | a species' block counts its own timer down by `dt`; when the timer ran out it spawns that species and resets the timer to the interval; the other timers are untouched |
| SpawnerSpec.Update | Assets/Scripts/GameManager.cs:53-75 | every timer follows its own countdown and reset rule, and a frame adds at most three agents after the existing ones |
| SpawnerSpec.SpawnTimesCount | Assets/Scripts/GameManager.cs:33-46 | a spawning loop adds its count to its own species and nothing to the others |
| SpawnerSpec.StartCounts | Assets/Scripts/GameManager.cs:31-51 | Start spawns exactly `startPreyCount` prey, `startPredatorCount` predators and `startFireflyCount` fireflies, or none of a species whose count is not positive or whose prefab is missing |
| SpawnerSpec.StartPlacesInArea | Assets/Scripts/GameManager.cs:31-51 | everything Start spawns lies inside the spawn rectangle |
| SpawnerSpec.DefaultStart | Assets/Scripts/GameManager.cs:6-19 | with the default settings Start makes 27 agents, 10 of them prey, before the first periodic spawn |
| SpawnerSpec.TickSpeciesCount | Assets/Scripts/GameManager.cs:55-60 | a species' block adds one agent of that species when its timer ran out and its prefab is set, and nothing else |
| SpawnerSpec.UpdateSpawnsAtMostOne | Assets/Scripts/GameManager.cs:53-75 | each frame spawns exactly one agent of a species whose timer ran out and whose prefab is set, and none otherwise, however long the frame |
| SpawnerSpec.TimersIndependent | Assets/Scripts/GameManager.cs:55-74 | a species' timer and spawn count after a frame depend on that timer alone |
| SpawnerSpec.StartTimersInRange | Assets/Scripts/GameManager.cs:48-50 | after Start, with positive intervals, every timer lies in (0, interval] |
| SpawnerSpec.RunKeepsTimersInRange | Assets/Scripts/GameManager.cs:53-75 | with positive intervals and frames of non-negative length, every timer stays in (0, interval] for the whole run |
| Spawner.GameManager.constructor | Assets/Scripts/GameManager.cs:27-29 | before Start the timers hold their default of zero and nothing is spawned |
| Spawner.GameManager.Start | Assets/Scripts/GameManager.cs:31-51 | the fields change as SpawnerSpec.Start says |
| Spawner.GameManager.SpawnRepeatedly | Assets/Scripts/GameManager.cs:33-36 | the loop spawns as SpawnerSpec.SpawnTimes says |
| Spawner.GameManager.Update | Assets/Scripts/GameManager.cs:53-75 | the fields change as SpawnerSpec.Update says |
| Spawner.GameManager.Spawn | Assets/Scripts/GameManager.cs:77-86 | the list of spawned agents changes as SpawnerSpec.Spawn says |

## Left out

- Rendering. The predator's colour writes and the prey's HSV base colour and grey-to-base colour mix are left out. The prey keeps only the life fraction that drives the mix and the opacity. The firefly's colour is the enum `Tint`.
- Positions and geometry. Movement, `normalized` and `Vector2.Distance` are left out. Distances are given per frame as inputs. The predator's post-move distance is modelled as a collinear step towards a target that did not move in that frame (`DistanceAfterStep`).
- Float rounding. Time, scale and opacity are `real`. Each coroutine loop's frame count follows from the frame times given, not from 32-bit float sums.
- Engine services. Randomness is given as draws. `FindObjectsByType` is a sequence of sightings in the engine's order. Tag comparison and `GetComponent` are a `Contact` tag. `Instantiate` is an append to a list of placements. `Destroy` is a flag, and the host stops calling a destroyed object. Which frames a coroutine is resumed in is chosen by the host's sequence of events.
- `isHunting`. `FireflyController.cs` lines 146 and 175 read `PredatorController.isHunting`, which `PredatorController.cs` does not declare. It is an input per predator (`PredatorSighting.hunting`). Its evident meaning, `currentState == Hunt` (`PredatorController.cs:51`), is not imposed.
- The blink roll. `Random.Range(1, 4)` is an input `roll`. Its one-in-three probability is not modelled, only that a roll of 1 starts a blink.
- The frame within a coroutine. A coroutine started in a frame runs its first step in that frame with the same `dt`; a `WaitForSeconds` ends once the summed frame time reaches its length. The order between `Update` and the coroutine resumptions within one frame is left to the host's event sequence.
- PreySpec.RunKeepsInv: the invariant is proved only for settings with `0 <= minScaleBeforeDeath < startScale`, `pulseMaxScaleMultiplier >= 1` and `pulseScaleBoost >= 0` (`SaneConfig`). With other settings a pulse can dip below the floor and start the death sequence while it still runs.
- PreySpec.DestroyedOnlyWhenFaded: proved under the same settings as PreySpec.RunKeepsInv. It covers only the prey destroying itself.
- Being eaten. A predator's kill destroys its prey from outside (`PredatorController.cs:135`). The prey model has no kill event; a kill is modelled only as the end of the prey's sequence of events.
- Engine.Progress: for a non-positive duration the model takes the loop fraction as 1. The source's loops then do not run, so the fraction is never used.
- SpawnerSpec.DefaultStart: states the prey count and the total of the default start. The predator and firefly counts follow from SpawnerSpec.StartCounts in the same way.
