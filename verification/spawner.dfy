/**
 * GameManager as an object whose timer fields Start and Update change in
 * place, with Instantiate appending to the list of what it has spawned.
 * Every method is proved against the function of SpawnerSpec that states
 * its effect, so the counting lemmas proved there hold of the object.
 */
module Spawner {
  import opened Engine
  import opened SpawnerSpec

  class GameManager {
    const cfg: SpawnerConfig

    var preyTimer: real
    var predatorTimer: real
    var fireflyTimer: real
    /** Every agent Instantiate has created, in order. */
    var spawned: seq<Placement>

    /** The fields as a SpawnerSpec value. */
    function View(): SpawnerSpec.Spawner
      reads this
    {
      SpawnerSpec.Spawner(preyTimer, predatorTimer, fireflyTimer, spawned)
    }

    /** The object before Start: timers at their default of zero, nothing spawned. */
    constructor (cfg: SpawnerConfig)
      ensures this.cfg == cfg
      ensures View() == SpawnerSpec.Spawner(0.0, 0.0, 0.0, [])
    {
      this.cfg := cfg;
      preyTimer := 0.0;
      predatorTimer := 0.0;
      fireflyTimer := 0.0;
      spawned := [];
    }

    /** Spawns the start count of each species in turn, then starts the three timers. */
    method Start(random: nat -> PositionDraw)
      modifies this
      ensures View() == SpawnerSpec.Start(cfg, old(View()), random)
    {
      SpawnRepeatedly(PreyKind, cfg.startPreyCount, random);
      SpawnRepeatedly(PredatorKind, cfg.startPredatorCount, random);
      SpawnRepeatedly(FireflyKind, cfg.startFireflyCount, random);
      preyTimer := cfg.preySpawnInterval;
      predatorTimer := cfg.predatorSpawnInterval;
      fireflyTimer := cfg.fireflySpawnInterval;
    }

    /** One of the loops of Start: `for (int i = 0; i < n; i++) Spawn(prefab)`. */
    method SpawnRepeatedly(s: Species, n: int, random: nat -> PositionDraw)
      modifies this`spawned
      ensures spawned == SpawnTimes(cfg, old(spawned), s, n, random)
    {
      ghost var before := spawned;
      var i := 0;
      while i < n
        invariant 0 <= i <= if n > 0 then n else 0
        invariant spawned == SpawnTimes(cfg, before, s, i, random)
        decreases n - i
      {
        Spawn(s, random);
        i := i + 1;
      }
    }

    /** One frame of `dt` seconds: each species' timer counts down, and spawns and restarts when it runs out. */
    method Update(dt: real, random: nat -> PositionDraw)
      modifies this
      ensures View() == SpawnerSpec.Update(cfg, old(View()), dt, random)
    {
      preyTimer := preyTimer - dt;
      if preyTimer <= 0.0 {
        Spawn(PreyKind, random);
        preyTimer := cfg.preySpawnInterval;
      }

      predatorTimer := predatorTimer - dt;
      if predatorTimer <= 0.0 {
        Spawn(PredatorKind, random);
        predatorTimer := cfg.predatorSpawnInterval;
      }

      fireflyTimer := fireflyTimer - dt;
      if fireflyTimer <= 0.0 {
        Spawn(FireflyKind, random);
        fireflyTimer := cfg.fireflySpawnInterval;
      }
    }

    /** Instantiates an agent of the species at a random point of the spawn rectangle, unless its prefab is missing. */
    method Spawn(s: Species, random: nat -> PositionDraw)
      modifies this`spawned
      ensures spawned == SpawnerSpec.Spawn(cfg, old(spawned), s, random)
    {
      if !HasPrefab(cfg, s) {
        return;
      }
      var d := random(|spawned|);
      var x := RandomRange(cfg.xMin, cfg.xMax, d.ux);
      var y := RandomRange(cfg.yMin, cfg.yMax, d.uy);
      var pos := Vec3(x, y, 0.0);
      spawned := spawned + [Placement(s, pos)];
    }
  }
}
