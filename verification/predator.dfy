/**
 * PredatorController as an object whose fields each frame's Update changes
 * in place. Every method is proved against the function of PredatorSpec
 * that states its effect, so what is proved about those functions (the kill
 * quota, the absorbing Dying state) holds of the object.
 */
module Predator {
  import opened Engine
  import opened Scan
  import opened PredatorSpec

  class PredatorController {
    const cfg: PredatorConfig

    var currentState: PredatorState
    var kills: int
    var restTimer: real
    var currentTarget: Option<nat>
    var currentScale: real
    /** Set by Destroy(gameObject); the host then stops calling Update. */
    var destroyed: bool

    /** The fields as a PredatorSpec value. */
    function View(): PredatorSpec.Predator
      reads this
    {
      PredatorSpec.Predator(currentState, kills, restTimer, currentTarget, currentScale, destroyed)
    }

    /** The field initialisers followed by Awake. */
    constructor Awake(cfg: PredatorConfig)
      ensures this.cfg == cfg
      ensures View() == PredatorSpec.Awake(cfg)
      ensures currentState == Rest && restTimer == cfg.restDuration && currentScale == AWAKE_SCALE
      ensures kills == 0 && currentTarget.None? && !destroyed
      ensures Inv(cfg, View())
    {
      this.cfg := cfg;
      kills := 0;
      currentTarget := None;
      destroyed := false;
      currentScale := AWAKE_SCALE;
      currentState := Rest;
      restTimer := cfg.restDuration;
    }

    /**
     * One frame. Returns the registry index of the prey this frame's kill
     * destroys, if any.
     */
    method Update(dt: real, preys: seq<PreySighting>) returns (killed: Option<nat>)
      requires !destroyed
      modifies this
      ensures View() == PredatorSpec.Update(cfg, old(View()), dt, preys)
      ensures killed.Some? <==> kills == old(kills) + 1
      ensures killed.Some? ==> killed == old(currentTarget) && TargetAlive(killed, preys)
    {
      match currentState
      case Rest =>
        UpdateRest(dt, preys);
        killed := None;
      case Hunt =>
        killed := UpdateHunt(dt, preys);
      case Dying =>
        UpdateDying(dt);
        killed := None;
    }

    method UpdateRest(dt: real, preys: seq<PreySighting>)
      requires currentState == Rest
      modifies this
      ensures View() == PredatorSpec.UpdateRest(cfg, old(View()), dt, preys)
    {
      restTimer := restTimer - dt;
      if restTimer <= 0.0 {
        PickTarget(preys);
        if currentTarget.Some? {
          currentState := Hunt;
        } else {
          restTimer := cfg.restDuration;
        }
      }
    }

    /** Points `currentTarget` at the first nearest prey that still exists, or at nothing. */
    method PickTarget(preys: seq<PreySighting>)
      modifies this`currentTarget
      ensures currentTarget == PredatorSpec.PickTarget(preys)
    {
      if |preys| == 0 {
        currentTarget := None;
        return;
      }
      currentTarget := FirstNearest(PreyCandidates(preys));
    }

    method UpdateHunt(dt: real, preys: seq<PreySighting>) returns (killed: Option<nat>)
      requires currentState == Hunt
      modifies this
      ensures View() == PredatorSpec.UpdateHunt(cfg, old(View()), dt, preys)
      ensures killed.Some? <==> kills == old(kills) + 1
      ensures killed.Some? ==> killed == old(currentTarget) && TargetAlive(killed, preys)
    {
      if !TargetAlive(currentTarget, preys) {
        GoRestAgain();
        return None;
      }
      var dist := DistanceAfterStep(preys[currentTarget.value].dist, cfg.moveSpeed * dt);
      if dist <= cfg.attackRange {
        killed := KillTarget();
      } else {
        killed := None;
      }
    }

    /** Destroys the target, counts the kill, and then dies or rests again. */
    method KillTarget() returns (killed: Option<nat>)
      modifies this
      ensures View() == PredatorSpec.KillTarget(cfg, old(View()))
      ensures killed == old(currentTarget)
    {
      killed := currentTarget;
      kills := kills + 1;
      currentTarget := None;
      if kills >= cfg.killsToDie {
        currentState := Dying;
      } else {
        GoRestAgain();
      }
    }

    method GoRestAgain()
      modifies this`currentState, this`restTimer
      ensures View() == PredatorSpec.GoRestAgain(cfg, old(View()))
    {
      currentState := Rest;
      restTimer := cfg.restDuration;
    }

    method UpdateDying(dt: real)
      modifies this`currentScale, this`destroyed
      ensures View() == PredatorSpec.UpdateDying(cfg, old(View()), dt)
    {
      currentScale := currentScale - cfg.shrinkSpeed * dt;
      if currentScale <= VANISH_SCALE {
        destroyed := true;
        return;
      }
    }
  }
}
