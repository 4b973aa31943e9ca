/**
 * PreyController as an object whose fields Update, the trigger handlers and
 * the two coroutines (CoPulse, CoDieExplosion) change in place. Every method
 * is proved against the function of PreySpec that states its effect, so what
 * is proved about those functions (the invariant, the linear shrinking, the
 * absorbing Dying state) holds of the object.
 */
module Prey {
  import opened Engine
  import opened PreySpec

  class PreyController {
    const cfg: PreyConfig

    var currentState: PreyState
    var currentDir: Vec2
    var dirTimer: real
    var currentScale: real
    var pulseCooldownTimer: real
    var isPulsingAnim: bool
    var isDyingAnim: bool
    /** The life fraction behind the sprite colour. */
    var life: real
    /** The opacity of the sprite colour. */
    var alpha: real
    /** The running CoPulse coroutine, if any. */
    var pulse: Option<PulseAnim>
    /** The running CoDieExplosion coroutine, if any. */
    var death: Option<DeathAnim>
    /** Set by Destroy(gameObject); the host then stops calling the prey. */
    var destroyed: bool

    /** The fields as a PreySpec value. */
    function View(): PreySpec.Prey
      reads this
    {
      PreySpec.Prey(currentState, currentDir, dirTimer, currentScale, pulseCooldownTimer,
                    isPulsingAnim, isDyingAnim, life, alpha, pulse, death, destroyed)
    }

    /** The field initialisers followed by Awake. */
    constructor Awake(cfg: PreyConfig, draw: DirectionDraw)
      ensures this.cfg == cfg
      ensures View() == PreySpec.Awake(cfg, draw)
      ensures SaneConfig(cfg) ==> Inv(cfg, View())
    {
      this.cfg := cfg;
      currentState := Wander;
      pulseCooldownTimer := 0.0;
      isPulsingAnim := false;
      isDyingAnim := false;
      alpha := 1.0;
      pulse := None;
      death := None;
      destroyed := false;
      currentScale := cfg.startScale;
      currentDir := UsableDirection(draw.dir);
      dirTimer := RandomRange(cfg.dirDurationMin, cfg.dirDurationMax, draw.u);
      life := LifeFraction(cfg, cfg.startScale);
    }

    /** One frame of `dt` seconds. */
    method Update(dt: real, draw: DirectionDraw)
      requires !destroyed
      modifies this
      ensures View() == PreySpec.Update(cfg, old(View()), dt, draw)
    {
      if pulseCooldownTimer > 0.0 {
        pulseCooldownTimer := pulseCooldownTimer - dt;
      }
      match currentState {
        case Wander => UpdateWander(dt, draw);
        case Pulse =>
        case Dying =>
      }
      if currentState != Dying && !isDyingAnim {
        if currentScale <= cfg.minScaleBeforeDeath {
          EnterDyingState(dt);
        }
      }
      UpdateColorFromScale();
    }

    method UpdateWander(dt: real, draw: DirectionDraw)
      modifies this`currentScale, this`dirTimer, this`currentDir
      ensures View() == PreySpec.UpdateWander(cfg, old(View()), dt, draw)
    {
      currentScale := currentScale - cfg.shrinkRatePerSecond * dt;
      if currentScale < cfg.minScaleBeforeDeath {
        currentScale := cfg.minScaleBeforeDeath;
      }
      dirTimer := dirTimer - dt;
      if dirTimer <= 0.0 {
        PickNewDirection(draw);
      }
    }

    method PickNewDirection(draw: DirectionDraw)
      modifies this`currentDir, this`dirTimer
      ensures View() == PreySpec.PickNewDirection(cfg, old(View()), draw)
    {
      currentDir := UsableDirection(draw.dir);
      dirTimer := RandomRange(cfg.dirDurationMin, cfg.dirDurationMax, draw.u);
    }

    method OnTriggerEnter2D(contact: Contact, dt: real, u: real)
      requires !destroyed
      modifies this
      ensures View() == PreySpec.HandleTrigger(cfg, old(View()), contact, false, dt, u)
    {
      HandleTrigger(contact, false, dt, u);
    }

    method OnTriggerStay2D(contact: Contact, dt: real, u: real)
      requires !destroyed
      modifies this
      ensures View() == PreySpec.HandleTrigger(cfg, old(View()), contact, true, dt, u)
    {
      HandleTrigger(contact, true, dt, u);
    }

    method HandleTrigger(contact: Contact, isStay: bool, dt: real, u: real)
      requires !destroyed
      modifies this
      ensures View() == PreySpec.HandleTrigger(cfg, old(View()), contact, isStay, dt, u)
    {
      if contact == BoundaryWall {
        currentDir := Neg(currentDir);
        dirTimer := RandomRange(cfg.dirDurationMin, cfg.dirDurationMax, u);
        return;
      }
      if contact == AnotherPrey {
        if !isStay {
          TryPulse(dt);
        } else {
          TryPulse(dt);
        }
      }
    }

    /** Starts CoPulse unless the prey is dying, already pulsing, or cooling down. */
    method TryPulse(dt: real)
      requires !destroyed
      modifies this
      ensures View() == PreySpec.TryPulse(cfg, old(View()), dt)
    {
      ghost var before := View();
      if currentState == Dying {
        return;
      }
      if isPulsingAnim {
        return;
      }
      if pulseCooldownTimer > 0.0 {
        return;
      }
      currentState := Pulse;
      isPulsingAnim := true;
      pulse := Some(NewPulse(cfg, currentScale));
      assert View() == StartedPulse(cfg, before);
      ResumePulse(dt);
    }

    /** CoPulse resumed after a frame of `dt` seconds. */
    method ResumePulse(dt: real)
      modifies this
      ensures View() == PreySpec.PulseStep(cfg, old(View()), dt)
    {
      if pulse.None? || destroyed {
        return;
      }
      var a := pulse.value;
      match a.stage
      case Rising(t) =>
        if t < cfg.pulseUpTime {
          SetScale(Lerp(a.from, a.peak, Progress(t + dt, cfg.pulseUpTime)));
          pulse := Some(a.(stage := Rising(t + dt)));
        } else {
          SetScale(a.peak);
          pulse := Some(a.(stage := Holding(cfg.pulseHoldTime)));
        }
      case Holding(left) =>
        if left - dt > 0.0 {
          pulse := Some(a.(stage := Holding(left - dt)));
        } else {
          FallFrom(0.0, dt);
        }
      case Falling(t) =>
        FallFrom(t, dt);
    }

    /** The falling loop of CoPulse checked with `t` elapsed. */
    method FallFrom(t: real, dt: real)
      requires pulse.Some?
      modifies this
      ensures View() == PreySpec.FallFrom(cfg, old(View()), t, dt)
    {
      var a := pulse.value;
      if t < cfg.pulseDownTime {
        SetScale(Lerp(a.peak, a.settle, Progress(t + dt, cfg.pulseDownTime)));
        pulse := Some(a.(stage := Falling(t + dt)));
      } else {
        FinishPulse();
      }
    }

    /** The end of CoPulse: settle, start the cooldown, and wander again. */
    method FinishPulse()
      requires pulse.Some?
      modifies this
      ensures View() == PreySpec.FinishPulse(cfg, old(View()))
    {
      SetScale(pulse.value.settle);
      pulseCooldownTimer := cfg.pulseCooldownDuration;
      isPulsingAnim := false;
      currentState := Wander;
      pulse := None;
    }

    /** Starts CoDieExplosion unless it already runs. */
    method EnterDyingState(dt: real)
      modifies this
      ensures View() == PreySpec.EnterDyingState(cfg, old(View()), dt)
    {
      ghost var before := View();
      if isDyingAnim {
        return;
      }
      currentState := Dying;
      isDyingAnim := true;
      death := Some(NewDeath(cfg, currentScale));
      assert View() == StartedDeath(cfg, before);
      ResumeDeath(dt);
    }

    /** CoDieExplosion resumed after a frame of `dt` seconds. */
    method ResumeDeath(dt: real)
      modifies this
      ensures View() == PreySpec.DeathStep(cfg, old(View()), dt)
    {
      if death.None? || destroyed {
        return;
      }
      var d := death.value;
      match d.stage
      case Popping(t) =>
        if t < cfg.deathPopDuration {
          SetScale(Lerp(d.from, d.popped, Progress(t + dt, cfg.deathPopDuration)));
          death := Some(d.(stage := Popping(t + dt)));
        } else {
          FadeFrom(0.0, dt);
        }
      case Fading(t) =>
        FadeFrom(t, dt);
    }

    /** The fade loop of CoDieExplosion checked with `t` elapsed. */
    method FadeFrom(t: real, dt: real)
      requires death.Some? && !destroyed
      modifies this
      ensures View() == PreySpec.FadeFrom(cfg, old(View()), t, dt)
    {
      var d := death.value;
      if t < cfg.deathFadeDuration {
        SetScale(d.popped);
        alpha := Lerp(1.0, 0.0, Progress(t + dt, cfg.deathFadeDuration));
        death := Some(d.(stage := Fading(t + dt)));
      } else {
        destroyed := true;
      }
    }

    /** Sets the scale (and the transform's scale with it) and recolours. */
    method SetScale(s: real)
      modifies this`currentScale, this`life, this`alpha
      ensures View() == PreySpec.Resize(cfg, old(View()), s)
    {
      currentScale := s;
      UpdateColorFromScale();
    }

    method UpdateColorFromScale()
      modifies this`life, this`alpha
      ensures View() == PreySpec.UpdateColorFromScale(cfg, old(View()))
    {
      life := LifeFraction(cfg, currentScale);
      if !isDyingAnim {
        alpha := 1.0;
      }
    }
  }
}
