/**
 * FireflyController as an object whose fields Update, the blink coroutine
 * and the trigger handler change in place. Every method is proved against
 * the function of FireflySpec that states its effect.
 */
module Firefly {
  import opened Engine
  import opened Scan
  import opened FireflySpec

  class FireflyController {
    const cfg: FireflyConfig

    var currentState: FireflyState
    var flashCount: int
    var dirTimer: real
    var moveDir: Vec2
    var flashTimer: real
    var currentTarget: Option<nat>
    var flashingNow: bool
    /** The colour of the sprite renderer. */
    var tint: Tint
    /** The running BlinkAndMaybeDie coroutine, if any. */
    var blink: Option<Blink>
    /** Set by Destroy(gameObject); the host then stops calling Update. */
    var destroyed: bool

    /** The fields as a FireflySpec value. */
    function View(): FireflySpec.Firefly
      reads this
    {
      FireflySpec.Firefly(currentState, flashCount, dirTimer, moveDir, flashTimer,
                          currentTarget, flashingNow, tint, blink, destroyed)
    }

    /** The field initialisers followed by Start. */
    constructor Start(cfg: FireflyConfig, draw: DirectionDraw)
      ensures this.cfg == cfg
      ensures View() == FireflySpec.Start(cfg, draw)
      ensures Inv(cfg, View())
    {
      this.cfg := cfg;
      currentState := Wander;
      flashCount := 0;
      currentTarget := None;
      flashingNow := false;
      blink := None;
      destroyed := false;
      tint := NormalTint;
      moveDir := UsableDirection(draw.dir);
      dirTimer := RandomRange(cfg.dirChangeMin, cfg.dirChangeMax, draw.u);
      flashTimer := cfg.flashInterval;
    }

    /** One frame. Returns whether a chasing firefly moved towards its predator. */
    method Update(dt: real, draw: DirectionDraw, roll: int, preds: seq<PredatorSighting>) returns (approached: bool)
      requires !destroyed
      modifies this
      ensures View() == FireflySpec.Update(cfg, old(View()), dt, draw, roll, preds)
      ensures approached <==> old(currentState) == Chase && ChaseApproaches(cfg, old(View()), preds)
    {
      approached := false;
      match currentState
      case Wander =>
        tint := NormalTint;
        UpdateWander(dt, draw, roll, preds);
      case Chase =>
        tint := ChaseTint;
        approached := UpdateChase(preds);
      case Flash =>
    }

    method UpdateWander(dt: real, draw: DirectionDraw, roll: int, preds: seq<PredatorSighting>)
      requires currentState == Wander
      modifies this
      ensures View() == FireflySpec.UpdateWander(cfg, old(View()), dt, draw, roll, preds)
    {
      dirTimer := dirTimer - dt;
      if dirTimer <= 0.0 {
        PickNewDirection(draw);
      }
      FlashTick(dt, roll, preds);
    }

    /** The flash timer with its roll, then the scan for a predator. */
    method FlashTick(dt: real, roll: int, preds: seq<PredatorSighting>)
      modifies this
      ensures View() == FireflySpec.FlashTick(cfg, old(View()), dt, roll, preds)
    {
      flashTimer := flashTimer - dt;
      if flashTimer <= 0.0 && !flashingNow {
        if roll == 1 {
          StartBlink();
          return;
        } else {
          flashTimer := cfg.flashInterval;
        }
      }
      PickTarget(preds);
      if currentTarget.Some? {
        currentState := Chase;
        return;
      }
    }

    method PickNewDirection(draw: DirectionDraw)
      modifies this`moveDir, this`dirTimer
      ensures View() == FireflySpec.PickNewDirection(cfg, old(View()), draw)
    {
      moveDir := UsableDirection(draw.dir);
      dirTimer := RandomRange(cfg.dirChangeMin, cfg.dirChangeMax, draw.u);
    }

    /** StartCoroutine(BlinkAndMaybeDie()): the part before its first wait. */
    method StartBlink()
      modifies this`flashingNow, this`currentState, this`tint, this`blink
      ensures View() == FireflySpec.StartBlink(old(View()))
    {
      flashingNow := true;
      currentState := Flash;
      tint := FlashTint;
      blink := Some(Blink(0, BLINK_HALF_PERIOD));
    }

    /** The blink coroutine resumed after a frame of `dt` seconds. */
    method ResumeBlink(dt: real)
      modifies this
      ensures View() == FireflySpec.BlinkStep(cfg, old(View()), dt)
    {
      if blink.None? || destroyed {
        return;
      }
      var b := blink.value;
      if b.wait - dt > 0.0 {
        blink := Some(b.(wait := b.wait - dt));
      } else if b.step < BLINK_LAST_STEP {
        tint := if b.step % 2 == 0 then NormalTint else FlashTint;
        blink := Some(Blink(b.step + 1, BLINK_HALF_PERIOD));
      } else {
        flashCount := flashCount + 1;
        flashTimer := cfg.flashInterval;
        blink := None;
        if flashCount >= cfg.maxFlashes {
          destroyed := true;
          return;
        }
        flashingNow := false;
        currentState := Wander;
      }
    }

    /** Returns whether the firefly moved towards its predator. */
    method UpdateChase(preds: seq<PredatorSighting>) returns (approached: bool)
      modifies this`currentState, this`currentTarget
      ensures View() == FireflySpec.UpdateChase(cfg, old(View()), preds)
      ensures approached == ChaseApproaches(cfg, old(View()), preds)
    {
      if !TargetAlive(currentTarget, preds) {
        currentState := Wander;
        return false;
      }
      var seen := preds[currentTarget.value];
      if !seen.hunting || seen.dist > cfg.attractRadius {
        currentTarget := None;
        currentState := Wander;
        return false;
      }
      approached := seen.dist > cfg.followDist;
    }

    /** Points `currentTarget` at the first nearest attractive predator, or at nothing. */
    method PickTarget(preds: seq<PredatorSighting>)
      modifies this`currentTarget
      ensures currentTarget == FireflySpec.PickTarget(cfg, preds)
    {
      currentTarget := None;
      if |preds| == 0 {
        return;
      }
      currentTarget := FirstNearest(PredatorCandidates(cfg, preds));
    }

    method OnTriggerEnter2D(contact: Contact, u: real)
      modifies this`moveDir, this`dirTimer
      ensures View() == FireflySpec.OnTriggerEnter2D(cfg, old(View()), contact, u)
    {
      if contact == BoundaryWall {
        moveDir := Neg(moveDir);
        dirTimer := RandomRange(cfg.dirChangeMin, cfg.dirChangeMax, u);
      }
    }
  }
}
