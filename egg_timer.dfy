/**
 * The easter egg as the script keeps it: module-level variables updated in place by the
 * interval timer and by the timers of a reveal. Each method is specified by the transition
 * of EggRules it performs, so the rules' invariant is kept by every method.
 */
module EggTimer {
  import opened Strings
  import opened EggRules

  class EasterEgg {
    /** `easterEggTimer` holds an interval. */
    var timerRunning: bool
    /** `easterEggCooldown`. */
    var cooldown: bool
    /** `consecutiveMisses`. */
    var consecutiveMisses: nat
    /** The pending reveal timer. */
    var stage: Stage
    /** The overlay's opacity and scale are 1. */
    var shown: bool
    /** The overlay's filter. */
    var glow: Glow

    /** The fields as one EggRules state. */
    function State(): EggState
      reads this
    {
      EggState(timerRunning, cooldown, consecutiveMisses, stage, shown, glow)
    }

    /** The state keeps the rules' invariant. */
    predicate Valid()
      reads this
    {
      Inv(State())
    }

    /**
     * The initial values of the variables followed by `initEasterEgg` on the page at path:
     * the tutorial page returns early, every other page starts the interval.
     */
    constructor(path: string)
      ensures State() == Init(path)
      ensures Valid()
    {
      cooldown := false;
      consecutiveMisses := 0;
      stage := Idle;
      shown := false;
      glow := Dim;
      if Includes(path, "tutorial.html") {
        timerRunning := false;
      } else {
        timerRunning := true;
      }
    }

    /** The interval's callback: evaluate a trigger unless the cooldown holds. */
    method Tick(draw: real, overlayPresent: bool)
      requires Valid() && 0.0 <= draw < 1.0
      modifies this
      ensures State() == OnTick(old(State()), draw, overlayPresent)
      ensures Valid()
    {
      TickKeepsInv(State(), draw, overlayPresent);
      if timerRunning && !cooldown {
        TriggerEasterEgg(draw, overlayPresent);
      }
    }

    /** `triggerEasterEgg`: draw against the chance, reveal on a hit, count a miss otherwise. */
    method TriggerEasterEgg(draw: real, overlayPresent: bool)
      requires 0.0 <= draw < 1.0
      modifies this
      ensures draw < TriggerChance(old(consecutiveMisses))
              ==> State() == Show(old(State()), overlayPresent).(misses := 0)
      ensures draw >= TriggerChance(old(consecutiveMisses))
              ==> State() == old(State()).(misses := old(consecutiveMisses) + 1)
    {
      var triggerChance := if consecutiveMisses > 0 then 1.0 else 0.5;
      var shouldTrigger := draw < triggerChance;
      if shouldTrigger {
        ShowEasterEgg(overlayPresent);
        consecutiveMisses := 0;
      } else {
        consecutiveMisses := consecutiveMisses + 1;
      }
    }

    /** `showEasterEgg`: return when the overlay is missing, else start the cooldown and the flashes. */
    method ShowEasterEgg(overlayPresent: bool)
      modifies this
      ensures State() == Show(old(State()), overlayPresent)
    {
      if !overlayPresent {
        return;
      }
      cooldown := true;
      shown := true;
      stage := Flashing(0);
    }

    /** The 200 ms flash interval fires: write the filter, and after the sixth write schedule the hide. */
    method FlashTick()
      requires Valid() && stage.Flashing?
      modifies this
      ensures State() == OnCallback(old(State()))
      ensures Valid()
    {
      CallbackKeepsInv(State());
      var flashCount := stage.written;
      glow := if flashCount % 2 == 0 then Bright else Dim;
      flashCount := flashCount + 1;
      if flashCount >= FlashWrites {
        stage := Hiding;
      } else {
        stage := Flashing(flashCount);
      }
    }

    /** The 1-second hide timeout fires: hide the overlay and schedule the end of the cooldown. */
    method HideTimeout()
      requires Valid() && stage == Hiding
      modifies this
      ensures State() == OnCallback(old(State()))
      ensures Valid()
    {
      CallbackKeepsInv(State());
      shown := false;
      stage := Cooldown;
    }

    /** The 10-second cooldown timeout fires: ticks may trigger again. */
    method CooldownTimeout()
      requires Valid() && stage == Cooldown
      modifies this
      ensures State() == OnCallback(old(State()))
      ensures Valid()
    {
      CallbackKeepsInv(State());
      cooldown := false;
      stage := Idle;
    }
  }
}
