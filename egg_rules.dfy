/**
 * The easter egg's trigger rules as pure transitions: the periodic tick of the 3-second
 * interval timer, and the timer callbacks of one reveal (six flashes, the hide, the end of
 * the cooldown) as the stages Flashing(k), Hiding and Cooldown.
 */
module EggRules {
  import opened Strings

  /** Which timer of a reveal is pending: none, the flash interval after k writes, the hide, the cooldown. */
  datatype Stage = Idle | Flashing(written: nat) | Hiding | Cooldown

  /** The overlay's drop-shadow filter: the 30px full-opacity glow or the 20px 0.8-opacity one it starts with. */
  datatype Glow = Bright | Dim

  /** How many filter writes one reveal makes before it hides the overlay. */
  const FlashWrites: nat := 6

  /**
   * The egg's state: whether the interval timer was started, the cooldown flag, the count of
   * consecutive misses, the pending reveal timer, whether the overlay is shown (opacity 1,
   * scale 1) and its current filter.
   */
  datatype EggState = EggState(timerRunning: bool, cooldown: bool, misses: nat, stage: Stage,
                               shown: bool, glow: Glow)

  /**
   * The states the rules keep: at most one miss in a row, a cooldown exactly while a reveal
   * is under way, the overlay shown exactly while it flashes or waits to hide, the filter in
   * step with the flash count, and nothing at all happening without the timer. So the
   * overlay is shown only while the cooldown keeps ticks from triggering, and glows bright
   * only while shown.
   */
  predicate Inv(s: EggState)
    ensures Inv(s) && s.shown ==> s.cooldown
    ensures Inv(s) && s.glow == Bright ==> s.shown && s.cooldown
  {
    && s.misses <= 1
    && (s.cooldown <==> s.stage != Idle)
    && (s.shown <==> s.stage.Flashing? || s.stage == Hiding)
    && (s.stage.Flashing? ==> s.stage.written < FlashWrites)
    && s.glow == (if s.stage.Flashing? && s.stage.written % 2 == 1 then Bright else Dim)
    && (!s.timerRunning ==> s.stage == Idle && s.misses == 0)
  }

  /** The state `initEasterEgg` leaves: the timer runs except on the tutorial page. */
  function Init(path: string): (s: EggState)
    ensures Inv(s)
    ensures s.timerRunning <==> !Includes(path, "tutorial.html")
    ensures !s.cooldown && s.misses == 0 && !s.shown
  {
    EggState(!Includes(path, "tutorial.html"), false, 0, Idle, false, Dim)
  }

  /** The trigger probability: one half, and certainty once the previous evaluation missed. */
  function TriggerChance(misses: nat): (p: real)
    ensures 0.0 < p <= 1.0
    ensures p == 1.0 <==> misses > 0
  {
    if misses > 0 then 1.0 else 0.5
  }

  /**
   * `showEasterEgg`: without the overlay element nothing changes; otherwise the cooldown
   * starts, the overlay is shown and the flash interval begins with no write made yet.
   */
  function Show(s: EggState, overlay: bool): (t: EggState)
    ensures !overlay ==> t == s
    ensures overlay ==> t.cooldown && t.shown && t.stage == Flashing(0)
    ensures t.timerRunning == s.timerRunning && t.misses == s.misses && t.glow == s.glow
  {
    if overlay then s.(cooldown := true, shown := true, stage := Flashing(0)) else s
  }

  /**
   * One firing of the interval timer with the random draw `draw` from [0, 1) and `overlay`
   * telling whether the overlay element is found. It does nothing during a cooldown; a draw
   * below the chance triggers the reveal and clears the misses, any other draw adds a miss.
   */
  function OnTick(s: EggState, draw: real, overlay: bool): (t: EggState)
    requires 0.0 <= draw < 1.0
    ensures !s.timerRunning || s.cooldown ==> t == s
    ensures s.timerRunning && !s.cooldown && s.misses > 0
            ==> t.misses == 0 && (overlay ==> t.stage == Flashing(0) && t.shown)
    ensures t.misses != s.misses ==> t.misses == 0 || (s.misses == 0 && t.misses == 1)
    ensures !overlay ==> t.cooldown == s.cooldown && t.stage == s.stage && t.shown == s.shown
    ensures t.cooldown && !s.cooldown ==> t.stage == Flashing(0) && t.misses == 0
    ensures t.timerRunning == s.timerRunning
  {
    if !s.timerRunning || s.cooldown then s
    else if draw < TriggerChance(s.misses) then Show(s, overlay).(misses := 0)
    else s.(misses := s.misses + 1)
  }

  /** The filter a flash write sets: bright on even counts, dim on odd ones. */
  function FlashGlow(k: nat): (g: Glow)
    ensures g == Bright <==> k % 2 == 0
  {
    if k % 2 == 0 then Bright else Dim
  }

  /**
   * The pending reveal timer fires: a flash write (the sixth stops the interval and schedules
   * the hide), the hide (which schedules the end of the cooldown), or the end of the cooldown.
   * Without a pending timer nothing happens.
   */
  function OnCallback(s: EggState): (t: EggState)
    ensures s.stage == Idle ==> t == s
    ensures s.cooldown && !t.cooldown ==> s.stage == Cooldown && t.stage == Idle
    ensures !s.cooldown ==> !t.cooldown
    ensures s.shown && !t.shown ==> s.stage == Hiding && t.stage == Cooldown && t.cooldown == s.cooldown
    ensures t.glow != s.glow ==> s.stage.Flashing? && t.glow == FlashGlow(s.stage.written)
    ensures t.timerRunning == s.timerRunning && t.misses == s.misses
  {
    match s.stage
    case Idle => s
    case Flashing(k) =>
      if k + 1 >= FlashWrites then s.(glow := FlashGlow(k), stage := Hiding)
      else s.(glow := FlashGlow(k), stage := Flashing(k + 1))
    case Hiding => s.(shown := false, stage := Cooldown)
    case Cooldown => s.(cooldown := false, stage := Idle)
  }

  /** Initialisation establishes the invariant on every page. */
  lemma InitInv(path: string)
    ensures Inv(Init(path))
  {
  }

  /** A tick keeps the invariant. */
  lemma TickKeepsInv(s: EggState, draw: real, overlay: bool)
    requires Inv(s) && 0.0 <= draw < 1.0
    ensures Inv(OnTick(s, draw, overlay))
  {
    if s.timerRunning && !s.cooldown && draw >= TriggerChance(s.misses) {
      assert s.misses == 0;
    }
  }

  /** A timer callback keeps the invariant. */
  lemma CallbackKeepsInv(s: EggState)
    requires Inv(s)
    ensures Inv(OnCallback(s))
  {
    if s.stage.Flashing? {
      var k := s.stage.written;
      if k + 1 < FlashWrites {
        assert (k + 1) % 2 == 1 <==> k % 2 == 0;
      }
    }
  }

  /** What may happen next: the interval timer fires with a draw, or the pending reveal timer fires. */
  datatype Event = TimerTick(draw: real, overlay: bool) | TimerFire

  /** Every draw is a value `Math.random` can return. */
  predicate ValidDraws(evs: seq<Event>) {
    forall i :: 0 <= i < |evs| && evs[i].TimerTick? ==> 0.0 <= evs[i].draw < 1.0
  }

  /** The effect of one event. */
  function Step(s: EggState, e: Event): EggState
    requires e.TimerTick? ==> 0.0 <= e.draw < 1.0
  {
    match e
    case TimerTick(draw, overlay) => OnTick(s, draw, overlay)
    case TimerFire => OnCallback(s)
  }

  /** Every event keeps the invariant. */
  lemma StepKeepsInv(s: EggState, e: Event)
    requires Inv(s) && (e.TimerTick? ==> 0.0 <= e.draw < 1.0)
    ensures Inv(Step(s, e))
  {
    match e
    case TimerTick(draw, overlay) => TickKeepsInv(s, draw, overlay);
    case TimerFire => CallbackKeepsInv(s);
  }

  /** The state after a run of events. */
  function Run(s: EggState, evs: seq<Event>): EggState
    requires ValidDraws(evs)
    decreases |evs|
  {
    if |evs| == 0 then s
    else
      assert evs[0].TimerTick? ==> 0.0 <= evs[0].draw < 1.0;
      Run(Step(s, evs[0]), evs[1..])
  }

  /** Every run of events keeps the invariant. */
  lemma {:induction false} RunKeepsInv(s: EggState, evs: seq<Event>)
    requires Inv(s) && ValidDraws(evs)
    ensures Inv(Run(s, evs))
    decreases |evs|
  {
    if |evs| > 0 {
      assert evs[0].TimerTick? ==> 0.0 <= evs[0].draw < 1.0;
      StepKeepsInv(s, evs[0]);
      RunKeepsInv(Step(s, evs[0]), evs[1..]);
    }
  }

  /** What an evaluated tick decided: the reveal was triggered, or not. */
  datatype Outcome = Hit | Miss

  /** The decisions of the ticks in a run that were not skipped for the cooldown, in order. */
  function Outcomes(s: EggState, evs: seq<Event>): seq<Outcome>
    requires ValidDraws(evs)
    decreases |evs|
  {
    if |evs| == 0 then []
    else
      var e := evs[0];
      assert e.TimerTick? ==> 0.0 <= e.draw < 1.0;
      var rest := Outcomes(Step(s, e), evs[1..]);
      if e.TimerTick? && s.timerRunning && !s.cooldown then
        [if e.draw < TriggerChance(s.misses) then Hit else Miss] + rest
      else rest
  }

  /** After a miss the next evaluated tick is certain to trigger, whatever happens in between. */
  lemma {:induction false} ForcedAfterMiss(s: EggState, evs: seq<Event>)
    requires Inv(s) && ValidDraws(evs) && s.misses > 0
    ensures var o := Outcomes(s, evs); |o| > 0 ==> o[0] == Hit
    decreases |evs|
  {
    if |evs| > 0 {
      var e := evs[0];
      assert e.TimerTick? ==> 0.0 <= e.draw < 1.0;
      if !(e.TimerTick? && s.timerRunning && !s.cooldown) {
        StepKeepsInv(s, e);
        ForcedAfterMiss(Step(s, e), evs[1..]);
      }
    }
  }

  /** No miss is directly followed by another miss. */
  predicate NoRepeatedMiss(o: seq<Outcome>) {
    forall i :: 0 <= i < |o| - 1 ==> !(o[i] == Miss && o[i + 1] == Miss)
  }

  /** Two evaluated ticks in a row never both miss. */
  lemma {:induction false} NoTwoMissesInARow(s: EggState, evs: seq<Event>)
    requires Inv(s) && ValidDraws(evs)
    ensures NoRepeatedMiss(Outcomes(s, evs))
    decreases |evs|
  {
    if |evs| > 0 {
      var e := evs[0];
      assert e.TimerTick? ==> 0.0 <= e.draw < 1.0;
      var t := Step(s, e);
      StepKeepsInv(s, e);
      NoTwoMissesInARow(t, evs[1..]);
      var rest := Outcomes(t, evs[1..]);
      if e.TimerTick? && s.timerRunning && !s.cooldown {
        var head := if e.draw < TriggerChance(s.misses) then Hit else Miss;
        var o := [head] + rest;
        assert Outcomes(s, evs) == o;
        if head == Miss {
          assert t == OnTick(s, e.draw, e.overlay);
          assert t.misses > 0;
          ForcedAfterMiss(t, evs[1..]);
          assert |rest| > 0 ==> rest[0] == Hit;
        }
        forall i | 0 <= i < |o| - 1
          ensures !(o[i] == Miss && o[i + 1] == Miss)
        {
          assert o[i + 1] == rest[i];
          if i > 0 {
            assert o[i] == rest[i - 1];
            assert !(rest[i - 1] == Miss && rest[i] == Miss);
          }
        }
      }
    }
  }

  /** The state after n firings of the pending reveal timer. */
  function Fire(s: EggState, n: nat): EggState
    decreases n
  {
    if n == 0 then s else Fire(OnCallback(s), n - 1)
  }

  /** The filter after each of n firings of the pending reveal timer. */
  function Glows(s: EggState, n: nat): (gs: seq<Glow>)
    ensures |gs| == n
    ensures forall i :: 0 <= i < n ==> gs[i] == Fire(s, i + 1).glow
    decreases n
  {
    if n == 0 then [] else [OnCallback(s).glow] + Glows(OnCallback(s), n - 1)
  }

  /**
   * A reveal from its start: six writes alternating bright and dim, starting bright, then the
   * hide while the cooldown still holds, then the end of the cooldown. Only then may a tick
   * trigger again, and the miss count is untouched throughout.
   */
  lemma RevealSequence(s: EggState)
    requires s.stage == Flashing(0) && s.cooldown && s.shown
    ensures Glows(s, 6) == [Bright, Dim, Bright, Dim, Bright, Dim]
    ensures var h := Fire(s, 6); h.stage == Hiding && h.shown && h.cooldown
    ensures var c := Fire(s, 7); c.stage == Cooldown && !c.shown && c.cooldown
    ensures var e := Fire(s, 8); e.stage == Idle && !e.shown && !e.cooldown && e.misses == s.misses
  {
    var s1 := OnCallback(s);
    var s2 := OnCallback(s1);
    var s3 := OnCallback(s2);
    var s4 := OnCallback(s3);
    var s5 := OnCallback(s4);
    var s6 := OnCallback(s5);
    var s7 := OnCallback(s6);
    assert Fire(s, 8) == Fire(s1, 7) == Fire(s2, 6) == Fire(s3, 5) == Fire(s4, 4) == Fire(s5, 3) == Fire(s6, 2);
    assert Glows(s, 6) == [s1.glow, s2.glow, s3.glow, s4.glow, s5.glow, s6.glow];
  }
}
