/**
 * lock, unlock, active and unlock_briefly in access.py. The three output
 * pins of the zone (latch, green indicator, beeper) are an abstract map from
 * pin number to level; every GPIO.output call is one Write, applied in order.
 */
module Outputs {

  /** An output level; the zone's unlock_value is one of these. */
  type Level = l: int | 0 <= l <= 1

  /** `v ^ 1` on a level. */
  function Flip(v: Level): Level { 1 - v }

  datatype Write = Write(pin: int, level: Level)

  /** The writes of lock(): latch to the opposite of unlock_value, green and beep to unlock_value. */
  function LockWrites(latch: int, green: int, beep: int, unlockValue: Level): seq<Write>
  {
    [Write(latch, Flip(unlockValue)), Write(green, unlockValue), Write(beep, unlockValue)]
  }

  /** The writes of unlock(): the same three pins, each at the opposite level. */
  function UnlockWrites(latch: int, green: int, beep: int, unlockValue: Level): seq<Write>
  {
    [Write(latch, unlockValue), Write(green, Flip(unlockValue)), Write(beep, Flip(unlockValue))]
  }

  /** The pin levels after performing the writes in order. */
  function Apply(pins: map<int, Level>, writes: seq<Write>): map<int, Level>
    decreases writes
  {
    if writes == [] then pins else Apply(pins[writes[0].pin := writes[0].level], writes[1..])
  }

  /** Three writes in a row are three map updates in that order. */
  lemma ApplyThree(pins: map<int, Level>, a: Write, b: Write, c: Write)
    ensures Apply(pins, [a, b, c]) == pins[a.pin := a.level][b.pin := b.level][c.pin := c.level]
  {
    var m1 := pins[a.pin := a.level];
    var m2 := m1[b.pin := b.level];
    var m3 := m2[c.pin := c.level];
    assert [a, b, c][1..] == [b, c];
    assert [b, c][1..] == [c];
    assert [c][1..] == [];
    calc {
      Apply(pins, [a, b, c]);
      Apply(m1, [b, c]);
      Apply(m2, [c]);
      Apply(m3, []);
    }
  }

  /** A pin that none of the writes names keeps its level, or stays unset. */
  lemma {:induction false} ApplyUntouched(pins: map<int, Level>, writes: seq<Write>, p: int)
    requires forall i | 0 <= i < |writes| :: writes[i].pin != p
    ensures p in Apply(pins, writes) <==> p in pins
    ensures p in pins ==> Apply(pins, writes)[p] == pins[p]
    decreases writes
  {
    if writes != [] {
      ApplyUntouched(pins[writes[0].pin := writes[0].level], writes[1..], p);
    }
  }

  lemma {:induction false} ApplyConcat(pins: map<int, Level>, a: seq<Write>, b: seq<Write>)
    ensures Apply(pins, a + b) == Apply(Apply(pins, a), b)
    decreases a
  {
    if a != [] {
      assert (a + b)[1..] == a[1..] + b;
      ApplyConcat(pins[a[0].pin := a[0].level], a[1..], b);
    } else {
      assert a + b == b;
    }
  }

  /**
   * Whatever pins the configuration names, even shared ones, unlock leaves
   * each of latch, green and beep at the opposite of the level lock leaves
   * it at, and neither touches any other pin.
   */
  lemma LockUnlockComplement(pins: map<int, Level>, latch: int, green: int, beep: int, v: Level, p: int)
    ensures var locked := Apply(pins, LockWrites(latch, green, beep, v));
            var unlocked := Apply(pins, UnlockWrites(latch, green, beep, v));
      && {latch, green, beep} <= locked.Keys && {latch, green, beep} <= unlocked.Keys
      && (p == latch || p == green || p == beep ==> unlocked[p] == Flip(locked[p]))
      && (p != latch && p != green && p != beep ==>
            (p in locked <==> p in pins) && (p in unlocked <==> p in pins)
            && (p in pins ==> locked[p] == pins[p] && unlocked[p] == pins[p]))
  {
    ApplyThree(pins, Write(latch, Flip(v)), Write(green, v), Write(beep, v));
    ApplyThree(pins, Write(latch, v), Write(green, Flip(v)), Write(beep, Flip(v)));
    if p != latch && p != green && p != beep {
      ApplyUntouched(pins, LockWrites(latch, green, beep, v), p);
      ApplyUntouched(pins, UnlockWrites(latch, green, beep, v), p);
    }
  }

  /**
   * When the latch shares no pin with the lights, lock leaves the latch at
   * the opposite of unlock_value and green and beep at unlock_value.
   */
  lemma LockLevels(pins: map<int, Level>, latch: int, green: int, beep: int, v: Level)
    requires latch != green && latch != beep
    ensures var locked := Apply(pins, LockWrites(latch, green, beep, v));
      && {latch, green, beep} <= locked.Keys
      && locked[latch] == Flip(v) && locked[green] == v && locked[beep] == v
  {
    ApplyThree(pins, Write(latch, Flip(v)), Write(green, v), Write(beep, v));
  }

  /** Locking after unlocking leaves the pins exactly as locking alone would, whatever the pins are. */
  lemma RelockOverridesUnlock(pins: map<int, Level>, latch: int, green: int, beep: int, v: Level)
    ensures Apply(Apply(pins, UnlockWrites(latch, green, beep, v)), LockWrites(latch, green, beep, v))
         == Apply(pins, LockWrites(latch, green, beep, v))
  {
    var u: map<int, Level> := Apply(pins, UnlockWrites(latch, green, beep, v));
    var up: Level, down: Level := v, Flip(v);
    ApplyThree(pins, Write(latch, up), Write(green, down), Write(beep, down));
    assert u == pins[latch := up][green := down][beep := down];
    var after: map<int, Level> := Apply(u, LockWrites(latch, green, beep, v));
    var direct: map<int, Level> := Apply(pins, LockWrites(latch, green, beep, v));
    ApplyThree(u, Write(latch, down), Write(green, up), Write(beep, up));
    ApplyThree(pins, Write(latch, down), Write(green, up), Write(beep, up));
    assert after == u[latch := down][green := up][beep := up];
    assert direct == pins[latch := down][green := up][beep := up];
    assert after.Keys == direct.Keys;
    forall p | p in after ensures after[p] == direct[p] {
    }
  }

  /** One zone's outputs: its three pins, its unlock level and the pins' current levels. */
  class Door {
    const latch: int
    const green: int
    const beep: int
    const unlockValue: Level
    var pins: map<int, Level>
    /** Every GPIO.output performed, in order. */
    ghost var writes: seq<Write>

    function Locking(): seq<Write> { LockWrites(latch, green, beep, unlockValue) }

    function Unlocking(): seq<Write> { UnlockWrites(latch, green, beep, unlockValue) }

    /** init_GPIO: the outputs are set up and the door starts locked. */
    constructor (latch: int, green: int, beep: int, unlockValue: Level, pins: map<int, Level>)
      ensures this.latch == latch && this.green == green && this.beep == beep
      ensures this.unlockValue == unlockValue
      ensures this.pins == Apply(pins, Locking()) && writes == Locking()
    {
      this.latch, this.green, this.beep := latch, green, beep;
      this.unlockValue := unlockValue;
      this.pins := pins;
      writes := [];
      new;
      Lock();
    }

    method Lock()
      modifies this
      ensures pins == Apply(old(pins), Locking())
      ensures writes == old(writes) + Locking()
    {
      pins := pins[latch := Flip(unlockValue)];
      pins := pins[green := unlockValue];
      pins := pins[beep := unlockValue];
      writes := writes + Locking();
      ApplyThree(old(pins), Write(latch, Flip(unlockValue)), Write(green, unlockValue), Write(beep, unlockValue));
    }

    method Unlock()
      modifies this
      ensures pins == Apply(old(pins), Unlocking())
      ensures writes == old(writes) + Unlocking()
    {
      pins := pins[latch := unlockValue];
      pins := pins[green := Flip(unlockValue)];
      pins := pins[beep := Flip(unlockValue)];
      writes := writes + Unlocking();
      ApplyThree(old(pins), Write(latch, unlockValue), Write(green, Flip(unlockValue)), Write(beep, Flip(unlockValue)));
    }

    /**
     * unlock_briefly: unlock, then (after open_delay, not modelled) lock. The
     * outputs pass through the unlocked configuration and always end locked.
     */
    method UnlockBriefly()
      modifies this
      ensures writes == old(writes) + Unlocking() + Locking()
      ensures pins == Apply(old(pins), Unlocking() + Locking())
      ensures pins == Apply(old(pins), Locking())
    {
      Unlock();
      Lock();
      ApplyConcat(old(pins), Unlocking(), Locking());
      RelockOverridesUnlock(old(pins), latch, green, beep, unlockValue);
    }
  }
}
