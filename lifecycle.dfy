/** The numeric rules of entity.rb, stated as functions over plain values:
    clamping of life and mana, the three-way death signal of add_life, the
    missile's lifespan counter and the monsters' sleep gate. The classes in
    module Entity update their fields exactly as these functions say. */
module Lifecycle {

  const MaxLife := 100
  const MaxMana := 100

  /** The result of add_life: :died, :dead, or nil. */
  datatype LifeSignal = Died | Dead | NoSignal

  /** Life after add_life(diff): capped at MaxLife, and 0 once it reaches 0 or below. */
  function LifeAfter(life: int, diff: int): (r: int)
    ensures 0 <= r <= MaxLife
    ensures r == 0 <==> life + diff <= 0
    ensures 0 < life + diff <= MaxLife ==> r == life + diff
    ensures life + diff > MaxLife ==> r == MaxLife
  {
    var raised := life + diff;
    var capped := if raised > MaxLife then MaxLife else raised;
    if capped <= 0 then 0 else capped
  }

  /** The value add_life returns. */
  function Signal(life: int, diff: int): (s: LifeSignal)
    ensures s == Died <==> life > 0 && LifeAfter(life, diff) == 0
    ensures s == Dead <==> life <= 0 && LifeAfter(life, diff) == 0
    ensures s == NoSignal <==> LifeAfter(life, diff) > 0
  {
    if life + diff > 0 then NoSignal else if life > 0 then Died else Dead
  }

  /** Mana after add_mana(diff): never below 0, never above MaxMana. */
  function ManaAfter(mana: int, diff: int): (r: int)
    ensures 0 <= r <= MaxMana
    ensures 0 <= mana + diff <= MaxMana ==> r == mana + diff
    ensures mana + diff < 0 ==> r == 0
    ensures mana + diff > MaxMana ==> r == MaxMana
  {
    var m := mana + diff;
    var m' := if m < 0 then 0 else m;
    if m' > MaxMana then MaxMana else m'
  }

  /** Life after a whole series of add_life calls. */
  function LifeAfterAll(life: int, diffs: seq<int>): int
    decreases |diffs|
  {
    if diffs == [] then life else LifeAfterAll(LifeAfter(life, diffs[0]), diffs[1..])
  }

  /** The signals a series of add_life calls returns, in order. */
  function Signals(life: int, diffs: seq<int>): (ss: seq<LifeSignal>)
    ensures |ss| == |diffs|
    decreases |diffs|
  {
    if diffs == [] then []
    else [Signal(life, diffs[0])] + Signals(LifeAfter(life, diffs[0]), diffs[1..])
  }

  function CountDied(ss: seq<LifeSignal>): nat
  {
    if ss == [] then 0 else (if ss[0] == Died then 1 else 0) + CountDied(ss[1..])
  }

  predicate AllHits(diffs: seq<int>)
  {
    forall i :: 0 <= i < |diffs| ==> diffs[i] <= 0
  }

  /** A being that is already dead reports :dead to every further hit. */
  lemma {:induction false} DeadStaysDead(life: int, diffs: seq<int>)
    requires life <= 0
    requires AllHits(diffs)
    ensures forall i :: 0 <= i < |diffs| ==> Signals(life, diffs)[i] == Dead
    ensures LifeAfterAll(life, diffs) == 0 || diffs == []
    decreases |diffs|
  {
    if diffs != [] {
      assert AllHits(diffs[1..]) by {
        forall i | 0 <= i < |diffs[1..]| ensures diffs[1..][i] <= 0 {
          assert diffs[1..][i] == diffs[i + 1];
        }
      }
      DeadStaysDead(LifeAfter(life, diffs[0]), diffs[1..]);
    }
  }

  /** Across any series of hits, :died is reported at most once, and exactly once
      when the being was alive and the hits finished it. */
  lemma {:induction false} DiedAtMostOnce(life: int, diffs: seq<int>)
    requires AllHits(diffs)
    ensures CountDied(Signals(life, diffs)) <= 1
    ensures CountDied(Signals(life, diffs)) == 1 <==> life > 0 && LifeAfterAll(life, diffs) == 0
    decreases |diffs|
  {
    if diffs != [] {
      var next := LifeAfter(life, diffs[0]);
      assert AllHits(diffs[1..]) by {
        forall i | 0 <= i < |diffs[1..]| ensures diffs[1..][i] <= 0 {
          assert diffs[1..][i] == diffs[i + 1];
        }
      }
      var ss := Signals(life, diffs);
      assert ss[1..] == Signals(next, diffs[1..]);
      if next <= 0 {
        DeadStaysDead(next, diffs[1..]);
        NoDiedInDeadRun(Signals(next, diffs[1..]));
        if diffs[1..] == [] {
          assert LifeAfterAll(next, diffs[1..]) == next;
        }
      } else {
        DiedAtMostOnce(next, diffs[1..]);
      }
    }
  }

  lemma {:induction false} NoDiedInDeadRun(ss: seq<LifeSignal>)
    requires forall i :: 0 <= i < |ss| ==> ss[i] == Dead
    ensures CountDied(ss) == 0
    decreases |ss|
  {
    if ss != [] {
      NoDiedInDeadRun(ss[1..]);
    }
  }

  // ----- Missiles -----

  /** How far a missile goes: its movement counter at creation. */
  const MissileRange := 10
  /** The score a caster gains when its missile kills a monster. */
  const KillScore := 10

  /** A free missile tick: one movement is spent, the move is attempted, and the
      missile survives only if the move succeeded and movements remain. */
  function FlyStep(movements: int, moved: bool): (r: (bool, int))
    ensures r.1 == movements - 1
    ensures r.0 <==> moved && r.1 >= 1
  {
    var left := movements - 1;
    (!(!moved || left < 1), left)
  }

  /** The number of moving ticks a live missile makes when every tick is free;
      moves[i] says whether the i-th move attempt succeeds. */
  function FlightTicks(movements: int, moves: seq<bool>): nat
    decreases |moves|
  {
    if moves == [] then 0
    else
      var (alive, left) := FlyStep(movements, moves[0]);
      1 + (if alive then FlightTicks(left, moves[1..]) else 0)
  }

  /** A missile with n movements left makes at most n moving ticks (at least the one
      it is given); one created with MissileRange makes at most MissileRange. */
  lemma {:induction false} FlightBounded(movements: int, moves: seq<bool>)
    ensures FlightTicks(movements, moves) <= if movements < 1 then 1 else movements
    decreases |moves|
  {
    if moves != [] {
      var (alive, left) := FlyStep(movements, moves[0]);
      if alive {
        FlightBounded(left, moves[1..]);
      }
    }
  }

  /** Unobstructed, a missile makes exactly as many moving ticks as it has movements. */
  lemma {:induction false} FlightUnobstructed(movements: int, moves: seq<bool>)
    requires 1 <= movements <= |moves|
    requires forall i :: 0 <= i < |moves| ==> moves[i]
    ensures FlightTicks(movements, moves) == movements
    decreases movements
  {
    var (alive, left) := FlyStep(movements, moves[0]);
    if alive {
      FlightUnobstructed(left, moves[1..]);
    }
  }

  // ----- Eyeball lifespan -----

  /** How far the Eyeball goes: its movement counter at creation. */
  const EyeballRange := 50

  /** One Eyeball tick before the astral body's own: one movement is spent and the
      eye is removed once fewer than one remain. r.0 says whether it is still active. */
  function EyeStep(movements: int, active: bool): (r: (bool, int))
    ensures r.1 == movements - 1
    ensures r.0 <==> active && r.1 >= 1
  {
    var left := movements - 1;
    (active && !(left < 1), left)
  }

  /** The Eyeball's (active, movements) after n ticks. */
  function EyeState(movements: int, active: bool, n: nat): (bool, int)
    decreases n
  {
    if n == 0 then (active, movements)
    else
      var before := EyeState(movements, active, n - 1);
      EyeStep(before.1, before.0)
  }

  /** An active Eyeball with m >= 1 movements is still active after n ticks exactly
      when n < m; created with 50, it is inactive from its 50th tick on. */
  lemma {:induction false} EyeballLifespan(movements: int, n: nat)
    requires movements >= 1
    ensures EyeState(movements, true, n).1 == movements - n
    ensures EyeState(movements, true, n).0 <==> n < movements
    decreases n
  {
    if n > 0 {
      EyeballLifespan(movements, n - 1);
    }
  }

  /** The number of ticks in which the Eyeball moves: it is still active after its
      own decrement and the tile has mana (haveMana[i] for the i-th tick). */
  function EyeMoves(movements: int, active: bool, haveMana: seq<bool>): nat
    decreases |haveMana|
  {
    if haveMana == [] then 0
    else
      var (live, left) := EyeStep(movements, active);
      (if live && haveMana[0] then 1 else 0) + EyeMoves(left, live, haveMana[1..])
  }

  /** An Eyeball with m movements moves at most m - 1 times; created with 50, at
      most 49 times. An inactive one never moves. */
  lemma {:induction false} EyeballMovesBounded(movements: int, active: bool, haveMana: seq<bool>)
    ensures EyeMoves(movements, active, haveMana) <= if active && movements >= 1 then movements - 1 else 0
    decreases |haveMana|
  {
    if haveMana != [] {
      var (live, left) := EyeStep(movements, active);
      EyeballMovesBounded(left, live, haveMana[1..]);
    }
  }

  /** With mana on every tick, an Eyeball with m >= 1 movements moves exactly m - 1
      times: 49 for a fresh one. */
  lemma {:induction false} EyeballMovesExact(movements: int, haveMana: seq<bool>)
    requires 1 <= movements && movements - 1 <= |haveMana|
    requires forall i :: 0 <= i < |haveMana| ==> haveMana[i]
    ensures EyeMoves(movements, true, haveMana) == movements - 1
    decreases movements
  {
    if haveMana != [] {
      var (live, left) := EyeStep(movements, true);
      if live {
        EyeballMovesExact(left, haveMana[1..]);
      } else {
        EyeballMovesBounded(left, live, haveMana[1..]);
      }
    }
  }

  // ----- Monster sleep gate -----

  /** Sleep after a successful move, both monster kinds. */
  const ActedSleep := 8
  /** DumbMonster's sleep after a failed move. */
  const TurnedSleep := 4
  /** OriginalMotionMonster's sleep after a failed move. */
  const RetrySleep := 2

  /** Both monster kinds decrement sleep every tick and act once it is negative. */
  predicate ActsThisTick(sleep: int)
  {
    sleep - 1 < 0
  }

  /** The number of ticks that pass without action before a monster with this
      sleep value acts. */
  function IdleTicks(sleep: int): (n: nat)
    ensures n == if sleep > 0 then sleep else 0
    decreases sleep
  {
    if ActsThisTick(sleep) then 0 else 1 + IdleTicks(sleep - 1)
  }

  /** OriginalMotionMonster's first sleep, (x.hash + y.hash) & 7, given the two
      hash values; Dafny's % agrees with Ruby's & 7 for negative sums too. */
  function InitialSleep(xHash: int, yHash: int): (s: int)
    ensures 0 <= s <= 7
    ensures (xHash + yHash - s) % 8 == 0
  {
    (xHash + yHash) % 8
  }
}
