/** The control logic of gameloop.rb: the four-bit movement-intent mask and its
    resolution into player impulses, the speed setting, the per-frame delay, the
    yes/no-confirmed state changes, the frame loop and the level driver.
    Input, clocks, checkpoints, the player and the map are outside this module:
    what they deliver arrives as parameters (Frame, LevelPlay, checkLevel). */
module GameLoop {
  import opened Movement

  // ----- Movement intent -----

  /** The mask 1 << k of bit k. */
  function BitMask(k: nat): (b: bv4)
    requires k < 4
  {
    if k == 0 then 1 else if k == 1 then 2 else if k == 2 then 4 else 8
  }

  /** Bit k of the intent mask (k is a direction value). */
  predicate Bit(m: bv4, k: nat)
    requires k < 4
  {
    m & BitMask(k) != 0
  }

  /** The intent mask after m of the four one-bit right shifts of calc_movement. */
  function Shifted(c: bv4, m: nat): bv4
    requires m <= 4
  {
    if m == 0 then c else if m == 1 then c >> 1 else if m == 2 then c >> 2 else if m == 3 then c >> 3 else 0
  }

  /** turn_and_move: set the intent bit of direction d, leaving the other bits alone. */
  function WithIntent(m: bv4, d: Dir): (r: bv4)
    ensures Bit(r, d.Value())
    ensures forall k :: 0 <= k < 4 && k != d.Value() ==> (Bit(r, k) <==> Bit(m, k))
    ensures Bit(m, d.Value()) ==> r == m
  {
    m | BitMask(d.Value())
  }

  const EastWest: bv4 := 0xA    // 0b1010
  const NorthSouth: bv4 := 0x5  // 0b0101

  /** The cancellation at the head of calc_movement: an opposite pair that is fully
      set is cleared, a pair with one bit set is left alone. */
  function CancelOpposites(m: bv4): (r: bv4)
    ensures Bit(m, 0) && Bit(m, 2) ==> !Bit(r, 0) && !Bit(r, 2)
    ensures !(Bit(m, 0) && Bit(m, 2)) ==> (Bit(r, 0) <==> Bit(m, 0)) && (Bit(r, 2) <==> Bit(m, 2))
    ensures Bit(m, 1) && Bit(m, 3) ==> !Bit(r, 1) && !Bit(r, 3)
    ensures !(Bit(m, 1) && Bit(m, 3)) ==> (Bit(r, 1) <==> Bit(m, 1)) && (Bit(r, 3) <==> Bit(m, 3))
  {
    var a := if m & EastWest == EastWest then m ^ EastWest else m;
    if a & NorthSouth == NorthSouth then a ^ NorthSouth else a
  }

  /** The set bits of m below position n, in ascending order. */
  function BitsBelow(m: bv4, n: nat): seq<nat>
    requires n <= 4
  {
    if n == 0 then [] else BitsBelow(m, n - 1) + (if Bit(m, n - 1) then [n - 1] else [])
  }

  /** BitsBelow lists exactly the set bits below n, strictly ascending. */
  lemma {:induction false} BitsBelowExact(m: bv4, n: nat)
    requires n <= 4
    ensures forall i :: 0 <= i < |BitsBelow(m, n)| ==> BitsBelow(m, n)[i] < n && Bit(m, BitsBelow(m, n)[i])
    ensures forall i, j :: 0 <= i < j < |BitsBelow(m, n)| ==> BitsBelow(m, n)[i] < BitsBelow(m, n)[j]
    ensures forall b :: 0 <= b < n ==> (b in BitsBelow(m, n) <==> Bit(m, b))
  {
    if n > 0 {
      BitsBelowExact(m, n - 1);
      var prev := BitsBelow(m, n - 1);
      if Bit(m, n - 1) {
        assert BitsBelow(m, n) == prev + [n - 1];
        assert n - 1 !in prev;
      } else {
        assert BitsBelow(m, n) == prev;
      }
    }
  }

  datatype Impulse = MoveForwardImpulse | TurnAround(dir: Dir)

  /** old_turn_and_move(dir): move forward if already facing dir, otherwise turn. */
  function ImpulseFor(k: nat, facing: Dir): (r: Impulse)
    requires k < 4
    ensures r == MoveForwardImpulse <==> facing.Value() == k
    ensures r.TurnAround? ==> r.dir.Value() == k
  {
    if facing.Value() == k then MoveForwardImpulse else TurnAround(DirOf(k))
  }

  /** The impulses calc_movement's four-step loop, which tests bit 0 and then shifts
      the mask right by one, has issued after handling the bits below n. */
  function ImpulsesBelow(m: bv4, facing: Dir, n: nat): seq<Impulse>
    requires n <= 4
  {
    if n == 0 then [] else ImpulsesBelow(m, facing, n - 1) + (if Bit(m, n - 1) then [ImpulseFor(n - 1, facing)] else [])
  }

  /** One impulse per set bit, in ascending bit order, each chosen by old_turn_and_move. */
  lemma {:induction false} ImpulsesFollowBits(m: bv4, facing: Dir, n: nat)
    requires n <= 4
    ensures |ImpulsesBelow(m, facing, n)| == |BitsBelow(m, n)|
    ensures forall i :: 0 <= i < |BitsBelow(m, n)| ==>
              BitsBelow(m, n)[i] < 4 && ImpulsesBelow(m, facing, n)[i] == ImpulseFor(BitsBelow(m, n)[i], facing)
  {
    if n > 0 {
      ImpulsesFollowBits(m, facing, n - 1);
      BitsBelowExact(m, n - 1);
    }
  }

  /** One right shift of the loop: bit 0 of the mask shifted m times is bit m of the original. */
  lemma ShiftStep(c: bv4, m: nat)
    requires m < 4
    ensures (Shifted(c, m) & 1 != 0) <==> Bit(c, m)
    ensures Shifted(c, m) >> 1 == Shifted(c, m + 1)
  {
  }

  /** Holding two opposite keys issues nothing for that axis; holding only
      NORTH and SOUTH issues nothing at all. */
  lemma {:induction false} OppositeKeysCancel(m: bv4, facing: Dir)
    ensures Bit(m, 0) && Bit(m, 2) ==> 0 !in BitsBelow(CancelOpposites(m), 4) && 2 !in BitsBelow(CancelOpposites(m), 4)
    ensures Bit(m, 1) && Bit(m, 3) ==> 1 !in BitsBelow(CancelOpposites(m), 4) && 3 !in BitsBelow(CancelOpposites(m), 4)
    ensures ImpulsesBelow(CancelOpposites(NorthSouth), facing, 4) == []
  {
    BitsBelowExact(CancelOpposites(m), 4);
    var c := CancelOpposites(NorthSouth);
    assert !Bit(c, 0) && !Bit(c, 1) && !Bit(c, 2) && !Bit(c, 3);
    assert ImpulsesBelow(c, facing, 1) == [];
    assert ImpulsesBelow(c, facing, 2) == [];
    assert ImpulsesBelow(c, facing, 3) == [];
  }

  // ----- Game speed -----

  const InitialDelay := 50
  const MinDelay := 10
  const MaxDelay := 100
  const DelayStep := 5

  predicate ValidDelay(d: int)
  {
    MinDelay <= d <= MaxDelay && d % DelayStep == 0
  }

  /** increase_speed shortens the frame delay by one step while it is above 10. */
  function SpeedUp(d: int): (r: int)
    ensures r == d <==> d <= MinDelay
    ensures r != d ==> r == d - DelayStep
    ensures ValidDelay(d) ==> ValidDelay(r)
  {
    if d > MinDelay then d - DelayStep else d
  }

  /** decrease_speed lengthens it by one step while it is below 100. */
  function SlowDown(d: int): (r: int)
    ensures r == d <==> d >= MaxDelay
    ensures r != d ==> r == d + DelayStep
    ensures ValidDelay(d) ==> ValidDelay(r)
  {
    if d < MaxDelay then d + DelayStep else d
  }

  /** The input commands this model dispatches: the four movement keys, the two
      confirmed commands with the player's yes/no answer, and the speed keys. */
  datatype Command = Move(d: Dir) | Quit(yes: bool) | Restart(yes: bool) | Faster | Slower

  function DelayAfterCommand(d: int, c: Command): int
  {
    match c
    case Faster => SpeedUp(d)
    case Slower => SlowDown(d)
    case _ => d
  }

  function DelayAfter(d: int, cs: seq<Command>): int
    decreases |cs|
  {
    if cs == [] then d else DelayAfterCommand(DelayAfter(d, cs[..|cs| - 1]), cs[|cs| - 1])
  }

  /** From any valid delay, in particular from the initial 50, every sequence of
      speed keys keeps the delay a multiple of 5 within [10, 100]. */
  lemma {:induction false} DelayStaysValid(d: int, cs: seq<Command>)
    requires ValidDelay(d)
    ensures ValidDelay(DelayAfter(d, cs))
    decreases |cs|
  {
    if cs != [] {
      DelayStaysValid(d, cs[..|cs| - 1]);
    }
  }

  // ----- Frame pacing -----

  /** The SDL.delay call at the end of a frame, if any. */
  function FrameSleep(gameDelay: int, timeStart: int, timeEnd: int): (r: Option<int>)
    ensures r.Some? <==> timeEnd - timeStart < gameDelay
    ensures r.Some? ==> r.value > 0 && r.value + (timeEnd - timeStart) == gameDelay
    ensures r.Some? && timeEnd >= timeStart ==> r.value <= gameDelay
  {
    var delay := gameDelay + timeStart - timeEnd;
    if delay > 0 then Some(delay) else None
  }

  // ----- Game states -----

  /** The game's state; Unset is its value before the first game_loop. */
  datatype GameState = Unset | Running | NextLevel | RestartLevel | PlayerDied | StoppedGame | Endgame

  /** The states after which start's begin...end while loop plays again. */
  predicate Continues(s: GameState)
  {
    s == NextLevel || s == RestartLevel || s == PlayerDied
  }

  /** really_do?: the block runs, setting the target state, only on a yes. */
  function Confirmed(s: GameState, yes: bool, target: GameState): (r: GameState)
    ensures yes ==> r == target
    ensures !yes ==> r == s
  {
    if yes then target else s
  }

  function StateAfterCommand(s: GameState, c: Command): GameState
  {
    match c
    case Quit(yes) => Confirmed(s, yes, StoppedGame)
    case Restart(yes) => Confirmed(s, yes, RestartLevel)
    case _ => s
  }

  function StateAfter(s: GameState, cs: seq<Command>): GameState
    decreases |cs|
  {
    if cs == [] then s else StateAfterCommand(StateAfter(s, cs[..|cs| - 1]), cs[|cs| - 1])
  }

  function MaskAfterCommand(m: bv4, c: Command): bv4
  {
    match c
    case Move(d) => WithIntent(m, d)
    case _ => m
  }

  function MaskAfter(m: bv4, cs: seq<Command>): bv4
    decreases |cs|
  {
    if cs == [] then m else MaskAfterCommand(MaskAfter(m, cs[..|cs| - 1]), cs[|cs| - 1])
  }

  /** A movement key for direction value k was pressed among the commands. */
  predicate Held(cs: seq<Command>, k: nat)
    requires k < 4
  {
    exists i :: 0 <= i < |cs| && cs[i] == Move(DirOf(k))
  }

  /** Starting from the cleared mask, bit k is set exactly when its key was pressed. */
  lemma {:induction false} MaskRecordsKeys(cs: seq<Command>)
    ensures forall k :: 0 <= k < 4 ==> (Bit(MaskAfter(0, cs), k) <==> Held(cs, k))
    decreases |cs|
  {
    if cs == [] {
      assert forall k :: 0 <= k < 4 ==> !Bit(0, k);
    } else {
      var init := cs[..|cs| - 1];
      MaskRecordsKeys(init);
      forall k | 0 <= k < 4
        ensures Bit(MaskAfter(0, cs), k) <==> Held(cs, k)
      {
        if Held(init, k) {
          var i :| 0 <= i < |init| && init[i] == Move(DirOf(k));
          assert cs[i] == init[i];
        }
        if Held(cs, k) && !Held(init, k) {
          var i :| 0 <= i < |cs| && cs[i] == Move(DirOf(k));
          assert i == |init|;
        }
      }
    }
  }

  /** Over one frame, an impulse is issued for direction value k exactly when its key
      was pressed and the opposite key was not. */
  lemma IssuedDirections(cs: seq<Command>)
    ensures forall k :: 0 <= k < 4 ==>
              (k in BitsBelow(CancelOpposites(MaskAfter(0, cs)), 4) <==> Held(cs, k) && !Held(cs, (k + 2) % 4))
  {
    var m := MaskAfter(0, cs);
    var c := CancelOpposites(m);
    MaskRecordsKeys(cs);
    BitsBelowExact(c, 4);
    forall k | 0 <= k < 4
      ensures k in BitsBelow(c, 4) <==> Held(cs, k) && !Held(cs, (k + 2) % 4)
    {
      CancelBit(m, k);
    }
  }

  /** CancelOpposites, bit by bit: bit k survives iff it was set and its opposite was not. */
  lemma CancelBit(m: bv4, k: nat)
    requires k < 4
    ensures Bit(CancelOpposites(m), k) <==> Bit(m, k) && !Bit(m, (k + 2) % 4)
  {
  }

  /** Without a yes to a confirmed command, the input leaves the state alone; with
      one, the state is no longer Running. */
  lemma {:induction false} InputStateChange(s: GameState, cs: seq<Command>)
    ensures (forall i :: 0 <= i < |cs| ==> !(cs[i].Quit? && cs[i].yes) && !(cs[i].Restart? && cs[i].yes))
            ==> StateAfter(s, cs) == s
    ensures (exists i :: 0 <= i < |cs| && ((cs[i].Quit? && cs[i].yes) || (cs[i].Restart? && cs[i].yes)))
            ==> StateAfter(s, cs) in {StoppedGame, RestartLevel}
    decreases |cs|
  {
    if cs != [] {
      var init := cs[..|cs| - 1];
      InputStateChange(s, init);
      forall i | 0 <= i < |init| ensures init[i] == cs[i] {
      }
      if (exists i :: 0 <= i < |cs| && ((cs[i].Quit? && cs[i].yes) || (cs[i].Restart? && cs[i].yes))) {
        var i :| 0 <= i < |cs| && ((cs[i].Quit? && cs[i].yes) || (cs[i].Restart? && cs[i].yes));
        if i < |init| {
          assert init[i] == cs[i];
        }
      }
    }
  }

  /** What the player and entity ticks and the input deliver during one frame. */
  datatype Frame = Frame(commands: seq<Command>, facing: Dir, thrown: Option<GameState>,
                         timeStart: int, timeEnd: int)

  /** The game's state at the end of a frame that started in state s: a throw of
      :state_change wins, otherwise what the commands left. */
  function FrameOutcome(s: GameState, f: Frame): GameState
  {
    if f.thrown.Some? then f.thrown.value else StateAfter(s, f.commands)
  }

  /** The impulses calc_movement issues in a frame. */
  function FrameImpulses(f: Frame): seq<Impulse>
  {
    ImpulsesBelow(CancelOpposites(MaskAfter(0, f.commands)), f.facing, 4)
  }

  /** The SDL.delay call of a frame as a list of zero or one argument. */
  function SleepOf(o: Option<int>): seq<int>
  {
    match o
    case Some(t) => [t]
    case None => []
  }

  /** The game delay after the speed keys of a series of frames. */
  function DelayAfterFrames(d: int, fs: seq<Frame>): int
    decreases |fs|
  {
    if fs == [] then d else DelayAfter(DelayAfterFrames(d, fs[..|fs| - 1]), fs[|fs| - 1].commands)
  }

  /** The impulses issued over a series of frames, oldest first. */
  function ImpulsesOfFrames(fs: seq<Frame>): seq<Impulse>
    decreases |fs|
  {
    if fs == [] then [] else ImpulsesOfFrames(fs[..|fs| - 1]) + FrameImpulses(fs[|fs| - 1])
  }

  /** The SDL.delay arguments over a series of frames started with delay d: each
      frame sleeps by the delay its own speed keys left. */
  function SleepsOfFrames(d: int, fs: seq<Frame>): seq<int>
    decreases |fs|
  {
    if fs == [] then []
    else
      var last := fs[|fs| - 1];
      SleepsOfFrames(d, fs[..|fs| - 1]) + SleepOf(FrameSleep(DelayAfterFrames(d, fs), last.timeStart, last.timeEnd))
  }

  /** Every one of these frames, played from Running, left the game Running. */
  predicate KeptRunning(fs: seq<Frame>)
  {
    forall k :: 0 <= k < |fs| ==> FrameOutcome(Running, fs[k]) == Running
  }

  /** Appending a frame to a series extends the three folds by that frame. */
  lemma FramesSnoc(d: int, fs: seq<Frame>, f: Frame)
    ensures DelayAfterFrames(d, fs + [f]) == DelayAfter(DelayAfterFrames(d, fs), f.commands)
    ensures ImpulsesOfFrames(fs + [f]) == ImpulsesOfFrames(fs) + FrameImpulses(f)
    ensures SleepsOfFrames(d, fs + [f])
         == SleepsOfFrames(d, fs) + SleepOf(FrameSleep(DelayAfterFrames(d, fs + [f]), f.timeStart, f.timeEnd))
  {
    assert (fs + [f])[..|fs + [f]| - 1] == fs;
  }

  /** Over any series of frames the delay stays valid, every sleep is positive, and
      while the clock does not run backwards no sleep is longer than 100 ms. */
  lemma {:induction false} FramesKeepPacing(d: int, fs: seq<Frame>)
    requires ValidDelay(d)
    ensures ValidDelay(DelayAfterFrames(d, fs))
    ensures forall i :: 0 <= i < |SleepsOfFrames(d, fs)| ==> SleepsOfFrames(d, fs)[i] > 0
    ensures (forall j :: 0 <= j < |fs| ==> fs[j].timeStart <= fs[j].timeEnd) ==>
              forall i :: 0 <= i < |SleepsOfFrames(d, fs)| ==> SleepsOfFrames(d, fs)[i] <= MaxDelay
    decreases |fs|
  {
    if fs != [] {
      var init := fs[..|fs| - 1];
      var last := fs[|fs| - 1];
      FramesKeepPacing(d, init);
      DelayStaysValid(DelayAfterFrames(d, init), last.commands);
      if forall j :: 0 <= j < |fs| ==> fs[j].timeStart <= fs[j].timeEnd {
        assert forall j :: 0 <= j < |init| ==> init[j].timeStart <= init[j].timeEnd by {
          forall j | 0 <= j < |init| ensures init[j].timeStart <= init[j].timeEnd {
            assert init[j] == fs[j];
          }
        }
      }
    }
  }

  // ----- Level driver -----

  /** The player status saved at a checkpoint; its contents are not modelled. */
  datatype Checkpoint = Checkpoint(blob: seq<int>)

  /** The case statement of start, applied to the state game_loop returned.
      checkLevel is the game configuration's check_level. */
  function AfterLevel(s: GameState, level: int, restart: Option<Checkpoint>, saved: Option<Checkpoint>,
                      checkLevel: int -> bool): (r: (GameState, int, Option<Checkpoint>))
    ensures s == NextLevel ==> r.1 == level + 1 && (r.0 == Endgame <==> !checkLevel(level + 1))
    ensures s != NextLevel ==> r.0 == s && r.1 == level
    ensures (s == RestartLevel || s == PlayerDied) ==> r.2 == saved
    ensures !(s == RestartLevel || s == PlayerDied) ==> r.2 == restart
    ensures Continues(r.0) <==> Continues(s) && !(s == NextLevel && !checkLevel(level + 1))
  {
    match s
    case NextLevel =>
      var next := level + 1;
      (if checkLevel(next) then s else Endgame, next, restart)
    case RestartLevel => (s, level, saved)
    case PlayerDied => (s, level, saved)
    case _ => (s, level, restart)
  }

  /** One level played: the map for it is loaded with the given checkpoint
      snapshot, then its frames run. */
  datatype LevelPlay = LevelPlay(snapshot: Checkpoint, frames: seq<Frame>)

  class Game {
    var movement: bv4
    var gameDelay: int
    var level: int
    var state: GameState
    var restartStatus: Option<Checkpoint>
    var savedStatus: Option<Checkpoint>
    /** The impulses handed to the player with add_impulse, oldest first. */
    var impulses: seq<Impulse>
    /** The SDL.delay calls made at the end of frames, oldest first. */
    var sleeps: seq<int>

    ghost predicate Valid()
      reads this
    {
      ValidDelay(gameDelay)
    }

    /** GameLoop.new(game_config, level, player_status). */
    constructor (level: int, playerStatus: Option<Checkpoint>)
      ensures Valid() && gameDelay == InitialDelay
      ensures this.level == level && restartStatus == playerStatus && state == Unset
      ensures savedStatus == None && movement == 0 && impulses == [] && sleeps == []
    {
      movement := 0;
      gameDelay := InitialDelay;
      this.level := level;
      state := Unset;
      restartStatus := playerStatus;
      savedStatus := None;
      impulses := [];
      sleeps := [];
    }

    method TurnAndMove(d: Dir)
      modifies this`movement
      ensures movement == WithIntent(old(movement), d)
    {
      var bit: bv4 := 1 << d.Value();
      assert bit == BitMask(d.Value());
      movement := movement | bit;
    }

    method OldTurnAndMove(dir: nat, facing: Dir)
      requires dir < 4
      modifies this`impulses
      ensures impulses == old(impulses) + [ImpulseFor(dir, facing)]
    {
      if facing.Value() == dir {
        impulses := impulses + [MoveForwardImpulse];
      } else {
        impulses := impulses + [TurnAround(DirOf(dir))];
      }
    }

    /** The first half of calc_movement. */
    method CancelOppositeMoves()
      modifies this`movement
      ensures movement == CancelOpposites(old(movement))
    {
      if movement & EastWest == EastWest {
        movement := movement ^ EastWest;
      }
      if movement & NorthSouth == NorthSouth {
        movement := movement ^ NorthSouth;
      }
    }

    /** calc_movement; facing is the player's direction. */
    method CalcMovement(facing: Dir)
      modifies this`movement, this`impulses
      ensures movement == 0
      ensures impulses == old(impulses) + ImpulsesBelow(CancelOpposites(old(movement)), facing, 4)
    {
      CancelOppositeMoves();
      ghost var c := movement;
      var m := 0;
      while m < 4
        invariant 0 <= m <= 4
        invariant movement == Shifted(c, m)
        invariant impulses == old(impulses) + ImpulsesBelow(c, facing, m)
      {
        ShiftStep(c, m);
        if movement & 1 != 0 {
          OldTurnAndMove(m, facing);
        }
        movement := movement >> 1;
        m := m + 1;
      }
    }

    /** really_do?: the state becomes target when the player answers yes, and stays as it
        was otherwise. */
    method ReallyDo(yes: bool, target: GameState)
      modifies this`state
      ensures state == Confirmed(old(state), yes, target)
    {
      if yes {
        state := target;
      }
    }

    method Escape(yes: bool)
      modifies this`state
      ensures yes ==> state == StoppedGame
      ensures !yes ==> state == old(state)
    {
      ReallyDo(yes, StoppedGame);
    }

    method RestartLevelCommand(yes: bool)
      modifies this`state
      ensures yes ==> state == RestartLevel
      ensures !yes ==> state == old(state)
    {
      ReallyDo(yes, RestartLevel);
    }

    method IncreaseSpeed()
      modifies this`gameDelay
      ensures gameDelay == SpeedUp(old(gameDelay))
    {
      if gameDelay > MinDelay {
        gameDelay := gameDelay - DelayStep;
      }
    }

    method DecreaseSpeed()
      modifies this`gameDelay
      ensures gameDelay == SlowDown(old(gameDelay))
    {
      if gameDelay < MaxDelay {
        gameDelay := gameDelay + DelayStep;
      }
    }

    /** The dispatch of one command by check_input. */
    method Dispatch(c: Command)
      modifies this`movement, this`state, this`gameDelay
      ensures movement == MaskAfterCommand(old(movement), c)
      ensures state == StateAfterCommand(old(state), c)
      ensures gameDelay == DelayAfterCommand(old(gameDelay), c)
    {
      match c
      case Move(d) => TurnAndMove(d);
      case Quit(yes) => Escape(yes);
      case Restart(yes) => RestartLevelCommand(yes);
      case Faster => IncreaseSpeed();
      case Slower => DecreaseSpeed();
    }

    /** check_input for one frame: the commands in the order they arrive. */
    method CheckInput(cs: seq<Command>)
      modifies this`movement, this`state, this`gameDelay
      ensures movement == MaskAfter(old(movement), cs)
      ensures state == StateAfter(old(state), cs)
      ensures gameDelay == DelayAfter(old(gameDelay), cs)
    {
      var i := 0;
      while i < |cs|
        invariant 0 <= i <= |cs|
        invariant movement == MaskAfter(old(movement), cs[..i])
        invariant state == StateAfter(old(state), cs[..i])
        invariant gameDelay == DelayAfter(old(gameDelay), cs[..i])
      {
        assert cs[..i + 1][..i] == cs[..i];
        Dispatch(cs[i]);
        i := i + 1;
      }
      assert cs[..|cs|] == cs;
    }

    /** One pass of the while loop in game_loop. */
    method PlayFrame(f: Frame)
      modifies this`movement, this`state, this`gameDelay, this`impulses, this`sleeps
      ensures movement == 0
      ensures state == FrameOutcome(old(state), f)
      ensures gameDelay == DelayAfter(old(gameDelay), f.commands)
      ensures impulses == old(impulses) + FrameImpulses(f)
      ensures sleeps == old(sleeps) + SleepOf(FrameSleep(gameDelay, f.timeStart, f.timeEnd))
    {
      movement := 0;
      CheckInput(f.commands);
      CalcMovement(f.facing);
      if f.thrown.Some? {
        state := f.thrown.value;
      }
      var delay := gameDelay + f.timeStart - f.timeEnd;
      if delay > 0 {
        sleeps := sleeps + [delay];
      }
    }

    /** One pass of game_loop's while loop over frames[i], keeping the frame folds. */
    method PlayNextFrame(frames: seq<Frame>, i: nat, ghost d0: int, ghost i0: seq<Impulse>, ghost s0: seq<int>)
      requires i < |frames| && Valid()
      requires gameDelay == DelayAfterFrames(d0, frames[..i])
      requires impulses == i0 + ImpulsesOfFrames(frames[..i])
      requires sleeps == s0 + SleepsOfFrames(d0, frames[..i])
      modifies this`movement, this`state, this`gameDelay, this`impulses, this`sleeps
      ensures Valid() && movement == 0
      ensures state == FrameOutcome(old(state), frames[i])
      ensures gameDelay == DelayAfterFrames(d0, frames[..i + 1])
      ensures impulses == i0 + ImpulsesOfFrames(frames[..i + 1])
      ensures sleeps == s0 + SleepsOfFrames(d0, frames[..i + 1])
    {
      var f := frames[i];
      assert frames[..i + 1] == frames[..i] + [f];
      FramesSnoc(d0, frames[..i], f);
      DelayStaysValid(gameDelay, f.commands);
      PlayFrame(f);
    }

    /** game_loop over the frames the input supplies: it runs while the state is
        Running and returns after the first frame that changes it. */
    method RunGameLoop(frames: seq<Frame>) returns (played: nat)
      requires Valid()
      modifies this`movement, this`state, this`gameDelay, this`impulses, this`sleeps
      ensures Valid() && movement == 0
      ensures played <= |frames|
      ensures played < |frames| ==> state != Running
      ensures played == 0 ==> state == Running
      ensures played > 0 ==> state == FrameOutcome(Running, frames[played - 1])
      ensures played > 0 ==> KeptRunning(frames[..played - 1])
      ensures gameDelay == DelayAfterFrames(old(gameDelay), frames[..played])
      ensures impulses == old(impulses) + ImpulsesOfFrames(frames[..played])
      ensures sleeps == old(sleeps) + SleepsOfFrames(old(gameDelay), frames[..played])
    {
      ghost var d0, i0, s0 := gameDelay, impulses, sleeps;
      state := Running;
      movement := 0;
      played := 0;
      while state == Running && played < |frames|
        invariant played <= |frames|
        invariant Valid() && movement == 0
        invariant played == 0 ==> state == Running
        invariant played > 0 ==> state == FrameOutcome(Running, frames[played - 1])
        invariant played > 0 ==> KeptRunning(frames[..played - 1])
        invariant gameDelay == DelayAfterFrames(d0, frames[..played])
        invariant impulses == i0 + ImpulsesOfFrames(frames[..played])
        invariant sleeps == s0 + SleepsOfFrames(d0, frames[..played])
      {
        if played > 0 {
          assert frames[..played] == frames[..played - 1] + [frames[played - 1]];
        }
        PlayNextFrame(frames, played, d0, i0, s0);
        played := played + 1;
      }
    }

    /** The bookkeeping of load_map: the level is recorded, the pending restart
        status is handed to the player's reset (returned here) and cleared, and the
        player's status as loaded becomes the saved checkpoint. */
    method LoadMap(lvl: int, snapshot: Checkpoint) returns (resetWith: Option<Checkpoint>)
      modifies this`level, this`restartStatus, this`savedStatus
      ensures level == lvl && resetWith == old(restartStatus)
      ensures restartStatus == None && savedStatus == Some(snapshot)
    {
      level := lvl;
      resetWith := restartStatus;
      restartStatus := None;
      savedStatus := Some(snapshot);
    }

    /** The case statement after game_loop in start. */
    method LevelTransition(checkLevel: int -> bool)
      modifies this`level, this`state, this`restartStatus
      ensures (state, level, restartStatus) == AfterLevel(old(state), old(level), old(restartStatus), savedStatus, checkLevel)
    {
      match state
      case NextLevel =>
        level := level + 1;
        if !checkLevel(level) {
          state := Endgame;
        }
      case RestartLevel =>
        restartStatus := savedStatus;
      case PlayerDied =>
        restartStatus := savedStatus;
      case _ =>
    }

    /** start: play levels while the last one ended in next_level, restart_level or
        player_died; plays supplies, per level played, the loaded player status
        and the frames of input. */
    method Start(plays: seq<LevelPlay>, checkLevel: int -> bool) returns (played: nat)
      requires Valid()
      modifies this
      ensures Valid()
      ensures played <= |plays| && (plays != [] ==> played >= 1)
      ensures 0 < played < |plays| ==> !Continues(state)
      ensures level >= old(level)
    {
      played := 0;
      var again := true;
      while again && played < |plays|
        invariant played <= |plays|
        invariant Valid()
        invariant level >= old(level)
        invariant played > 0 && played < |plays| && !again ==> !Continues(state)
        invariant played == 0 ==> again
        invariant again ==> (played == 0 || Continues(state))
      {
        var _ := LoadMap(level, plays[played].snapshot);
        var _ := RunGameLoop(plays[played].frames);
        LevelTransition(checkLevel);
        played := played + 1;
        again := Continues(state);
      }
    }
  }
}
