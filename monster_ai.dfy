/** OriginalMotionMonster's desire-scored direction choice (entity.rb:317-380),
    ported in the source from Pascal. Desires are indexed by direction value
    N=0, E=1, S=2, W=3. The four random base scores are inputs. */
module MonsterAI {
  import opened Movement

  const BaseMin := 175
  const BaseMax := 209
  const TowardBonus := 1000
  const AwayPenalty := 200
  const StraightBonus := 15
  /** The running maximum starts here (mp = -3000). */
  const Floor := -3000

  /** The random base score of each of the four directions: between 175 and 209. */
  predicate BaseScores(jp: seq<int>)
  {
    |jp| == 4 && forall i :: 0 <= i < 4 ==> BaseMin <= jp[i] <= BaseMax
  }

  /** The player-relative bias, applied in the source's order (vertical, then horizontal). */
  function Biased(jp: seq<int>, monster: Pos, player: Pos): (r: seq<int>)
    requires |jp| == 4
    ensures |r| == 4
    ensures r[North.Value()] == jp[0] + (if player.y < monster.y then TowardBonus else 0)
                                      - (if player.y > monster.y then AwayPenalty else 0)
    ensures r[South.Value()] == jp[2] + (if player.y > monster.y then TowardBonus else 0)
                                      - (if player.y < monster.y then AwayPenalty else 0)
    ensures r[East.Value()] == jp[1] + (if player.x > monster.x then TowardBonus else 0)
                                     - (if player.x < monster.x then AwayPenalty else 0)
    ensures r[West.Value()] == jp[3] + (if player.x < monster.x then TowardBonus else 0)
                                     - (if player.x > monster.x then AwayPenalty else 0)
  {
    var a := if player.y < monster.y then jp[0 := jp[0] + TowardBonus][2 := jp[2] - AwayPenalty] else jp;
    var b := if player.y > monster.y then a[2 := a[2] + TowardBonus][0 := a[0] - AwayPenalty] else a;
    var c := if player.x > monster.x then b[1 := b[1] + TowardBonus][3 := b[3] - AwayPenalty] else b;
    if player.x < monster.x then c[3 := c[3] + TowardBonus][1 := c[1] - AwayPenalty] else c
  }

  /** What the monster's location says about a neighbouring cell: no location
      (off the map, the "not location" branch), access allowed, or access refused. */
  datatype Access = NoLocation | Open | Closed

  /** The desire for one direction inside the loop. `selfCompare` is the value of
      the straight-ahead test at entity.rb:350, which compares the monster's
      direction object with that direction's own integer value and so is the same in every
      iteration; when it holds, all four desires gain StraightBonus. */
  function Desire(raw: int, selfCompare: bool, access: Access): (r: int)
    ensures access == Closed ==> r == 0
    ensures access != Closed ==> r - raw == (if selfCompare then StraightBonus else 0)
  {
    var desire := if selfCompare then raw + StraightBonus else raw;
    if access == Closed then 0 else desire
  }

  function Desires(raw: seq<int>, selfCompare: bool, access: seq<Access>): (ds: seq<int>)
    requires |raw| == 4 && |access| == 4
    ensures |ds| == 4
    ensures forall i :: 0 <= i < 4 ==> ds[i] == Desire(raw[i], selfCompare, access[i])
  {
    seq(4, i requires 0 <= i < 4 => Desire(raw[i], selfCompare, access[i]))
  }

  /** The outcome of the scan that keeps a desire only when it beats the running maximum: m is the first index holding the
      strict maximum, or -1 with mp = Floor when no desire exceeds Floor. */
  predicate FirstStrictMax(ds: seq<int>, mp: int, m: int)
  {
    || (m == -1 && mp == Floor && forall j :: 0 <= j < |ds| ==> ds[j] <= Floor)
    || (0 <= m < |ds| && mp == ds[m] && mp > Floor
        && (forall j :: 0 <= j < m ==> ds[j] < mp)
        && (forall j :: 0 <= j < |ds| ==> ds[j] <= mp))
  }

  /** The scan's outcome is determined by the desires. */
  lemma FirstStrictMaxUnique(ds: seq<int>, mp1: int, m1: int, mp2: int, m2: int)
    requires FirstStrictMax(ds, mp1, m1) && FirstStrictMax(ds, mp2, m2)
    ensures mp1 == mp2 && m1 == m2
  {
  }

  /** The monster moves only when the maximum desire is positive. */
  predicate Moves(mp: int)
  {
    mp > 0
  }

  /** A direction whose access was refused is never the one the monster turns to. */
  lemma {:induction false} ClosedNeverChosen(raw: seq<int>, selfCompare: bool, access: seq<Access>, mp: int, m: int)
    requires |raw| == 4 && |access| == 4
    requires FirstStrictMax(Desires(raw, selfCompare, access), mp, m)
    requires Moves(mp)
    ensures 0 <= m < 4 && access[m] != Closed
  {
    var ds := Desires(raw, selfCompare, access);
    assert m != -1;
    assert ds[m] == Desire(raw[m], selfCompare, access[m]);
  }

  /** With the player straight north, every direction open and base scores in
      range, the monster chooses NORTH and moves, whatever selfCompare is. */
  lemma PlayerNorthChoosesNorth(jp: seq<int>, monster: Pos, player: Pos, selfCompare: bool, mp: int, m: int)
    requires BaseScores(jp)
    requires player.x == monster.x && player.y < monster.y
    requires FirstStrictMax(Desires(Biased(jp, monster, player), selfCompare, [Open, Open, Open, Open]), mp, m)
    ensures m == North.Value() && Moves(mp)
  {
    var raw := Biased(jp, monster, player);
    var ds := Desires(raw, selfCompare, [Open, Open, Open, Open]);
    var bonus := if selfCompare then StraightBonus else 0;
    assert ds[0] == raw[0] + bonus >= BaseMin + TowardBonus;
    assert ds[1] == raw[1] + bonus <= BaseMax + StraightBonus;
    assert ds[2] == raw[2] + bonus <= BaseMax - AwayPenalty + StraightBonus;
    assert ds[3] == raw[3] + bonus <= BaseMax + StraightBonus;
    assert FirstStrictMax(ds, ds[0], 0);
    FirstStrictMaxUnique(ds, mp, m, ds[0], 0);
  }

  /** The bonus at entity.rb:350 is applied to every open direction alike: it never
      changes the difference between two open desires, so it cannot favour the
      facing direction over any other. */
  lemma BonusIsUniform(raw: seq<int>, access: seq<Access>, i: nat, j: nat)
    requires |raw| == 4 && |access| == 4
    requires i < 4 && j < 4 && access[i] != Closed && access[j] != Closed
    ensures Desires(raw, true, access)[i] - Desires(raw, true, access)[j]
         == Desires(raw, false, access)[i] - Desires(raw, false, access)[j]
  {
  }

  /** When every direction that is not refused has a positive raw desire, the
      bonus does not change the chosen direction or whether the monster moves. */
  lemma {:induction false} BonusKeepsChoice(raw: seq<int>, access: seq<Access>, mp1: int, m1: int, mp2: int, m2: int)
    requires |raw| == 4 && |access| == 4
    requires forall i :: 0 <= i < 4 && access[i] != Closed ==> raw[i] > 0
    requires FirstStrictMax(Desires(raw, false, access), mp1, m1)
    requires FirstStrictMax(Desires(raw, true, access), mp2, m2)
    ensures m1 == m2 && (Moves(mp1) <==> Moves(mp2))
  {
    var d1 := Desires(raw, false, access);
    var d2 := Desires(raw, true, access);
    assert d1[0] >= 0;
    assert m1 != -1;
    if mp1 > 0 {
      assert access[m1] != Closed;
      assert FirstStrictMax(d2, mp1 + StraightBonus, m1) by {
        forall j | 0 <= j < 4 ensures d2[j] <= mp1 + StraightBonus {
          assert d1[j] <= mp1;
        }
        forall j | 0 <= j < m1 ensures d2[j] < mp1 + StraightBonus {
          assert d1[j] < mp1;
        }
      }
      FirstStrictMaxUnique(d2, mp2, m2, mp1 + StraightBonus, m1);
    } else {
      assert forall j :: 0 <= j < 4 ==> access[j] == Closed by {
        forall j | 0 <= j < 4 ensures access[j] == Closed {
          assert d1[j] <= mp1;
        }
      }
      assert d1 == d2;
      FirstStrictMaxUnique(d2, mp2, m2, mp1, m1);
    }
  }

  /** The positivity condition above is needed: with the player straight south and
      only NORTH open, the raw NORTH desire 195 - 200 = -5 loses to the refused
      directions' 0 and the monster stays, while with the bonus it becomes 10 and the
      monster turns north, away from the player. */
  lemma BonusCanMakeMonsterFlee(mp1: int, m1: int, mp2: int, m2: int)
    requires FirstStrictMax(Desires(Biased([195, 200, 195, 200], Pos(5, 5), Pos(5, 9)), false, [Open, Closed, Closed, Closed]), mp1, m1)
    requires FirstStrictMax(Desires(Biased([195, 200, 195, 200], Pos(5, 5), Pos(5, 9)), true, [Open, Closed, Closed, Closed]), mp2, m2)
    ensures !Moves(mp1)
    ensures Moves(mp2) && m2 == North.Value()
  {
    var raw := Biased([195, 200, 195, 200], Pos(5, 5), Pos(5, 9));
    var d1 := Desires(raw, false, [Open, Closed, Closed, Closed]);
    var d2 := Desires(raw, true, [Open, Closed, Closed, Closed]);
    assert raw[0] == -5;
    assert d1 == [-5, 0, 0, 0];
    assert d2 == [10, 0, 0, 0];
    assert FirstStrictMax(d1, 0, 1);
    FirstStrictMaxUnique(d1, mp1, m1, 0, 1);
    assert FirstStrictMax(d2, 10, 0);
    FirstStrictMaxUnique(d2, mp2, m2, 10, 0);
  }
}
