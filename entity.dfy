/** The entities of entity.rb and the map layers they live in.

    The Map and EntityLocation classes are not part of this model. A GameMap
    holds, per cell, the background blocking flag, the object layer, the physical
    entity layer and the spiritual layer, plus the ids registered as active
    entities. The location operations the entities use are modelled here:
      - get/set on a layer,
      - allowed_access_to? (the cell is on the map, its background does not block,
        and the mover's own layer is empty there),
      - add! (move one cell if allowed, otherwise change nothing),
      - remove_old_entity (clear the mover's layer at its cell and deregister it).
    Entities are classes whose fields their methods update in place. */
module Entity {
  import opened Movement
  import opened Lifecycle
  import opened MonsterAI

  datatype ObjectTile = BloodSplat | Decoration(sprite: nat)

  /** What the physical entity layer holds at a cell. */
  datatype Occupant = Vacant | DoorAt | BeingAt(b: Being)

  datatype Cell = Cell(blocked: bool, obj: Option<ObjectTile>, ent: Occupant, spirit: Option<nat>)

  type Grid = map<Pos, Cell>

  // ----- Layer updates (set on a location; a position off the map is left alone) -----

  function PutEntity(cs: Grid, p: Pos, o: Occupant): (r: Grid)
    ensures r.Keys == cs.Keys
    ensures forall q :: q in cs && q != p ==> r[q] == cs[q]
    ensures p in cs ==> r[p] == cs[p].(ent := o)
  {
    if p in cs then cs[p := cs[p].(ent := o)] else cs
  }

  function PutObject(cs: Grid, p: Pos, t: Option<ObjectTile>): (r: Grid)
    ensures r.Keys == cs.Keys
    ensures forall q :: q in cs && q != p ==> r[q] == cs[q]
    ensures p in cs ==> r[p] == cs[p].(obj := t)
  {
    if p in cs then cs[p := cs[p].(obj := t)] else cs
  }

  function PutSpirit(cs: Grid, p: Pos, s: Option<nat>): (r: Grid)
    ensures r.Keys == cs.Keys
    ensures forall q :: q in cs && q != p ==> r[q] == cs[q]
    ensures p in cs ==> r[p] == cs[p].(spirit := s)
  {
    if p in cs then cs[p := cs[p].(spirit := s)] else cs
  }

  /** The map after a being dies at p: the being leaves the entity layer, and a blood
      splat is written to the object layer only where that layer was empty. */
  function DeathCells(cs: Grid, p: Pos): (r: Grid)
    ensures r.Keys == cs.Keys
    ensures forall q :: q in cs && q != p ==> r[q] == cs[q]
    ensures p in cs ==> r[p].ent == Vacant && r[p].blocked == cs[p].blocked && r[p].spirit == cs[p].spirit
    ensures p in cs && cs[p].obj.Some? ==> r[p].obj == cs[p].obj
    ensures p in cs && cs[p].obj.None? ==> r[p].obj == Some(BloodSplat)
  {
    var cleared := PutEntity(cs, p, Vacant);
    if p in cs && cs[p].obj.None? then PutObject(cleared, p, Some(BloodSplat)) else cleared
  }

  // ----- allowed_access_to? and add! -----

  predicate PhysicalAccess(cs: Grid, p: Pos)
  {
    p in cs && !cs[p].blocked && cs[p].ent == Vacant
  }

  predicate SpiritualAccess(cs: Grid, p: Pos)
  {
    p in cs && !cs[p].blocked && cs[p].spirit == None
  }

  /** add!(d) for an occupant o of the entity layer standing at p. */
  function PhysicalStep(cs: Grid, o: Occupant, p: Pos, d: Dir): (r: (Grid, Pos))
    ensures r.0.Keys == cs.Keys
    ensures PhysicalAccess(cs, Step(p, d)) ==>
              r.1 == Step(p, d) && r.0[r.1].ent == o
              && (p in cs ==> r.0[p].ent == Vacant)
              && forall q :: q in cs && q != p && q != r.1 ==> r.0[q] == cs[q]
    ensures !PhysicalAccess(cs, Step(p, d)) ==> r == (cs, p)
  {
    var t := Step(p, d);
    if PhysicalAccess(cs, t) then (PutEntity(PutEntity(cs, p, Vacant), t, o), t) else (cs, p)
  }

  /** add!(d) for the spiritual entity with this id standing at p. */
  function SpiritualStep(cs: Grid, id: nat, p: Pos, d: Dir): (r: (Grid, Pos))
    ensures r.0.Keys == cs.Keys
    ensures SpiritualAccess(cs, Step(p, d)) ==>
              r.1 == Step(p, d) && r.0[r.1].spirit == Some(id)
              && (p in cs ==> r.0[p].spirit == None)
              && forall q :: q in cs && q != p && q != r.1 ==> r.0[q] == cs[q]
    ensures !SpiritualAccess(cs, Step(p, d)) ==> r == (cs, p)
  {
    var t := Step(p, d);
    if SpiritualAccess(cs, t) then (PutSpirit(PutSpirit(cs, p, None), t, Some(id)), t) else (cs, p)
  }

  /** n consecutive add!(d) calls of a spiritual entity. */
  function SpiritualSlide(cs: Grid, id: nat, p: Pos, d: Dir, n: nat): (Grid, Pos)
    decreases n
  {
    if n == 0 then (cs, p)
    else
      var before := SpiritualSlide(cs, id, p, d, n - 1);
      SpiritualStep(before.0, id, before.1, d)
  }

  /** However many steps succeed, a slide ends on the straight line ahead of its
      start, no further than n cells away, and leaves the map's extent alone. */
  lemma {:induction false} SlideAlongLine(cs: Grid, id: nat, p: Pos, d: Dir, n: nat)
    ensures SpiritualSlide(cs, id, p, d, n).0.Keys == cs.Keys
    ensures exists k :: 0 <= k <= n && SpiritualSlide(cs, id, p, d, n).1 == Offset(p, d, k)
    decreases n
  {
    if n == 0 {
      assert SpiritualSlide(cs, id, p, d, n).1 == Offset(p, d, 0);
    } else {
      SlideAlongLine(cs, id, p, d, n - 1);
      var before := SpiritualSlide(cs, id, p, d, n - 1);
      var k :| 0 <= k <= n - 1 && before.1 == Offset(p, d, k);
      if SpiritualAccess(before.0, Step(before.1, d)) {
        assert SpiritualSlide(cs, id, p, d, n).1 == Offset(p, d, k + 1);
      } else {
        assert SpiritualSlide(cs, id, p, d, n).1 == Offset(p, d, k);
      }
    }
  }

  /** A slide whose first step is refused changes nothing at all. */
  lemma {:induction false} SlideBlockedAtStart(cs: Grid, id: nat, p: Pos, d: Dir, n: nat)
    requires !SpiritualAccess(cs, Step(p, d))
    ensures SpiritualSlide(cs, id, p, d, n) == (cs, p)
    decreases n
  {
    if n > 0 {
      SlideBlockedAtStart(cs, id, p, d, n - 1);
    }
  }

  /** The result of allowed_access_to? for the neighbour in each direction, as the
      monster's desire loop sees it. */
  function AccessTo(cs: Grid, t: Pos): (a: Access)
    ensures a == NoLocation <==> t !in cs
    ensures a == Open <==> PhysicalAccess(cs, t)
  {
    if t !in cs then NoLocation else if PhysicalAccess(cs, t) then Open else Closed
  }

  function Around(cs: Grid, p: Pos): (r: seq<Access>)
    ensures |r| == 4
    ensures forall i :: 0 <= i < 4 ==> r[i] == AccessTo(cs, Step(p, DirOf(i)))
  {
    seq(4, i requires 0 <= i < 4 => AccessTo(cs, Step(p, DirOf(i))))
  }

  /** The loop over the desires, as a function: the scan with a running maximum
      starting at Floor that replaces it only on a strictly greater desire. */
  function ScanFrom(ds: seq<int>, k: nat, mp: int, m: int): (r: (int, int))
    requires k <= |ds|
    requires FirstStrictMax(ds[..k], mp, m)
    ensures FirstStrictMax(ds, r.0, r.1)
    decreases |ds| - k
  {
    if k == |ds| then
      assert ds[..k] == ds;
      (mp, m)
    else
      assert ds[..k + 1] == ds[..k] + [ds[k]];
      if ds[k] > mp then ScanFrom(ds, k + 1, ds[k], k) else ScanFrom(ds, k + 1, mp, m)
  }

  function Select(ds: seq<int>): (r: (int, int))
    ensures FirstStrictMax(ds, r.0, r.1)
  {
    ScanFrom(ds, 0, Floor, -1)
  }

  /** Where a monster takes the player to be: the location the game data records,
      or the monster's own location when none is recorded. */
  function PlayerAt(player: Option<Pos>, own: Pos): Pos
  {
    if player.Some? then player.value else own
  }

  /** The ids in the map's active_entities collection, and the cells. */
  class GameMap {
    var cells: Grid
    var active: set<nat>

    /** Every being on the entity layer is located on this map. */
    ghost predicate Valid()
      reads this
    {
      forall p :: p in cells && cells[p].ent.BeingAt? ==> cells[p].ent.b.grid == this
    }

    constructor (cells: Grid)
      requires forall p :: p in cells ==> cells[p].ent == Vacant || cells[p].ent == DoorAt
      ensures Valid() && this.cells == cells && active == {}
    {
      this.cells := cells;
      active := {};
    }

    /** The being, if any, on the entity layer at p. */
    function BeingsAt(p: Pos): set<Being>
      reads this
    {
      if p in cells && cells[p].ent.BeingAt? then {cells[p].ent.b} else {}
    }
  }

  datatype BeingKind = PlayerKind | DumbMonsterKind | OriginalMotionKind

  /** Being and its subclasses DumbMonster and OriginalMotionMonster (the game's
      Monster); the player is a Being of PlayerKind. */
  class Being {
    const id: nat
    const grid: GameMap
    const kind: BeingKind
    var pos: Pos
    var direction: Dir
    var life: int
    var mana: int
    var sleep: int

    constructor (id: nat, grid: GameMap, kind: BeingKind, pos: Pos, direction: Dir, life: int, mana: int)
      ensures this.id == id && this.grid == grid && this.kind == kind && this.pos == pos
      ensures this.direction == direction && this.life == life && this.mana == mana && sleep == 0
    {
      this.id, this.grid, this.kind, this.pos := id, grid, kind, pos;
      this.direction, this.life, this.mana := direction, life, mana;
      sleep := 0;
    }

    /** DumbMonster.new: life from the tile's start health, first sleep 8. */
    constructor DumbMonster(id: nat, grid: GameMap, pos: Pos, direction: Dir, startHealth: int)
      ensures this.id == id && this.grid == grid && kind == DumbMonsterKind && this.pos == pos
      // mana == 0 is this model's own choice: the source never sets mana for a monster.
      ensures this.direction == direction && life == startHealth && mana == 0 && sleep == ActedSleep
    {
      this.id, this.grid, kind, this.pos := id, grid, DumbMonsterKind, pos;
      this.direction, life, mana := direction, startHealth, 0;
      sleep := ActedSleep;
    }

    /** OriginalMotionMonster.new: the first sleep spreads monsters over 0..7. */
    constructor OriginalMotionMonster(id: nat, grid: GameMap, pos: Pos, direction: Dir, startHealth: int,
                                      xHash: int, yHash: int)
      ensures this.id == id && this.grid == grid && kind == OriginalMotionKind && this.pos == pos
      // mana == 0 is this model's own choice, as for DumbMonster.
      ensures this.direction == direction && life == startHealth && mana == 0
      ensures sleep == InitialSleep(xHash, yHash) && 0 <= sleep <= 7
    {
      this.id, this.grid, kind, this.pos := id, grid, OriginalMotionKind, pos;
      this.direction, life, mana := direction, startHealth, 0;
      sleep := InitialSleep(xHash, yHash);
    }

    predicate Alive()
      reads this
    {
      life > 0
    }

    /** kind_of?(Monster): Monster is OriginalMotionMonster. */
    predicate IsMonster()
    {
      kind == OriginalMotionKind
    }

    /** remove_old_entity on the being's own location. */
    method RemoveOldEntity()
      requires grid.Valid()
      modifies grid
      ensures grid.Valid()
      ensures grid.cells == PutEntity(old(grid.cells), pos, Vacant)
      ensures grid.active == old(grid.active) - {id}
    {
      grid.cells := PutEntity(grid.cells, pos, Vacant);
      grid.active := grid.active - {id};
    }

    method AddLife(diff: int) returns (sig: LifeSignal)
      requires grid.Valid()
      modifies this`life, grid
      ensures grid.Valid()
      ensures life == LifeAfter(old(life), diff)
      ensures sig == Signal(old(life), diff)
      ensures sig == NoSignal <==> Alive()
      ensures Alive() ==> grid.cells == old(grid.cells) && grid.active == old(grid.active)
      ensures !Alive() ==> grid.cells == DeathCells(old(grid.cells), pos) && grid.active == old(grid.active) - {id}
    {
      var oldLife := life;
      life := life + diff;
      if life > MaxLife {
        life := MaxLife;
      }
      if life <= 0 {
        life := 0;
        RemoveOldEntity();
        if pos !in grid.cells || grid.cells[pos].obj.None? {
          grid.cells := PutObject(grid.cells, pos, Some(BloodSplat));
        }
        sig := if oldLife > 0 then Died else Dead;
      } else {
        sig := NoSignal;
      }
    }

    method AddMana(diff: int)
      modifies this`mana
      ensures mana == ManaAfter(old(mana), diff)
    {
      mana := mana + diff;
      if mana < 0 {
        mana := 0;
      }
      if mana > MaxMana {
        mana := MaxMana;
      }
    }

    /** move_forward: add! in the facing direction. */
    method MoveForward() returns (moved: bool)
      requires grid.Valid()
      modifies this`pos, grid
      ensures grid.Valid() && grid.active == old(grid.active)
      ensures moved <==> old(PhysicalAccess(grid.cells, Step(pos, direction)))
      ensures (grid.cells, pos) == PhysicalStep(old(grid.cells), BeingAt(this), old(pos), direction)
    {
      var target := Step(pos, direction);
      moved := PhysicalAccess(grid.cells, target);
      if moved {
        grid.cells := PutEntity(PutEntity(grid.cells, pos, Vacant), target, BeingAt(this));
        pos := target;
      }
    }

    /** DumbMonster#action_tick. */
    method DumbTick()
      requires kind == DumbMonsterKind
      requires grid.Valid()
      modifies this`sleep, this`pos, this`direction, grid
      ensures grid.Valid() && grid.active == old(grid.active)
      ensures !ActsThisTick(old(sleep)) ==>
                sleep == old(sleep) - 1 && pos == old(pos) && direction == old(direction)
                && grid.cells == old(grid.cells)
      ensures ActsThisTick(old(sleep)) ==>
                var moved := old(PhysicalAccess(grid.cells, Step(pos, direction)));
                (grid.cells, pos) == PhysicalStep(old(grid.cells), BeingAt(this), old(pos), old(direction))
                && sleep == (if moved then ActedSleep else TurnedSleep)
                && direction == (if moved then old(direction) else old(direction).RotateClockwise())
    {
      sleep := sleep - 1;
      if sleep < 0 {
        var moved := MoveForward();
        if moved {
          sleep := ActedSleep;
        } else {
          direction := direction.RotateClockwise();
          sleep := TurnedSleep;
        }
      }
    }

    /** The desire loop of attempt_movement: it reads the map and changes nothing. */
    method ScoreDirections(raw: seq<int>, selfCompare: bool) returns (mp: int, m: int)
      requires |raw| == 4
      ensures FirstStrictMax(Desires(raw, selfCompare, Around(grid.cells, pos)), mp, m)
    {
      ghost var ds := Desires(raw, selfCompare, Around(grid.cells, pos));
      mp, m := Floor, -1;
      var i := 0;
      while i < 4
        invariant 0 <= i <= 4
        invariant FirstStrictMax(ds[..i], mp, m)
      {
        var desire := raw[i];
        if selfCompare {
          desire := desire + StraightBonus;
        }
        var target := Step(pos, DirOf(i));
        if target in grid.cells && !PhysicalAccess(grid.cells, target) {
          desire := 0;
        }
        assert desire == ds[i];
        assert ds[..i + 1] == ds[..i] + [ds[i]];
        if desire > mp {
          mp, m := desire, i;
        }
        i := i + 1;
      }
      assert ds[..4] == ds;
    }

    /** OriginalMotionMonster#attempt_movement with the four base scores given. */
    method AttemptMovement(player: Option<Pos>, jp: seq<int>, selfCompare: bool)
      requires BaseScores(jp)
      requires grid.Valid()
      modifies this`sleep, this`pos, this`direction, grid
      ensures grid.Valid() && grid.active == old(grid.active)
      ensures var ds := Desires(Biased(jp, old(pos), PlayerAt(player, old(pos))), selfCompare, Around(old(grid.cells), old(pos)));
              var choice := Select(ds);
              if Moves(choice.0) then
                var d := DirOf(choice.1);
                direction == d
                && (grid.cells, pos) == PhysicalStep(old(grid.cells), BeingAt(this), old(pos), d)
                && sleep == (if old(PhysicalAccess(grid.cells, Step(pos, d))) then ActedSleep else RetrySleep)
              else
                direction == old(direction) && pos == old(pos) && sleep == old(sleep)
                && grid.cells == old(grid.cells)
    {
      var raw := Biased(jp, pos, PlayerAt(player, pos));
      var mp, m := ScoreDirections(raw, selfCompare);
      ghost var ds := Desires(raw, selfCompare, Around(grid.cells, pos));
      FirstStrictMaxUnique(ds, mp, m, Select(ds).0, Select(ds).1);
      if mp > 0 {
        direction := DirOf(m);
        var moved := MoveForward();
        if moved {
          sleep := ActedSleep;
        } else {
          sleep := RetrySleep;
        }
      }
    }

    /** OriginalMotionMonster#action_tick. */
    method OriginalTick(player: Option<Pos>, jp: seq<int>, selfCompare: bool)
      requires kind == OriginalMotionKind
      requires BaseScores(jp)
      requires grid.Valid()
      modifies this`sleep, this`pos, this`direction, grid
      ensures grid.Valid() && grid.active == old(grid.active)
      ensures !ActsThisTick(old(sleep)) ==>
                sleep == old(sleep) - 1 && pos == old(pos) && direction == old(direction)
                && grid.cells == old(grid.cells)
      ensures ActsThisTick(old(sleep)) ==>
                var ds := Desires(Biased(jp, old(pos), PlayerAt(player, old(pos))), selfCompare, Around(old(grid.cells), old(pos)));
                var choice := Select(ds);
                if Moves(choice.0) then
                  var d := DirOf(choice.1);
                  direction == d
                  && (grid.cells, pos) == PhysicalStep(old(grid.cells), BeingAt(this), old(pos), d)
                  && sleep == (if old(PhysicalAccess(grid.cells, Step(pos, d))) then ActedSleep else RetrySleep)
                else
                  direction == old(direction) && pos == old(pos) && sleep == old(sleep) - 1
                  && grid.cells == old(grid.cells)
    {
      sleep := sleep - 1;
      if sleep < 0 {
        AttemptMovement(player, jp, selfCompare);
      }
    }
  }

  /** The spell tile a missile belongs to: its damage and its registry of live missiles. */
  class MissileTile {
    const damage: int
    var live: set<nat>

    constructor (damage: int)
      ensures this.damage == damage && live == {}
    {
      this.damage := damage;
      live := {};
    }
  }

  /** Does the entity-layer occupant count as a hit: present and not the caster. */
  predicate HitsOther(e: Occupant, caster: Being)
  {
    e != Vacant && e != BeingAt(caster)
  }

  /** Missile: flies on the spiritual layer in its caster's facing direction. */
  class Missile {
    const id: nat
    const caster: Being
    const grid: GameMap
    const tile: MissileTile
    var pos: Pos
    var direction: Dir
    var active: bool
    var movements: int

    constructor (id: nat, caster: Being, grid: GameMap, pos: Pos, tile: MissileTile)
      ensures this.id == id && this.caster == caster && this.grid == grid && this.tile == tile
      ensures this.pos == pos && direction == caster.direction && active && movements == MissileRange
    {
      this.id, this.caster, this.grid, this.tile, this.pos := id, caster, grid, tile, pos;
      direction := caster.direction;
      active := true;
      movements := MissileRange;
    }

    method RemoveMissile()
      requires grid.Valid()
      modifies this`active, tile`live, grid
      ensures grid.Valid()
      ensures !active && tile.live == old(tile.live) - {id}
      ensures grid.cells == PutSpirit(old(grid.cells), pos, None)
      ensures grid.active == old(grid.active) - {id}
    {
      tile.live := tile.live - {id};
      active := false;
      grid.cells := PutSpirit(grid.cells, pos, None);
      grid.active := grid.active - {id};
    }

    method MoveForward() returns (moved: bool)
      requires grid.Valid()
      modifies this`pos, grid
      ensures grid.Valid() && grid.active == old(grid.active)
      ensures moved <==> old(SpiritualAccess(grid.cells, Step(pos, direction)))
      ensures (grid.cells, pos) == SpiritualStep(old(grid.cells), id, old(pos), direction)
    {
      var target := Step(pos, direction);
      moved := SpiritualAccess(grid.cells, target);
      if moved {
        grid.cells := PutSpirit(PutSpirit(grid.cells, pos, None), target, Some(id));
        pos := target;
      }
    }

    /** hit_entity: damage a monster, score on a kill, and always remove the missile.
        The returned gain is the caster's score increase (the :argh sound goes with it). */
    method HitEntity(e: Occupant) returns (gain: int)
      requires grid.Valid()
      requires e.BeingAt? ==> e.b.grid == grid && e.b.pos == pos && e.b.id != id
      modifies this`active, tile`live, grid, (if e.BeingAt? then {e.b} else {})`life
      ensures grid.Valid()
      ensures !active && tile.live == old(tile.live) - {id}
      ensures e.BeingAt? && e.b.IsMonster() ==>
                e.b.life == LifeAfter(old(e.b.life), -tile.damage)
                && gain == (if Signal(old(e.b.life), -tile.damage) == Died then KillScore else 0)
                && grid.cells == PutSpirit(if e.b.Alive() then old(grid.cells) else DeathCells(old(grid.cells), pos), pos, None)
                && grid.active == old(grid.active) - {id} - (if e.b.Alive() then {} else {e.b.id})
                && (!e.b.Alive() && pos in grid.cells ==> grid.cells[pos].ent == Vacant)
      ensures !(e.BeingAt? && e.b.IsMonster()) ==>
                gain == 0 && grid.cells == PutSpirit(old(grid.cells), pos, None)
                && grid.active == old(grid.active) - {id}
                && (e.BeingAt? ==> e.b.life == old(e.b.life))
    {
      gain := 0;
      if e.BeingAt? && e.b.IsMonster() {
        var sig := e.b.AddLife(-tile.damage);
        if sig == Died {
          gain := KillScore;
        }
      }
      RemoveMissile();
    }

    /** Missile#action_tick; returns the caster's score gain. */
    method ActionTick() returns (gain: int)
      requires grid.Valid()
      requires active ==> pos in grid.cells
      requires active && grid.cells[pos].ent.BeingAt? ==> grid.cells[pos].ent.b.pos == pos
      requires active && grid.cells[pos].ent.BeingAt? ==> grid.cells[pos].ent.b.id != id
      modifies this`active, this`pos, this`movements, tile`live, grid
      modifies (if active && pos in grid.cells && !grid.cells[pos].blocked && HitsOther(grid.cells[pos].ent, caster)
                then grid.BeingsAt(pos) else {})`life
      ensures grid.Valid()
      ensures !old(active) ==>
                gain == 0 && !active && pos == old(pos) && movements == old(movements)
                && grid.cells == old(grid.cells) && grid.active == old(grid.active)
                && tile.live == old(tile.live)
      ensures old(active) && old(grid.cells[pos].blocked) ==>
                gain == 0 && !active && pos == old(pos) && movements == old(movements)
                && grid.cells == PutSpirit(old(grid.cells), pos, None)
                && grid.active == old(grid.active) - {id} && tile.live == old(tile.live) - {id}
      ensures old(active) && !old(grid.cells[pos].blocked) && old(HitsOther(grid.cells[pos].ent, caster)) ==>
                var e := old(grid.cells[pos].ent);
                !active && pos == old(pos) && movements == old(movements)
                && tile.live == old(tile.live) - {id}
                && (if e.BeingAt? && e.b.IsMonster() then
                      e.b.life == LifeAfter(old(e.b.life), -tile.damage)
                      && gain == (if Signal(old(e.b.life), -tile.damage) == Died then KillScore else 0)
                      && grid.cells == PutSpirit(if e.b.Alive() then old(grid.cells) else DeathCells(old(grid.cells), pos), pos, None)
                      && grid.active == old(grid.active) - {id} - (if e.b.Alive() then {} else {e.b.id})
                      && (!e.b.Alive() ==> grid.cells[pos].ent == Vacant)
                    else
                      gain == 0 && grid.cells == PutSpirit(old(grid.cells), pos, None)
                      && grid.active == old(grid.active) - {id}
                      && (e.BeingAt? ==> e.b.life == old(e.b.life)))
      ensures old(active) && !old(grid.cells[pos].blocked) && !old(HitsOther(grid.cells[pos].ent, caster)) ==>
                var moved := old(SpiritualAccess(grid.cells, Step(pos, direction)));
                var flown := SpiritualStep(old(grid.cells), id, old(pos), direction);
                gain == 0 && pos == flown.1 && movements == old(movements) - 1
                && active == FlyStep(old(movements), moved).0
                && grid.cells == (if active then flown.0 else PutSpirit(flown.0, flown.1, None))
                && grid.active == (if active then old(grid.active) else old(grid.active) - {id})
                && tile.live == (if active then old(tile.live) else old(tile.live) - {id})
    {
      gain := 0;
      if !active {
        return;
      }
      var cell := grid.cells[pos];
      if cell.blocked {
        RemoveMissile();
      } else if HitsOther(cell.ent, caster) {
        gain := HitEntity(cell.ent);
      } else {
        movements := movements - 1;
        var moved := MoveForward();
        if !moved || movements < 1 {
          RemoveMissile();
        }
      }
    }
  }

  /** A missile of damage 4 cast onto the cell of an original-motion monster with
      life 3: the monster dies, leaves a blood splat, and its killer scores. */
  method MissileKillsMonster() returns (gain: int, cell: Cell)
    ensures gain == KillScore
    ensures cell.ent == Vacant && cell.obj == Some(BloodSplat) && cell.spirit == None
  {
    var p := Pos(1, 1);
    var m := new GameMap(map[p := Cell(false, None, Vacant, None)]);
    var player := new Being(0, m, PlayerKind, Pos(0, 1), East, MaxLife, MaxMana);
    var monster := new Being.OriginalMotionMonster(1, m, p, West, 3, 0, 0);
    m.cells := PutEntity(m.cells, p, BeingAt(monster));
    var tile := new MissileTile(4);
    var missile := new Missile(2, player, m, p, tile);
    gain := missile.ActionTick();
    cell := m.cells[p];
  }

  datatype AstralKind = PlainAstral | EyeballSpell | MovableMapSpell

  /** AstralBody and its subclasses Eyeball and MovableMapManifestation. */
  class AstralBody {
    const id: nat
    const grid: GameMap
    const kind: AstralKind
    var pos: Pos
    var direction: Dir
    var active: bool
    var movements: int

    constructor (id: nat, caster: Being, grid: GameMap, pos: Pos, kind: AstralKind)
      ensures this.id == id && this.grid == grid && this.kind == kind && this.pos == pos
      ensures direction == caster.direction && active
      ensures kind == EyeballSpell ==> movements == EyeballRange
    {
      this.id, this.grid, this.kind, this.pos := id, grid, kind, pos;
      direction := caster.direction;
      active := true;
      movements := if kind == EyeballSpell then EyeballRange else 0;
    }

    /** Cells covered by one move_forward: MovableMapManifestation jumps five. */
    function Reach(): nat
    {
      if kind == MovableMapSpell then 5 else 1
    }

    method RemoveEntity()
      requires grid.Valid()
      modifies this`active, grid
      ensures grid.Valid() && !active
      ensures grid.cells == PutSpirit(old(grid.cells), pos, None)
      ensures grid.active == old(grid.active) - {id}
    {
      grid.cells := PutSpirit(grid.cells, pos, None);
      grid.active := grid.active - {id};
      active := false;
    }

    /** cancel_spell (also cast_primary_spell, cast_alternative_spell and escape). */
    method CancelSpell()
      modifies this`active
      ensures !active
    {
      active := false;
    }

    method MoveForward()
      requires grid.Valid()
      modifies this`pos, grid
      ensures grid.Valid() && grid.active == old(grid.active)
      ensures (grid.cells, pos) == SpiritualSlide(old(grid.cells), id, old(pos), direction, Reach())
    {
      var n := Reach();
      var i := 0;
      while i < n
        invariant 0 <= i <= n
        invariant grid.Valid() && grid.active == old(grid.active)
        invariant (grid.cells, pos) == SpiritualSlide(old(grid.cells), id, old(pos), direction, i)
      {
        var target := Step(pos, direction);
        if SpiritualAccess(grid.cells, target) {
          grid.cells := PutSpirit(PutSpirit(grid.cells, pos, None), target, Some(id));
          pos := target;
        }
        i := i + 1;
      }
    }

    /** action_tick of AstralBody, with Eyeball's lifespan in front of it.
        haveMana is the tile's have_mana?; manaUsed reports the use_mana call. */
    method ActionTick(haveMana: bool) returns (stillActive: bool, manaUsed: bool)
      requires grid.Valid()
      modifies this`active, this`pos, this`movements, grid
      ensures grid.Valid()
      ensures movements == old(movements) - (if kind == EyeballSpell then 1 else 0)
      ensures var expired := kind == EyeballSpell && old(movements) - 1 < 1;
              var start := if expired then PutSpirit(old(grid.cells), old(pos), None) else old(grid.cells);
              var live := old(active) && !expired;
              active == live && stillActive == live && manaUsed == (live && haveMana)
              && (grid.cells, pos) == (if live && haveMana then SpiritualSlide(start, id, old(pos), direction, Reach())
                                      else (start, old(pos)))
              && grid.active == (if expired then old(grid.active) - {id} else old(grid.active))
      ensures kind == EyeballSpell ==> (active, movements) == EyeStep(old(movements), old(active))
    {
      if kind == EyeballSpell {
        movements := movements - 1;
        if movements < 1 {
          RemoveEntity();
        }
      }
      manaUsed := false;
      if !active {
        return false, false;
      }
      if haveMana {
        MoveForward();
        manaUsed := true;
      }
      stillActive := active;
    }

    /** move_left / move_right / move_up / move_down: face d, then action_tick. */
    method Steer(d: Dir, haveMana: bool) returns (stillActive: bool, manaUsed: bool)
      requires grid.Valid()
      modifies this`active, this`pos, this`movements, this`direction, grid
      ensures grid.Valid() && direction == d
      ensures movements == old(movements) - (if kind == EyeballSpell then 1 else 0)
      ensures var expired := kind == EyeballSpell && old(movements) - 1 < 1;
              var start := if expired then PutSpirit(old(grid.cells), old(pos), None) else old(grid.cells);
              var live := old(active) && !expired;
              active == live && stillActive == live && manaUsed == (live && haveMana)
              && (grid.cells, pos) == (if live && haveMana then SpiritualSlide(start, id, old(pos), d, Reach())
                                      else (start, old(pos)))
              && grid.active == (if expired then old(grid.active) - {id} else old(grid.active))
    {
      direction := d;
      stillActive, manaUsed := ActionTick(haveMana);
    }
  }
}
