/**
 The level counters of the lazy scope (crates/evaluator/src/lazy.rs), and the measure that
 shows that a lookup ends: the sum, over all names, of the setters not yet entered.
 */
module KclLevels {
  import opened KclSetters

  type Levels = map<string, nat>

  function LevelOf(levels: Levels, x: string): nat {
    if x in levels then levels[x] else 0
  }

  function RoomOf(setters: Table, levels: Levels, x: string): nat {
    var n, level := |Entries(setters, x)|, LevelOf(levels, x);
    if level < n then n - level else 0
  }

  ghost function Rooms(names: set<string>, setters: Table, levels: Levels): nat {
    if names == {} then 0
    else
      var x :| x in names;
      RoomOf(setters, levels, x) + Rooms(names - {x}, setters, levels)
  }

  /** A counter below its number of setters is where it was; one that is not may have gone up. */
  ghost predicate KeptLevels(setters: Table, before: Levels, after: Levels) {
    forall x ::
      && LevelOf(before, x) <= LevelOf(after, x)
      && (LevelOf(before, x) < |Entries(setters, x)| || Entries(setters, x) == [] ==> LevelOf(after, x) == LevelOf(before, x))
  }

  lemma {:induction false} KeptRooms(names: set<string>, setters: Table, before: Levels, after: Levels)
    requires KeptLevels(setters, before, after)
    ensures Rooms(names, setters, before) == Rooms(names, setters, after)
  {
    if names != {} {
      var x :| x in names && Rooms(names, setters, before) == RoomOf(setters, before, x) + Rooms(names - {x}, setters, before);
      RoomsSplit(names, setters, after, x);
      KeptRooms(names - {x}, setters, before, after);
      assert RoomOf(setters, before, x) == RoomOf(setters, after, x);
    }
  }

  lemma {:induction false} RoomsSplit(names: set<string>, setters: Table, levels: Levels, x: string)
    requires x in names
    ensures Rooms(names, setters, levels) == RoomOf(setters, levels, x) + Rooms(names - {x}, setters, levels)
  {
    var y :| y in names && Rooms(names, setters, levels) == RoomOf(setters, levels, y) + Rooms(names - {y}, setters, levels);
    if y != x {
      RoomsSplit(names - {y}, setters, levels, x);
      RoomsSplit(names - {x}, setters, levels, y);
      assert names - {y} - {x} == names - {x} - {y};
    }
  }

  lemma {:induction false} RoomsElsewhere(names: set<string>, setters: Table, levels: Levels, x: string, level: nat)
    requires x !in names
    ensures Rooms(names, setters, levels[x := level]) == Rooms(names, setters, levels)
  {
    if names != {} {
      var y :| y in names && Rooms(names, setters, levels) == RoomOf(setters, levels, y) + Rooms(names - {y}, setters, levels);
      RoomsSplit(names, setters, levels[x := level], y);
      RoomsElsewhere(names - {y}, setters, levels, x, level);
      assert RoomOf(setters, levels[x := level], y) == RoomOf(setters, levels, y);
    }
  }

  /** Entering a setter uses up one unit. */
  lemma {:induction false} EnterDrops(setters: Table, levels: Levels, x: string)
    requires LevelOf(levels, x) < |Entries(setters, x)|
    ensures Rooms(setters.Keys, setters, levels[x := LevelOf(levels, x) + 1]) == Rooms(setters.Keys, setters, levels) - 1
  {
    var after := levels[x := LevelOf(levels, x) + 1];
    RoomsSplit(setters.Keys, setters, levels, x);
    RoomsSplit(setters.Keys, setters, after, x);
    RoomsElsewhere(setters.Keys - {x}, setters, levels, x, LevelOf(levels, x) + 1);
  }

  /** Going back to where a name was puts everything back, whatever happened to the others in between. */
  lemma {:induction false} Restored(setters: Table, before: Levels, after: Levels, x: string)
    requires LevelOf(before, x) < |Entries(setters, x)|
    requires KeptLevels(setters, before[x := LevelOf(before, x) + 1], after)
    ensures KeptLevels(setters, before, after[x := LevelOf(before, x)])
  {
    var inside, final := before[x := LevelOf(before, x) + 1], after[x := LevelOf(before, x)];
    forall y
      ensures LevelOf(before, y) <= LevelOf(final, y)
      ensures LevelOf(before, y) < |Entries(setters, y)| || Entries(setters, y) == [] ==> LevelOf(final, y) == LevelOf(before, y)
    {
      assert LevelOf(inside, y) <= LevelOf(after, y);
    }
  }
}
