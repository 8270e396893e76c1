/**
  * The part of the template engine the commands touch: areas, the commands
  * nested in them, the listeners attached to an area, and the context
  * variables a command reads.
  */
module Areas {
  import opened Geometry
  import opened Sequences
  import MergeCell
  import MergeArea

  /** A listener attached to an area. */
  datatype AreaListener =
    | MergeCells(mergeCell: MergeCell.MergeCellListener)
    | MergeAreas(mergeArea: MergeArea.MergeAreaListener)
    /** Any other implementation, told apart by identity only. */
    | OtherListener(id: nat)

  /** A context variable's value, as far as the commands look at it. */
  datatype Value =
    | ListenerValue(listener: AreaListener)
    /** A collection; only its size is read. */
    | CollectionValue(size: nat)
    /** Anything else (a string, a number, a single bean). */
    | OtherValue

  /** The template context: variable name to value; a name that is absent reads as null. */
  type Context = map<string, Value>

  /** A template area: its cell range, the commands placed in it and its listeners. */
  class Area {
    const areaRef: AreaRef
    const commands: seq<Command>
    var listeners: seq<AreaListener>

    constructor(areaRef: AreaRef, commands: seq<Command>)
      ensures this.areaRef == areaRef && this.commands == commands
      ensures listeners == []
    {
      this.areaRef := areaRef;
      this.commands := commands;
      this.listeners := [];
    }

    method AddAreaListener(listener: AreaListener)
      modifies this
      ensures listeners == old(listeners) + [listener]
    {
      listeners := listeners + [listener];
    }
  }

  /** A command placed in an area, with the areas it renders. */
  class Command {
    const areaList: seq<Area>

    constructor(areaList: seq<Area>)
      ensures this.areaList == areaList
    {
      this.areaList := areaList;
    }
  }

  /** The areas of the given commands, command by command. */
  function CommandAreas(commands: seq<Command>): seq<Area> {
    if commands == [] then [] else commands[0].areaList + CommandAreas(commands[1..])
  }

  /** The areas of every command nested directly in the given areas, area by area. */
  function ChildAreas(areas: seq<Area>): seq<Area> {
    if areas == [] then [] else CommandAreas(areas[0].commands) + ChildAreas(areas[1..])
  }

  /** CommandAreas holds each area of each command, and nothing else. */
  lemma {:induction false} CommandAreasExact(commands: seq<Command>)
    ensures forall k :: 0 <= k < |CommandAreas(commands)| ==>
      exists j :: 0 <= j < |commands| && CommandAreas(commands)[k] in commands[j].areaList
    ensures forall j, m :: 0 <= j < |commands| && 0 <= m < |commands[j].areaList| ==>
      commands[j].areaList[m] in CommandAreas(commands)
  {
    if commands != [] {
      var rest := CommandAreas(commands[1..]);
      var r := CommandAreas(commands);
      CommandAreasExact(commands[1..]);
      assert r == commands[0].areaList + rest;
      forall k | 0 <= k < |r| ensures exists j :: 0 <= j < |commands| && r[k] in commands[j].areaList {
        if k >= |commands[0].areaList| {
          assert r[k] == rest[k - |commands[0].areaList|];
          var j :| 0 <= j < |commands[1..]| && r[k] in commands[1..][j].areaList;
          assert r[k] in commands[j + 1].areaList;
        } else {
          assert r[k] in commands[0].areaList;
        }
      }
      forall j, m | 0 <= j < |commands| && 0 <= m < |commands[j].areaList| ensures commands[j].areaList[m] in r {
        if j > 0 {
          assert commands[1..][j - 1] == commands[j];
        }
      }
    } else {
      assert CommandAreas(commands) == [];
    }
  }

  /** ChildAreas holds each area of each command of each given area, and nothing else. */
  lemma {:induction false} ChildAreasExact(areas: seq<Area>)
    ensures forall k :: 0 <= k < |ChildAreas(areas)| ==>
      exists i, j :: 0 <= i < |areas| && 0 <= j < |areas[i].commands| && ChildAreas(areas)[k] in areas[i].commands[j].areaList
    ensures forall i, j, m ::
      0 <= i < |areas| && 0 <= j < |areas[i].commands| && 0 <= m < |areas[i].commands[j].areaList| ==>
        areas[i].commands[j].areaList[m] in ChildAreas(areas)
  {
    if areas != [] {
      var rest := ChildAreas(areas[1..]);
      var own := CommandAreas(areas[0].commands);
      var r := ChildAreas(areas);
      ChildAreasExact(areas[1..]);
      CommandAreasExact(areas[0].commands);
      assert r == own + rest;
      forall k | 0 <= k < |r|
        ensures exists i, j :: 0 <= i < |areas| && 0 <= j < |areas[i].commands| && r[k] in areas[i].commands[j].areaList
      {
        if k >= |own| {
          assert r[k] == rest[k - |own|];
          var i, j :| 0 <= i < |areas[1..]| && 0 <= j < |areas[1..][i].commands| && r[k] in areas[1..][i].commands[j].areaList;
          assert r[k] in areas[i + 1].commands[j].areaList;
        } else {
          assert r[k] == own[k];
          var j :| 0 <= j < |areas[0].commands| && r[k] in areas[0].commands[j].areaList;
        }
      }
      forall i, j, m | 0 <= i < |areas| && 0 <= j < |areas[i].commands| && 0 <= m < |areas[i].commands[j].areaList|
        ensures areas[i].commands[j].areaList[m] in r
      {
        if i > 0 {
          assert areas[1..][i - 1] == areas[i];
        }
      }
    } else {
      assert ChildAreas(areas) == [];
    }
  }

  /** `n` copies of one listener. */
  function Repeat(listener: AreaListener, n: nat): (r: seq<AreaListener>)
    ensures |r| == n
    ensures forall i :: 0 <= i < n ==> r[i] == listener
  {
    if n == 0 then [] else Repeat(listener, n - 1) + [listener]
  }

  /**
    * Attaches one listener to each area in turn. An area listed several times
    * gets the listener once per occurrence; the listeners it had stay first.
    */
  method AttachToAll(areas: seq<Area>, listener: AreaListener)
    modifies set a | a in areas
    ensures forall a :: a in areas ==> a.listeners == old(a.listeners) + Repeat(listener, multiset(areas)[a])
  {
    for i := 0 to |areas|
      invariant forall a :: a in areas ==> a.listeners == old(a.listeners) + Repeat(listener, multiset(areas[..i])[a])
    {
      ghost var counts := multiset(areas[..i]);
      assert multiset(areas[..i + 1]) == counts + multiset{areas[i]} by {
        assert areas[..i + 1] == areas[..i] + [areas[i]];
      }
      areas[i].AddAreaListener(listener);
      forall a | a in areas
        ensures a.listeners == old(a.listeners) + Repeat(listener, multiset(areas[..i + 1])[a])
      {
        if a == areas[i] {
          assert Repeat(listener, counts[a] + 1) == Repeat(listener, counts[a]) + [listener];
          AppendAssoc(old(a.listeners), Repeat(listener, counts[a]), [listener]);
        }
      }
    }
    assert areas[..|areas|] == areas;
  }
}
