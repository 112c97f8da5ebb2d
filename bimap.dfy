/**
 * The `Bimap` object: two category names fixed at construction, the
 * `bijection` record naming each category's partner, and the two tables
 * that `add` and `remove` update in place.
 */
module BimapObject {
  import opened Wrappers
  import opened BimapTables

  /** What the bimap throws. */
  datatype Error =
    | NotTwoNameStrings   // the constructor's explicit throw
    | NotAnObject         // `add`'s explicit throw for a non-object argument
    | KeysMismatch        // `add`'s explicit throw for keys that are not the two names
    | TypeError           // a property read or call on `undefined`

  /**
   * A JavaScript argument, as far as the bimap inspects it: a string, an
   * object given by its own keys and values in key-enumeration order, or
   * anything else.
   */
  datatype Arg<V> = Str(s: string) | Obj(entries: seq<(string, V)>) | Other

  /** The `bijection` record: each name maps to the other. */
  function Bijection(nameA: string, nameB: string): (m: map<string, string>)
    ensures m.Keys == {nameA, nameB}
    ensures m[nameA] == nameB && m[nameB] == nameA
  {
    map[nameA := nameB][nameB := nameA]
  }

  /** The constructor's check: both arguments must be strings. */
  function CheckNames<V>(map1: Arg<V>, map2: Arg<V>): (r: Result<(string, string), Error>)
    ensures r.Ok? <==> map1.Str? && map2.Str?
    ensures r.Ok? ==> r.value == (map1.s, map2.s)
    ensures r.Err? ==> r.error == NotTwoNameStrings
  {
    if map1.Str? && map2.Str? then Ok((map1.s, map2.s)) else Err(NotTwoNameStrings)
  }

  /**
   * `add`'s validation of its argument against the object's `bijection`
   * record, before anything is written. The
   * argument must be an object, and its first key's partner in `bijection`
   * must be its second key (a missing key reads as `undefined`). When both
   * are `undefined` the check passes and the write that follows fails on
   * the undefined table. On success the result is the pair (A-value, B-value).
   */
  function ParsePair<V>(bijection: map<string, string>, nameA: string, nameB: string, arg: Arg<V>): (r: Result<(V, V), Error>)
    requires nameA != nameB && bijection == Bijection(nameA, nameB)
    ensures r.Ok? <==>
              && arg.Obj? && |arg.entries| >= 2
              && ((arg.entries[0].0 == nameA && arg.entries[1].0 == nameB) ||
                  (arg.entries[0].0 == nameB && arg.entries[1].0 == nameA))
    ensures r.Ok? && arg.entries[0].0 == nameA ==> r.value == (arg.entries[0].1, arg.entries[1].1)
    ensures r.Ok? && arg.entries[0].0 == nameB ==> r.value == (arg.entries[1].1, arg.entries[0].1)
    ensures !arg.Obj? ==> r == Err(NotAnObject)
    ensures arg.Obj? && |arg.entries| >= 2 && r.Err? ==> r.error == KeysMismatch
    ensures arg.Obj? && |arg.entries| == 1 && arg.entries[0].0 in {nameA, nameB} ==> r == Err(KeysMismatch)
    ensures arg.Obj? && |arg.entries| == 1 && arg.entries[0].0 !in {nameA, nameB} ==> r == Err(TypeError)
    ensures arg.Obj? && |arg.entries| == 0 ==> r == Err(TypeError)
  {
    match arg
    case Obj(entries) =>
      var first := if |entries| >= 1 then Some(entries[0].0) else None;
      var second := if |entries| >= 2 then Some(entries[1].0) else None;
      var partner := if first.Some? && first.value in bijection then Some(bijection[first.value]) else None;
      if partner != second then Err(KeysMismatch)
      else if partner.None? then Err(TypeError)
      else if first.value == nameA then Ok((entries[0].1, entries[1].1))
      else Ok((entries[1].1, entries[0].1))
    case _ => Err(NotAnObject)
  }

  /** Which table a category name selects, if any. */
  function SideOf(nameA: string, nameB: string, category: string): (r: Option<Side>)
    requires nameA != nameB
    ensures r == Some(A) <==> category == nameA
    ensures r == Some(B) <==> category == nameB
  {
    if category == nameA then Some(A) else if category == nameB then Some(B) else None
  }

  class Bimap<V(==)> {
    const nameA: string
    const nameB: string
    const bijection: map<string, string>
    var tableA: map<V, V>
    var tableB: map<V, V>

    /** The names are distinct and `bijection` records them. */
    ghost predicate Valid() {
      nameA != nameB && bijection == Bijection(nameA, nameB)
    }

    /** The two tables as a value. */
    function View(): Tables<V>
      reads this
    {
      Tables(tableA, tableB)
    }

    /** The tables are exact inverses; `add` of an already paired value breaks this. */
    ghost predicate Inverse()
      reads this
    {
      BimapTables.Inverse(View())
    }

    /** `new Bimap(map1, map2)` for two names already known to be strings. */
    constructor (map1: string, map2: string)
      requires map1 != map2
      ensures Valid()
      ensures nameA == map1 && nameB == map2
      ensures bijection[map1] == map2 && bijection[map2] == map1
      ensures View() == Empty() && Inverse()
    {
      nameA, nameB := map1, map2;
      bijection := map[map1 := map2][map2 := map1];
      tableA, tableB := map[], map[];
    }

    /** `new Bimap(map1, map2)`: throws unless both arguments are strings. */
    static method Create(map1: Arg<V>, map2: Arg<V>) returns (r: Result<Bimap<V>, Error>)
      requires map1.Str? && map2.Str? ==> map1.s != map2.s
      ensures r.Err? <==> !(map1.Str? && map2.Str?)
      ensures r.Err? ==> r.error == NotTwoNameStrings
      ensures r.Ok? ==> fresh(r.value) && r.value.Valid()
      ensures r.Ok? ==> r.value.nameA == map1.s && r.value.nameB == map2.s
      ensures r.Ok? ==> r.value.View() == Empty()
    {
      var names := CheckNames(map1, map2);
      if names.Err? {
        return Err(names.error);
      }
      var m := new Bimap(names.value.0, names.value.1);
      r := Ok(m);
    }

    /**
     * `<category>From(key)`: the accessor of category `nameA` reads
     * `tableB`, that of `nameB` reads `tableA`; any other name has no
     * accessor, and calling it fails.
     */
    function Lookup(category: string, key: V): (r: Result<Option<V>, Error>)
      reads this
      requires Valid()
      ensures r.Err? <==> category != nameA && category != nameB
      ensures r.Err? ==> r.error == TypeError
      ensures category == nameA ==> r == Ok(LookupFrom(View(), A, key))
      ensures category == nameB ==> r == Ok(LookupFrom(View(), B, key))
    {
      match SideOf(nameA, nameB, category)
      case Some(side) => Ok(LookupFrom(View(), side, key))
      case None => Err(TypeError)
    }

    /**
     * `add(arg)`: validates `arg` and throws without writing, or stores
     * `a -> b` in `tableA` and `b -> a` in `tableB`.
     */
    method Add(arg: Arg<V>) returns (r: Result<(), Error>)
      requires Valid()
      modifies this
      ensures r.Ok? <==> ParsePair(bijection, nameA, nameB, arg).Ok?
      ensures r.Err? ==> r.error == ParsePair(bijection, nameA, nameB, arg).error && View() == old(View())
      ensures r.Ok? ==>
                var (a, b) := ParsePair(bijection, nameA, nameB, arg).value;
                View() == AddPair(old(View()), a, b)
    {
      var pair := ParsePair(bijection, nameA, nameB, arg);
      if pair.Err? {
        return Err(pair.error);
      }
      var (a, b) := pair.value;
      tableA := tableA[a := b];
      tableB := tableB[b := a];
      r := Ok(());
    }

    /**
     * `remove(category, value)`: deletes `value` from `category`'s table
     * and its partner from the other table, and returns the partner.
     * An unknown category fails before anything changes.
     */
    method Remove(category: string, value: V) returns (r: Result<Option<V>, Error>)
      requires Valid()
      modifies this
      ensures r.Err? <==> category != nameA && category != nameB
      ensures r.Err? ==> r.error == TypeError && View() == old(View())
      ensures category == nameA ==> (View(), r.value) == RemoveAt(old(View()), A, value)
      ensures category == nameB ==> (View(), r.value) == RemoveAt(old(View()), B, value)
    {
      match SideOf(nameA, nameB, category)
      case None =>
        r := Err(TypeError);
      case Some(A) =>
        var partner := Get(tableA, value);
        if partner.Some? {
          tableB := tableB - {partner.value};
        }
        assert value !in tableA ==> tableA - {value} == tableA;
        tableA := tableA - {value};
        r := Ok(partner);
      case Some(B) =>
        var partner := Get(tableB, value);
        if partner.Some? {
          tableA := tableA - {partner.value};
        }
        assert value !in tableB ==> tableB - {value} == tableB;
        tableB := tableB - {value};
        r := Ok(partner);
    }
  }

  /** The scenario `new Bimap("id", "name")`, `add({id: 1, name: 2})`, both lookups, `remove("id", 1)`. */
  method IdNameScenario() returns (found: Option<int>, partner: Option<int>, removed: Option<int>, after: Option<int>)
    ensures found == Some(1) && partner == Some(2) && removed == Some(2) && after == None
  {
    var m := new Bimap<int>("id", "name");
    var added := m.Add(Obj([("id", 1), ("name", 2)]));
    assert added.Ok?;
    var f := m.Lookup("id", 2);
    found := f.value;
    var n := m.Lookup("name", 1);
    partner := n.value;
    var rem := m.Remove("id", 1);
    removed := rem.value;
    var g := m.Lookup("name", 1);
    after := g.value;
  }
}
