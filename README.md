# Bimap, modelled in Dafny

A bimap is a bidirectional hash: an object created with two category names
(say `"id"` and `"name"`) that keeps one lookup table per category, so that a
value of either category can be looked up from its partner. `add({id: 1,
name: "alice"})` writes both tables, `remove("id", 1)` deletes the pair from
both tables and returns the partner, and each category gets an accessor
`<name>From(key)` that reads the *other* category's table.

The model has three modules:

- `Wrappers` (wrappers.dfy): `Option` for a read of a missing property
  (`undefined`) and `Result` for an operation that throws.
- `BimapTables` (bimap_tables.dfy): the two tables as a value (`Tables`),
  the effect of `add`, `remove` and the accessors on them, the predicate
  `Inverse` (the tables are exact inverses) and the lemmas about them.
- `BimapObject` (bimap.dfy): the class `Bimap` with the constant names, the
  `bijection` record and the two mutable tables, plus the argument checks of
  the constructor and of `add`. Each method's postcondition ties the new
  tables to the `BimapTables` function for that operation.

Category A is the first constructor argument and B the second. `tableA`
maps A-values to B-values and `tableB` maps B-values to A-values.

The code's weak spots are kept. `add` overwrites entries and never deletes
the old partner's reverse entry (`OverwriteLeavesResidue`). `remove` deletes
the partner key from the other table whatever that entry maps to. So
`Inverse` is not a class invariant. In the model, `remove` always
preserves it. In the source it can break it through the absent-value case
noted under `BimapObject.Bimap.Remove` in "Left out". `add`
preserves it exactly when both values are new or the pair is already
present (`AddPreservesInverseExactly`). `ReplayPreservesInverse` shows that
any sequence of removes and adds of new values keeps it.

JavaScript arguments are modelled by `Arg`: a string, an object given by
its own keys and values in key-enumeration order, or anything else. `add`
reads only the first two keys. A missing key reads as `undefined`. The
check `this.bijection[keys[0]] !== keys[1]` is followed for keys that are
not properties of the bimap object or of `Object.prototype` (see "Left out"):
- An object with no keys passes the check and then fails on the undefined
  table (`TypeError`).
- An object with one key that is not a category name does the same.
- An object with one key that is a category name fails the check (`KeysMismatch`).
- An object with two or more keys whose first two are not the two names,
  in either order, fails the check (`KeysMismatch`).

I/O, clocks and randomness play no part in this code.

## Model

| member | source | states |
|---|---|---|
| `BimapObject.CheckNames` | main.js:7-9 | the constructor succeeds exactly when both arguments are strings, and otherwise throws its one error |
| `BimapObject.Bijection` | main.js:11-13 | the `bijection` record has exactly the two names as keys, and each maps to the other |
| `BimapObject.Bimap.constructor` | main.js:6-21 | the names are recorded, `bijection` maps each name to the other, both tables start empty, and they are then inverses |
| `BimapObject.Bimap.Create` | main.js:6-9 | construction throws exactly when an argument is not a string; otherwise the new object holds the two names and two empty tables |
| `BimapObject.Bimap.Lookup` | main.js:19-20 | the accessor of the first name reads `tableB`, that of the second reads `tableA`; any other category name fails; the state is not changed |
| `BimapObject.ParsePair` | main.js:28-39 | `add`'s argument is accepted exactly when it is an object whose first two keys are the two names in either order; the result is then (A-value, B-value); a non-object and wrong keys give the source's two errors, and objects with fewer than two keys give the error the source reaches |
| `BimapObject.Bimap.Add` | main.js:28-43 | on an argument that fails validation `add` throws and leaves both tables unchanged; otherwise the tables become `AddPair` of the old tables and the parsed pair |
| `BimapObject.Bimap.Remove` | main.js:51-62 | an unknown category fails with no change; otherwise the new tables and the returned partner are those of `RemoveAt` on the old tables |
| `BimapObject.SideOf` | main.js:52-53 | a category name selects table A exactly when it is the first name and table B exactly when it is the second; any other name selects none |
| `BimapObject.IdNameScenario` | main.js:6-62 | with categories `id` and `name`, after `add({id: 1, name: 2})` the `id` accessor finds 1 from 2 and the `name` accessor finds 2 from 1; `remove("id", 1)` returns 2, and the `name` accessor then finds nothing for 1 |
| `Wrappers.Get` | main.js:53 | reading a key of a table gives its entry when the key is an own key of the table, and `undefined` exactly when it is absent as an own, non-inherited key (model tables inherit nothing) |
| `BimapTables.Empty` | main.js:15-16 | both tables of a new bimap are empty |
| `BimapTables.AddPair` | main.js:41-42 | `a` maps to `b` in `tableA` and `b` to `a` in `tableB`; each table gains at most that one key; every other entry is unchanged, so an earlier partner's reverse entry survives |
| `BimapTables.RemoveAt` | main.js:51-62 | the partner of `value` in its own table is returned (absent if `value` is missing); when present, `value` is deleted from its own table and the partner from the other table, whatever that entry maps to; when absent nothing changes |
| `BimapTables.LookupFrom` | main.js:19-20 | the accessor of category A reads `tableB` and that of B reads `tableA`; a missing key gives absent |
| `BimapTables.AddRoundTrip` | main.js:19-42 | after `add(a, b)`, the B accessor finds `b` from `a` and the A accessor finds `a` from `b` |
| `BimapTables.AddIdempotent` | main.js:41-42 | adding the same pair twice leaves the same tables as adding it once |
| `BimapTables.AddFreshPreservesInverse` | main.js:41-42 | if the tables are inverses and neither value is already a key of its table, they stay inverses after `add` |
| `BimapTables.AddPreservesInverseExactly` | main.js:41-42 | for inverse tables, `add(a, b)` leaves them inverse exactly when both values are new or `a` is already paired with `b` |
| `BimapTables.OverwriteLeavesResidue` | main.js:41-42 | re-adding a paired A-value with a new partner keeps the old reverse entry and leaves the tables no longer inverse |
| `BimapTables.RemovePreservesInverse` | main.js:52-59 | `remove` from either side keeps inverse tables inverse |
| `BimapTables.AddThenRemove` | main.js:41-61 | `add(a, b)` then `remove(A, a)` returns `b`, and afterwards neither `a` nor `b` is found |
| `BimapTables.InverseIsInjective` | main.js:1-2 | inverse tables pair every value with exactly one value of the other category: neither table maps two keys to one value |
| `BimapTables.ReplayPreservesInverse` | main.js:28-62 | any sequence of `remove`s and of `add`s of values not yet paired keeps inverse tables inverse |

## Left out

- JavaScript property-key coercion. Keys are values of one type `V` with Dafny equality, so `1` and `"1"` do not collide as they do in the source.
- Inherited table properties. The source's tables are plain objects, so they inherit the properties of `Object.prototype`, and a model table has none. Two effects follow:
  - Reads of inherited names give a value, not `undefined`. For example, `idFrom("toString")` gives `Object.prototype.toString`, and `remove("id", "constructor")` returns `Object`.
  - A write under the key `"__proto__"` goes to the prototype setter, which ignores a primitive, so no entry is created. `add({id: "__proto__", name: 5})` then leaves `nameFrom("__proto__")` giving `Object.prototype`, not 5, and the round trip of `BimapTables.AddRoundTrip` fails in the source for that value.
- `BimapObject.Bimap.Remove`: when `value` is absent the source reads `undefined` as the partner and deletes the key `"undefined"` from the other table; the model leaves the other table unchanged, since a typed key has no `undefined`.
- `BimapObject.ParsePair`: an object with no keys reads `bijection[undefined]`, which is the key `"undefined"`. A category actually named `"undefined"` would change that outcome, and the model ignores it.
- `BimapObject.ParsePair`: a one-key argument whose key is a property of `Object.prototype` (such as `{constructor: 1}`) reads a non-`undefined` `bijection` entry, so the source throws its key-mismatch string. The model gives `TypeError` there, because its `bijection` holds only the two names.
- `BimapObject.Bimap.Add`: a one-key argument whose key is a property of the bimap, such as `{bijection: "id"}`, passes the key check in the source. The source then writes `this.bijection["id"] = undefined` before it throws on `this[undefined]`, and later `add` calls whose first key is `id`, and `remove("id", _)`, fail. Calls that read only `bijection["name"]`, such as `add({name: 2, id: 1})` and `remove("name", v)`, still work. The model keeps `bijection` constant. This is one case of the name collisions below.
- Dynamic creation of the `<name>From` accessors: one `Lookup(category, key)` stands for both.
- Name collisions with the object's own properties. The source stores tables as `this[name]`, so names such as `"add"`, `"bijection"` or `"xFrom"` would overwrite fields or methods. The model keeps the tables in fields of their own.
- Identical category names make the two tables one object in the source. The constructor requires the names to differ.
- Exotic arguments and JavaScript exception kinds. `null` passes `typeof obj === 'object'` and then fails in `Object.keys`; it is not an `Arg`. Thrown strings and `TypeError`s are the constructors of one `Error` datatype.
- `module.exports`: module plumbing.
