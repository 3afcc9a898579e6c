/**
 * The community ledger: `database.json`, a map from a phone number's digits
 * to the names reported for it, oldest first (index.js:29-38, 96-109).
 */
module Ledger {

  import opened Wrappers
  import opened Json
  import opened Lookup

  type Db = map<string, seq<Json>>

  /** The backing file: absent, holding text that does not parse, or
      holding a map. */
  datatype File = Missing | Corrupt | Stored(db: Db)

  /** The comparison `Array.prototype.includes` makes (SameValueZero):
      strings and `null` compare by value; an object is only ever the same
      as itself, and the name being recorded never shares its identity with
      anything in a freshly parsed ledger. */
  predicate Same(a: Json, b: Json) {
    !a.Obj? && a == b
  }

  /** `names.includes(name)`. */
  predicate Includes(names: seq<Json>, name: Json) {
    exists i :: 0 <= i < |names| && Same(names[i], name)
  }

  /** No two entries of a list are the same in the sense of `includes`. */
  predicate Distinct(names: seq<Json>) {
    forall i, j :: 0 <= i < j < |names| ==> !Same(names[i], names[j])
  }

  /** The list for `number`, or the empty list `!db[number]` creates. */
  function Entries(db: Db, number: string): seq<Json> {
    if number in db then db[number] else []
  }

  /** The in-memory ledger after the update, and whether a name was pushed
      (which is exactly when `saveDB` runs). */
  datatype Update = Update(db: Db, appended: bool)

  /** The update of index.js:98-107: create the list when it is missing,
      then push the name unless it is the "Not Found" sentinel or already
      included. */
  function Record(db: Db, number: string, name: Json): (u: Update)
    ensures number in u.db
    ensures name != Str(NotFound) ==> name in u.db[number]
    ensures Entries(db, number) <= u.db[number]
    ensures |u.db[number]| <= |Entries(db, number)| + 1
    ensures u.db.Keys == db.Keys + {number}
    ensures forall k :: k in db && k != number ==> u.db[k] == db[k]
  {
    var names := Entries(db, number);
    var created := db[number := names];
    if name != Str(NotFound) && !Includes(names, name) then
      Update(created[number := names + [name]], true)
    else
      Update(created, false)
  }

  /** The ledger changes (and is saved) exactly when the list for the
      number grows by the one new name. */
  lemma RecordAppendedIff(db: Db, number: string, name: Json)
    ensures var u := Record(db, number, name);
            && (u.appended <==> u.db[number] != Entries(db, number))
            && (u.appended <==> u.db[number] == Entries(db, number) + [name])
            && (u.appended <==> name != Str(NotFound) && !Includes(Entries(db, number), name))
  {
  }

  /** A list without repeats keeps that property. */
  lemma RecordKeepsDistinct(db: Db, number: string, name: Json)
    requires Distinct(Entries(db, number))
    ensures Distinct(Record(db, number, name).db[number])
  {
    var old_ := Entries(db, number);
    var u := Record(db, number, name);
    if u.appended {
      var l := u.db[number];
      forall i, j | 0 <= i < j < |l| ensures !Same(l[i], l[j]) {
        if j == |old_| {
          assert l[j] == name;
          assert !Same(old_[i], name);
        } else {
          assert l[i] == old_[i] && l[j] == old_[j];
        }
      }
    }
  }

  /** Recording a string name a second time changes nothing and saves
      nothing. */
  lemma RecordIdempotent(db: Db, number: string, name: Json)
    requires !name.Obj?
    ensures var u := Record(db, number, name);
            Record(u.db, number, name) == Update(u.db, false)
  {
    var u := Record(db, number, name);
    var l := u.db[number];
    if name != Str(NotFound) {
      var i :| 0 <= i < |l| && l[i] == name;
      assert Same(l[i], name);
    }
    assert u.db[number := l] == u.db;
  }

  /** An object that got through the name chain is never `includes`d by a
      freshly parsed list, so every lookup returning it pushes it again. */
  lemma RecordObjectAlwaysAppends(db: Db, number: string, name: Json)
    requires name.Obj?
    ensures Record(db, number, name).appended
    ensures |Record(db, number, name).db[number]| == |Entries(db, number)| + 1
  {
  }

  /** The same object name recorded twice under a new number is stored
      twice: `Distinct` (the `includes` sense of "no repeats") still holds,
      although the two entries are equal values and print alike. */
  lemma ObjectNameRepeats(db: Db, number: string, inner: Json)
    requires number !in db
    ensures var o := Obj(inner);
            var twice := Record(Record(db, number, o).db, number, o);
            && twice.appended
            && twice.db[number] == [o, o]
            && Distinct(twice.db[number])
  {
    var o := Obj(inner);
    var once := Record(db, number, o);
    RecordObjectAlwaysAppends(db, number, o);
    RecordAppendedIff(db, number, o);
    assert once.db[number] == [o];
    RecordAppendedIff(once.db, number, o);
    assert [o] + [o] == [o, o];
  }

  /** A stored ledger as the handler leaves it: no key holds an empty list
      (a created list is only written out together with its first name)
      and no list holds a repeat. */
  predicate Consistent(file: File) {
    file.Stored? ==>
      forall k :: k in file.db ==> |file.db[k]| > 0 && Distinct(file.db[k])
  }

  /** `loadDB` (index.js:29-34): a missing file is created holding `{}`;
      text that does not parse makes `JSON.parse` throw (None). */
  function Loaded(file: File): Option<Db> {
    match file
    case Missing => Some(map[])
    case Corrupt => None
    case Stored(db) => Some(db)
  }

  /** The file after `loadDB` has run. */
  function AfterLoad(file: File): File {
    if file.Missing? then Stored(map[]) else file
  }

  /** The file at the end of a request whose update was `u`, starting from
      the loaded ledger `db`: written out only when a name was pushed. */
  function Persisted(loaded: File, u: Update): File {
    if u.appended then Stored(u.db) else loaded
  }

  /** Loading, recording and persisting keeps a consistent file
      consistent. */
  lemma PersistKeepsConsistent(file: File, number: string, name: Json)
    requires Consistent(file) && Loaded(file).Some?
    ensures var u := Record(Loaded(file).value, number, name);
            Consistent(Persisted(AfterLoad(file), u))
  {
    var db := Loaded(file).value;
    var u := Record(db, number, name);
    if u.appended {
      RecordKeepsDistinct(db, number, name);
      forall k | k in u.db ensures |u.db[k]| > 0 && Distinct(u.db[k]) {
        if k == number {
          RecordAppendedIff(db, number, name);
        } else {
          assert k in db;
        }
      }
    }
  }

  /** The file `database.json` and the number of `saveDB` calls made so far. */
  class Store {
    var file: File
    var saves: nat

    ghost predicate Valid()
      reads this
    {
      Consistent(file)
    }

    constructor (initial: File)
      ensures file == initial && saves == 0
    {
      file := initial;
      saves := 0;
    }

    /** `loadDB` (index.js:29-34). */
    method Load() returns (db: Option<Db>)
      modifies this
      ensures db == Loaded(old(file))
      ensures file == AfterLoad(old(file))
      ensures saves == old(saves)
    {
      match file
      case Missing =>
        file := Stored(map[]);
        db := Some(map[]);
      case Corrupt =>
        db := None;
      case Stored(m) =>
        db := Some(m);
    }

    /** `saveDB` (index.js:36-38): the whole ledger replaces the file. */
    method Save(db: Db)
      modifies this
      ensures file == Stored(db)
      ensures saves == old(saves) + 1
    {
      file := Stored(db);
      saves := saves + 1;
    }

    /** The ledger step of a request (index.js:96-109): load, create the
        list when missing, push a new name and save, and give back the
        list to display; None when the file does not parse. */
    method RecordName(number: string, name: Json) returns (names: Option<seq<Json>>)
      modifies this
      ensures Loaded(old(file)).None? ==> names.None? && file == old(file) && saves == old(saves)
      ensures Loaded(old(file)).Some? ==>
                var u := Record(Loaded(old(file)).value, number, name);
                && names == Some(u.db[number])
                && file == Persisted(AfterLoad(old(file)), u)
                && saves == old(saves) + (if u.appended then 1 else 0)
      ensures old(Valid()) ==> Valid()
    {
      ghost var before := file;
      var loaded := Load();
      if loaded.None? {
        return None;
      }
      var db := loaded.value;
      if number !in db {
        db := db[number := []];
      }
      if name != Str(NotFound) && !Includes(db[number], name) {
        db := db[number := db[number] + [name]];
        Save(db);
      }
      names := Some(db[number]);
      if Consistent(before) {
        PersistKeepsConsistent(before, number, name);
      }
    }
  }
}
