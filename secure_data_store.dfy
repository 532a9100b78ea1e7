/** `SecureDataStore`: an in-memory table of named values grouped by the
    name of the value's class. The encrypted file format of `save` and
    `load` is not part of this model. */
module SecureDataStore {
  import opened Wrappers

  /** A stored object: the name of its class and an abstract payload. */
  datatype StoredValue = StoredValue(className: string, payload: string)

  /** The `NullPointerException`s: a `null` value to add, or a class never
      added when removing one entry. */
  datatype StoreError = NullValue | UnknownClass(className: string)

  type Entries = map<string, map<string, StoredValue>>

  /** The entries after filing `value` under its class name and `name`. */
  function Added(entries: Entries, name: string, value: StoredValue): (r: Entries)
    ensures r.Keys == entries.Keys + {value.className}
  {
    var table := if value.className in entries then entries[value.className] else map[];
    entries[value.className := table[name := value]]
  }

  /** The entries after removing `name` from every class's table. */
  function RemovedName(entries: Entries, name: string): (r: Entries)
    ensures r.Keys == entries.Keys
  {
    map c | c in entries :: entries[c] - {name}
  }

  function EntryOf(entries: Entries, className: string, name: string): Option<StoredValue>
  {
    if className in entries && name in entries[className] then Some(entries[className][name]) else None
  }

  /** Some class holds an entry of that name. */
  predicate HoldsName(entries: Entries, name: string)
  {
    exists c :: c in entries && name in entries[c]
  }

  /** After adding, the value is found under its class and name, and every
      other class and name keeps its entry. */
  lemma AddThenGet(entries: Entries, name: string, value: StoredValue, className: string, other: string)
    ensures EntryOf(Added(entries, name, value), value.className, name) == Some(value)
    ensures className != value.className || other != name ==>
      EntryOf(Added(entries, name, value), className, other) == EntryOf(entries, className, other)
  {
  }

  /** Adding the same name for the same class again overwrites the earlier
      value. */
  lemma AddOverwrites(entries: Entries, name: string, first: StoredValue, second: StoredValue)
    requires first.className == second.className
    ensures Added(Added(entries, name, first), name, second) == Added(entries, name, second)
  {
    var c := first.className;
    var table := if c in entries then entries[c] else map[];
    assert Added(entries, name, first)[c] == table[name := first];
    assert table[name := first][name := second] == table[name := second];
  }

  /** After removing a name no class holds it, and every other name keeps
      its entry in every class. */
  lemma RemovedNameMeans(entries: Entries, name: string, className: string, other: string)
    ensures !HoldsName(RemovedName(entries, name), name)
    ensures other != name ==> EntryOf(RemovedName(entries, name), className, other) == EntryOf(entries, className, other)
  {
  }

  class SecureDataStore {
    /** Class name to entry name to value. */
    var dataEntries: Entries

    constructor()
      ensures dataEntries == map[]
    {
      dataEntries := map[];
    }

    /** `getEntryNames`: the names filed under the class, none for a class
        with no table. */
    function GetEntryNames(className: string): (r: set<string>)
      reads this
      ensures className !in dataEntries ==> r == {}
      ensures forall name :: name in r <==> EntryOf(dataEntries, className, name).Some?
    {
      if className !in dataEntries then {} else dataEntries[className].Keys
    }

    /** `getEntry(classType, entryName)`: `None` for a class with no table
        or a name not filed under it. */
    function GetEntryOfClass(className: string, name: string): (r: Option<StoredValue>)
      reads this
      ensures className !in dataEntries ==> r.None?
      ensures r.Some? <==> name in GetEntryNames(className)
      ensures r.Some? ==> r.value == dataEntries[className][name]
    {
      if className !in dataEntries then None else if name in dataEntries[className] then Some(dataEntries[className][name]) else None
    }

    /** `getEntry(entryName)`: the classes are searched in the map's own
        order, which is left open, and the first entry of that name found
        is returned. */
    method GetEntry(name: string) returns (r: Option<StoredValue>)
      ensures r.None? <==> !HoldsName(dataEntries, name)
      ensures r.Some? ==> exists c :: c in dataEntries && name in dataEntries[c] && dataEntries[c][name] == r.value
    {
      var remaining := dataEntries.Keys;
      while remaining != {}
        invariant remaining <= dataEntries.Keys
        invariant forall c :: c in dataEntries && c !in remaining ==> name !in dataEntries[c]
        decreases |remaining|
      {
        var c :| c in remaining;
        if name in dataEntries[c] {
          return Some(dataEntries[c][name]);
        }
        remaining := remaining - {c};
      }
      return None;
    }

    /** `addEntry`: the value is filed under its class name, creating the
        class's table on first use; a `null` value fails. */
    method AddEntry(name: string, value: Option<StoredValue>) returns (e: Option<StoreError>)
      modifies this
      ensures value.None? ==> e == Some(NullValue) && dataEntries == old(dataEntries)
      ensures value.Some? ==> e.None? && dataEntries == Added(old(dataEntries), name, value.value)
    {
      if value.None? {
        return Some(NullValue);
      }
      var c := value.value.className;
      if c !in dataEntries {
        dataEntries := dataEntries[c := map[]];
      }
      dataEntries := dataEntries[c := dataEntries[c][name := value.value]];
      return None;
    }

    /** `removeEntry`: the name is removed from the class's table; a class
        never added has no table and fails. */
    method RemoveEntry(className: string, name: string) returns (e: Option<StoreError>)
      modifies this
      ensures e.Some? <==> className !in old(dataEntries)
      ensures e.Some? ==> e == Some(UnknownClass(className)) && dataEntries == old(dataEntries)
      ensures e.None? ==> dataEntries == old(dataEntries)[className := old(dataEntries)[className] - {name}]
    {
      if className !in dataEntries {
        return Some(UnknownClass(className));
      }
      dataEntries := dataEntries[className := dataEntries[className] - {name}];
      return None;
    }

    /** `removeEntriesByEntryName`: the name is removed from every class's
        table, one class at a time. */
    method RemoveEntriesByEntryName(name: string)
      modifies this
      ensures dataEntries == RemovedName(old(dataEntries), name)
    {
      var remaining := dataEntries.Keys;
      while remaining != {}
        invariant remaining <= dataEntries.Keys && dataEntries.Keys == old(dataEntries).Keys
        invariant forall c :: c in remaining ==> dataEntries[c] == old(dataEntries)[c]
        invariant forall c :: c in dataEntries && c !in remaining ==> dataEntries[c] == old(dataEntries)[c] - {name}
        decreases |remaining|
      {
        var c :| c in remaining;
        dataEntries := dataEntries[c := dataEntries[c] - {name}];
        remaining := remaining - {c};
      }
    }

    /** `removeEntriesByEntryClass`: exactly that class's table goes. */
    method RemoveEntriesByEntryClass(className: string)
      modifies this
      ensures dataEntries == old(dataEntries) - {className}
    {
      dataEntries := dataEntries - {className};
    }
  }
}
