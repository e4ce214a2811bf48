/**
 * A database description: its name, the path of its file and its sql maps, filled in from a
 * configuration record, and the lookup of the statements stored under a map name and an id.
 */
module Models {
  import opened Results
  import opened Plists

  const DbNameKey: string := "dbName"
  const DbFilePathKey: string := "dbFilePath"
  const SqlmapsKey: string := "sqlmaps"

  /** The fields of a database description, as a value. */
  datatype Profile = Profile(dbName: Option<string>, dbFilePath: Option<string>,
                             sqlmaps: Option<map<string, Plist>>)

  const Blank: Profile := Profile(None, None, None)

  /** The "sqlmaps" dictionary of a configuration record, when it has one. */
  function SqlmapRefs(record: Plist): Option<map<string, Plist>> {
    if record.PDict? && SqlmapsKey in record.entries && record.entries[SqlmapsKey].PDict?
    then Some(record.entries[SqlmapsKey].entries)
    else None
  }

  /** Every entry of a record's "sqlmaps" dictionary names its resource by a string. */
  predicate RefsAreNames(record: Plist) {
    SqlmapRefs(record).Some? ==>
      forall k :: k in SqlmapRefs(record).value ==> SqlmapRefs(record).value[k].PString?
  }

  /** The sql maps of the refs in `done` whose resource loads, each bound to the loaded tree. */
  function LoadedMaps(refs: map<string, Plist>, done: set<string>, bundle: Option<Bundle>): map<string, Plist>
    requires forall k :: k in refs ==> refs[k].PString?
  {
    map k | k in done && k in refs && PropertyList(bundle, refs[k].s).Some?
      :: PropertyList(bundle, refs[k].s).value
  }

  /**
   * What reading a configuration record does to a description: a record that is not a
   * dictionary changes nothing; otherwise the name and the path are read from their keys (absent
   * or not a string: none), and the sql maps are replaced only when the record has a "sqlmaps"
   * dictionary.
   */
  function Described(p: Profile, record: Plist, bundle: Option<Bundle>): Profile
    requires RefsAreNames(record)
  {
    if !record.PDict? then p
    else
      var refs := SqlmapRefs(record);
      Profile(TextAt(record.entries, DbNameKey),
              TextAt(record.entries, DbFilePathKey),
              if refs.Some? then Some(LoadedMaps(refs.value, refs.value.Keys, bundle)) else p.sqlmaps)
  }

  /** The strings of a list, in order, when every element is a string. */
  function Strings(items: seq<Plist>): (r: Option<seq<string>>)
    ensures r.Some? <==> forall i :: 0 <= i < |items| ==> items[i].PString?
    ensures r.Some? ==> |r.value| == |items| && forall i :: 0 <= i < |items| ==> r.value[i] == items[i].s
  {
    if items == [] then Some([])
    else if !items[0].PString? then None
    else
      match Strings(items[1..])
      case None => None
      case Some(rest) => Some([items[0].s] + rest)
  }

  /** Loads the sql map each ref names, one ref at a time; a ref whose resource does not load is dropped. */
  method LoadMaps(refs: map<string, Plist>, bundle: Option<Bundle>) returns (maps: map<string, Plist>)
    requires forall k :: k in refs ==> refs[k].PString?
    ensures maps == LoadedMaps(refs, refs.Keys, bundle)
  {
    maps := map[];
    var todo := refs.Keys;
    while todo != {}
      invariant todo <= refs.Keys
      invariant maps == LoadedMaps(refs, refs.Keys - todo, bundle)
      decreases |todo|
    {
      var key :| key in todo;
      var loaded := PropertyList(bundle, refs[key].s);
      if loaded.Some? {
        maps := maps[key := loaded.value];
      } else {
        maps := maps - {key};
      }
      todo := todo - {key};
    }
    assert refs.Keys - todo == refs.Keys;
  }

  class DBModel {
    var dbName: Option<string>
    var dbFilePath: Option<string>
    var sqlmaps: Option<map<string, Plist>>

    function View(): Profile
      reads this
    {
      Profile(dbName, dbFilePath, sqlmaps)
    }

    /** A description made from a configuration record. */
    constructor (record: Plist, bundle: Option<Bundle>)
      requires RefsAreNames(record)
      ensures View() == Described(Blank, record, bundle)
    {
      dbName, dbFilePath, sqlmaps := None, None, None;
      new;
      SetProperties(record, bundle);
    }

    /**
     * Reads the name, the path and the sql maps from a configuration record; each sql map is
     * loaded from the bundle by the resource name the record gives for it.
     */
    method SetProperties(record: Plist, bundle: Option<Bundle>)
      requires RefsAreNames(record)
      modifies this
      ensures View() == Described(old(View()), record, bundle)
    {
      if record.PDict? {
        var dict := record.entries;
        dbName := TextAt(dict, DbNameKey);
        dbFilePath := TextAt(dict, DbFilePathKey);
        if SqlmapsKey in dict && dict[SqlmapsKey].PDict? {
          var refs := dict[SqlmapsKey].entries;
          var mutableMaps := LoadMaps(refs, bundle);
          assert SqlmapRefs(record) == Some(refs);
          sqlmaps := Some(mutableMaps);
        }
      }
    }

    /**
     * The statements stored under `sqlId` in the sql map `mapName`: a string entry gives a list
     * of that one string, a list of strings gives the list in order; a missing map or id, a map
     * that is not a dictionary, or any other entry gives none.
     */
    function Queries(mapName: string, sqlId: string): (r: Option<seq<string>>)
      reads this
      ensures r.Some? ==> sqlmaps.Some? && mapName in sqlmaps.value
      ensures r.Some? ==> sqlmaps.value[mapName].PDict? && sqlId in sqlmaps.value[mapName].entries
      ensures r.Some? ==> var entry := sqlmaps.value[mapName].entries[sqlId];
                          (entry.PString? && r.value == [entry.s]) || (entry.PArray? && Strings(entry.items) == r)
    {
      if sqlmaps.None? || mapName !in sqlmaps.value then None
      else match sqlmaps.value[mapName]
        case PDict(ids) =>
          if sqlId !in ids then None
          else (match ids[sqlId]
                case PString(s) => Some([s])
                case PArray(items) => Strings(items)
                case _ => None)
        case _ => None
    }
  }

  /**
   * A statement stored in a loaded sql map is found again under its map name and id: a string
   * entry as a one-element list, a list of strings in declared order.
   */
  lemma QueriesFindStoredEntry(m: DBModel, record: Plist, bundle: Option<Bundle>,
                               mapName: string, sqlId: string)
    requires RefsAreNames(record) && m.View() == Described(Blank, record, bundle)
    requires SqlmapRefs(record).Some? && mapName in SqlmapRefs(record).value
    requires PropertyList(bundle, SqlmapRefs(record).value[mapName].s).Some?
    ensures var tree := PropertyList(bundle, SqlmapRefs(record).value[mapName].s).value;
            tree.PDict? && sqlId in tree.entries && tree.entries[sqlId].PString?
            ==> m.Queries(mapName, sqlId) == Some([tree.entries[sqlId].s])
    ensures var tree := PropertyList(bundle, SqlmapRefs(record).value[mapName].s).value;
            tree.PDict? && sqlId in tree.entries && tree.entries[sqlId].PArray?
            ==> m.Queries(mapName, sqlId) == Strings(tree.entries[sqlId].items)
  {
  }

  /**
   * Lookups that find nothing: a missing sql map (its resource did not load, or the record has
   * none), a map that is not a dictionary, a missing id, a number or dictionary entry, or a list
   * holding anything but strings.
   */
  lemma QueriesMissing(m: DBModel, mapName: string, sqlId: string)
    ensures m.sqlmaps.None? ==> m.Queries(mapName, sqlId).None?
    ensures m.sqlmaps.Some? && mapName !in m.sqlmaps.value ==> m.Queries(mapName, sqlId).None?
    ensures m.sqlmaps.Some? && mapName in m.sqlmaps.value ==>
              var map1 := m.sqlmaps.value[mapName];
              (!map1.PDict? ==> m.Queries(mapName, sqlId).None?)
              && (map1.PDict? && sqlId !in map1.entries ==> m.Queries(mapName, sqlId).None?)
              && (map1.PDict? && sqlId in map1.entries && map1.entries[sqlId].PNumber?
                  ==> m.Queries(mapName, sqlId).None?)
              && (map1.PDict? && sqlId in map1.entries && map1.entries[sqlId].PDict?
                  ==> m.Queries(mapName, sqlId).None?)
              && (map1.PDict? && sqlId in map1.entries && map1.entries[sqlId].PArray?
                  && (exists i :: 0 <= i < |map1.entries[sqlId].items| && !map1.entries[sqlId].items[i].PString?)
                  ==> m.Queries(mapName, sqlId).None?)
  {
  }

  /**
   * The sql maps of a description read from a record with a "sqlmaps" dictionary have as keys
   * exactly the refs whose resource loads, each bound to the loaded tree.
   */
  lemma {:induction false} LoadedMapsExact(record: Plist, bundle: Option<Bundle>, p: Profile)
    requires RefsAreNames(record) && SqlmapRefs(record).Some?
    ensures var refs := SqlmapRefs(record).value;
            var maps := Described(p, record, bundle).sqlmaps;
            maps.Some?
            && (forall k :: k in maps.value <==> k in refs && PropertyList(bundle, refs[k].s).Some?)
            && (forall k :: k in maps.value ==> maps.value[k] == PropertyList(bundle, refs[k].s).value)
  {
  }
}
