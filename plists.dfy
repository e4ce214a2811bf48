/**
 * Property lists and the bundle they are read from. Reading and parsing a plist file is
 * abstracted to a lookup of already-parsed trees by resource name.
 */
module Plists {
  import opened Results

  /** A parsed property-list tree. */
  datatype Plist =
    | PString(s: string)
    | PNumber(n: int)
    | PArray(items: seq<Plist>)
    | PDict(entries: map<string, Plist>)

  /** A bundle: the resources in it that exist and parse as property lists. */
  datatype Bundle = Bundle(resources: map<string, Plist>)

  /**
   * The property list a bundle holds under a name, or nothing when there is no bundle or the
   * resource is missing or does not parse.
   */
  function PropertyList(bundle: Option<Bundle>, name: string): (r: Option<Plist>)
    ensures r.Some? <==> bundle.Some? && name in bundle.value.resources
    ensures r.Some? ==> r.value == bundle.value.resources[name]
  {
    if bundle.Some? && name in bundle.value.resources then Some(bundle.value.resources[name]) else None
  }

  /** The string stored under `key` of a dictionary, or nothing when absent or not a string. */
  function TextAt(entries: map<string, Plist>, key: string): (r: Option<string>)
    ensures r.Some? <==> key in entries && entries[key].PString?
    ensures r.Some? ==> r.value == entries[key].s
  {
    if key in entries && entries[key].PString? then Some(entries[key].s) else None
  }
}
