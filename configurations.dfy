/**
 * The slice of the configuration the scheduler module reads: the keys of the
 * job namespace in iteration order, the string value of each key, and the
 * per-job view that `subset(prefix)` returns.
 */
module Configurations {
  import opened Wrappers

  /** A configuration: `keys` is the order in which getKeys() yields the keys. */
  datatype Configuration = Configuration(keys: seq<string>, values: map<string, string>)
  {
    /** The view `subset(prefix)`: every lookup of `k` reads `prefix.k` of this configuration. */
    function Subset(prefix: string): SubsetView
    {
      SubsetView(values, prefix)
    }
  }

  /** A live view of a parent configuration under a key prefix. */
  datatype SubsetView = SubsetView(parent: map<string, string>, prefix: string)
  {
    /** The parent key behind the view's key `key`. */
    function ParentKey(key: string): string
    {
      prefix + "." + key
    }

    predicate ContainsKey(key: string)
    {
      ParentKey(key) in parent
    }

    /** The value under `key`, or None where the configuration gives null. */
    function GetString(key: string): Option<string>
    {
      if ContainsKey(key) then Some(parent[ParentKey(key)]) else None
    }
  }
}
