/**
 * Storage keys of the 'auto-vxlan' resource. A config record lives under
 * `<config root>auto-vxlan/<id>`, an oper record under `<oper root>auto-vxlan/<id>`.
 * The two roots belong to the state driver's configuration and are parameters
 * here; the model only relies on the two keyspaces being distinct.
 */
module Keys {

  /** The resource kind string, constant for this resource type. */
  const AutoVxlanResource: string := "auto-vxlan"

  /** The kind string is one non-empty path segment. */
  function Description(): (r: string)
    ensures |r| > 0
    ensures forall i :: 0 <= i < |r| ==> r[i] != '/'
  {
    AutoVxlanResource
  }

  /** The directory holding every record of this kind under `root`. */
  function PathPrefix(root: string): string {
    root + Description() + "/"
  }

  /** The key of the record of resource `id` under `root`. */
  function Path(root: string, id: string): (k: string)
    ensures |k| == |PathPrefix(root)| + |id|
    ensures k[..|PathPrefix(root)|] == PathPrefix(root)
    ensures k[|PathPrefix(root)|..] == id
  {
    PathPrefix(root) + id
  }

  /**
   * Within one keyspace the id is recoverable from the key, so a keyspace
   * is a map from resource id to record.
   */
  lemma PathInjective(root: string, a: string, b: string)
    requires Path(root, a) == Path(root, b)
    ensures a == b
  {
  }
}
