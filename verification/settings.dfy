/**
 * The configuration values the request layer reads from its settings
 * modules: the node registry (EIDA_NODES) as a value the callers pass in.
 */
module Settings {
  import opened Wrappers

  /**
   * One registry entry. Only the nested `services.eida.routing.server` value
   * matters here; it is None when any key on that path is missing.
   */
  datatype NodeConfig = NodeConfig(routingServer: Option<string>)

  /** The registry: its node names in the dict's key order, and each node's entry. */
  datatype Registry = Registry(names: seq<string>, entries: map<string, NodeConfig>)
  {
    /** A dict: every key once, and the key order lists exactly the keys. */
    predicate Valid()
    {
      && (forall i, j :: 0 <= i < j < |names| ==> names[i] != names[j])
      && (forall n :: n in entries ==> n in names)
      && (forall i :: 0 <= i < |names| ==> names[i] in entries)
    }
  }
}
