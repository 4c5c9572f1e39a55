/** The optional value used wherever the program reads or writes `undefined`, and the walk over a Map. */
module Options {

  datatype Option<+T> = None | Some(value: T)
  {
    function GetOr(default: T): T {
      if Some? then value else default
    }
  }

  /** A JavaScript truth test on an optional boolean: `undefined` counts as false. */
  predicate Truthy(o: Option<bool>) {
    o == Some(true)
  }

  /** How lodash `merge` treats one scalar field: `undefined` in the source never overwrites. */
  function Over<T>(curr: Option<T>, src: Option<T>): Option<T> {
    if src.Some? then src else curr
  }

  /** The next key in a walk over a Map. The order of the walk is left open: no result may depend on it. */
  method NextKey<T>(todo: set<T>) returns (x: T)
    requires todo != {}
    ensures x in todo
  {
    x :| x in todo;
  }
}
