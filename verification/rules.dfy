/** The prompt table: an ordered list of rules, each a pattern to look for in
    the console output, a symbolic name and the scripted responses.
    Several rules may share a name; they then share one cursor, and in the
    scripts' tables they also carry the same action list.
 */
module Rules {
  import opened Encoding

  datatype Rule = Rule(pattern: string, name: string, actions: seq<Bytes>)

  type Table = seq<Rule>

  /** The distinct rule names of a table. */
  function Names(table: Table): set<string> {
    set i | 0 <= i < |table| :: table[i].name
  }

  /** Rules that share a name share their action list. */
  predicate SharedActions(table: Table) {
    forall i, j :: 0 <= i < |table| && 0 <= j < |table| && table[i].name == table[j].name ==>
      table[i].actions == table[j].actions
  }

  /** The table whose `i`-th rule is `(patterns[i].0, patterns[i].1,
      actionsOf(patterns[i].1))`: the scripts pick each rule's action list
      by its name, so such a table shares action lists structurally. */
  function Build(patterns: seq<(string, string)>, actionsOf: string -> seq<Bytes>): (table: Table)
    ensures |table| == |patterns|
    ensures forall i :: 0 <= i < |table| ==>
              && table[i].pattern == patterns[i].0
              && table[i].name == patterns[i].1
              && table[i].actions == actionsOf(patterns[i].1)
    ensures SharedActions(table)
  {
    seq(|patterns|, i requires 0 <= i < |patterns| =>
      Rule(patterns[i].0, patterns[i].1, actionsOf(patterns[i].1)))
  }
}
