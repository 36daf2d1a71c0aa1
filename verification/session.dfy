/** The per-run session: the unconsumed console text, one response cursor
    per rule name, and the first script's `reboot` gate flag.
 */
module Sessions {
  import opened Rules

  datatype Session = Session(pending: string, cursors: map<string, nat>, reboot: bool)

  /** The session before the first chunk: an empty buffer, every name of
      the table at cursor 0, and the gate closed. */
  function Initial(table: Table): Session {
    Session("", map n | n in Names(table) :: 0, false)
  }

  /** Builds the cursor map the way the console object's constructor does:
      one pass over the table, adding a name at 0 the first time it is seen.
      The result is the declarative initial session whatever the table. */
  method NewSession(table: Table) returns (s: Session)
    ensures s.cursors.Keys == Names(table)
    ensures forall n :: n in s.cursors ==> s.cursors[n] == 0
    ensures s.pending == "" && !s.reboot
    ensures s == Initial(table)
  {
    var cursors: map<string, nat> := map[];
    var i := 0;
    while i < |table|
      invariant 0 <= i <= |table|
      invariant cursors.Keys == Names(table[..i])
      invariant forall n :: n in cursors ==> cursors[n] == 0
    {
      assert Names(table[..i + 1]) == Names(table[..i]) + {table[i].name} by {
        assert forall j :: 0 <= j < i ==> table[..i + 1][j] == table[..i][j];
      }
      if table[i].name !in cursors {
        cursors := cursors[table[i].name := 0];
      }
      i := i + 1;
    }
    assert table[..i] == table;
    s := Session("", cursors, false);
  }

  /** The session invariant: the cursors are exactly the table's names and
      no cursor is past the end of its name's action list. */
  predicate Inv(table: Table, s: Session) {
    && s.cursors.Keys == Names(table)
    && forall i :: 0 <= i < |table| ==> s.cursors[table[i].name] <= |table[i].actions|
  }

  lemma InitialInv(table: Table)
    ensures Inv(table, Initial(table))
  {
  }
}
