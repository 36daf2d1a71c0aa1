/** The stream matcher: appends a received chunk to the buffer and walks the
    prompt table once, in table order, dispatching every rule whose pattern
    occurs in the buffer as it stands when that rule's turn comes.
 */
module Matcher {
  import opened Text
  import opened Rules
  import opened Sessions
  import opened Dispatcher

  /** One dispatched match: the table position of the rule, its name, and
      what the dispatcher did. */
  datatype Fired = Fired(rule: nat, name: string, outcome: Outcome)

  /** The session after processing, and the matches in the order they were
      dispatched. */
  datatype StepResult = StepResult(session: Session, log: seq<Fired>)
  {
    /** Everything sent or waited for, in order. */
    function Trace(): seq<Event> {
      Events(log)
    }
  }

  function Events(log: seq<Fired>): seq<Event> {
    if |log| == 0 then []
    else
      (if log[0].outcome.Advanced? then log[0].outcome.events else []) + Events(log[1..])
  }

  /** Every rule name has a cursor, so no lookup of the dispatcher fails. */
  predicate Covers(table: Table, s: Session) {
    Names(table) <= s.cursors.Keys
  }

  /** The loop of the stream callback from table position `i` on. */
  function ScanFrom(v: Variant, table: Table, i: nat, s: Session): (r: StepResult)
    requires i <= |table|
    requires Covers(table, s)
    decreases |table| - i
    ensures r.session.cursors.Keys == s.cursors.Keys
    // the buffer only ever loses a prefix
    ensures IsSuffix(r.session.pending, s.pending)
  {
    if i == |table| then
      StepResult(s, [])
    else
      var rule := table[i];
      if Contains(s.pending, rule.pattern) then
        var cut := s.(pending := Consume(rule.pattern, s.pending));
        var d := Dispatch(v, rule, cut);
        var rest := ScanFrom(v, table, i + 1, d.session);
        SuffixTransitive(rest.session.pending, cut.pending, s.pending);
        StepResult(rest.session, [Fired(i, rule.name, d.outcome)] + rest.log)
      else
        ScanFrom(v, table, i + 1, s)
  }

  /** One stream callback: the chunk is appended, then the whole table is
      scanned. */
  function Step(v: Variant, table: Table, s: Session, chunk: string): (r: StepResult)
    requires Covers(table, s)
    ensures r.session.cursors.Keys == s.cursors.Keys
    ensures IsSuffix(r.session.pending, s.pending + chunk)
  {
    ScanFrom(v, table, 0, s.(pending := s.pending + chunk))
  }

  /** A whole run: the chunks are processed one after the other, each to
      completion before the next. */
  function Run(v: Variant, table: Table, s: Session, chunks: seq<string>): (r: StepResult)
    requires Covers(table, s)
    decreases |chunks|
    ensures r.session.cursors.Keys == s.cursors.Keys
  {
    if |chunks| == 0 then
      StepResult(s, [])
    else
      var first := Step(v, table, s, chunks[0]);
      var rest := Run(v, table, first.session, chunks[1..]);
      StepResult(rest.session, first.log + rest.log)
  }
}
