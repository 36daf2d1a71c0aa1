/** Properties of a whole run: the chunks of one session processed in
    arrival order, each to completion before the next.
 */
module RunProperties {
  import opened Text
  import opened Rules
  import opened Sessions
  import opened Dispatcher
  import opened Matcher
  import opened ScanProperties

  /** A run from a session with its first chunk split off. */
  lemma RunUnfold(v: Variant, table: Table, s: Session, chunks: seq<string>)
    requires Covers(table, s) && |chunks| > 0
    ensures var first := Step(v, table, s, chunks[0]);
            var rest := Run(v, table, first.session, chunks[1..]);
            Run(v, table, s, chunks) == StepResult(rest.session, first.log + rest.log)
  {
  }

  /** The session one callback hands to the next is the one its pass
      reaches over the whole table, starting from the carried buffer with
      the chunk appended: buffer, cursors and gate all carry over. */
  lemma StepSession(v: Variant, table: Table, s: Session, chunk: string)
    requires Covers(table, s)
    ensures Step(v, table, s, chunk).session
            == SessionAt(v, table, 0, s.(pending := s.pending + chunk), |table|)
  {
    ScanSession(v, table, 0, s.(pending := s.pending + chunk));
  }

  /** A callback answers nothing exactly when no pattern occurs in the
      carried buffer with the chunk appended; the text is then kept whole
      for the next callback and nothing else changes. */
  lemma StepQuiet(v: Variant, table: Table, s: Session, chunk: string)
    requires Covers(table, s)
    ensures var r := Step(v, table, s, chunk);
            && (r.log == [] <==> forall j :: 0 <= j < |table| ==> !Contains(s.pending + chunk, table[j].pattern))
            && (r.log == [] ==> r.session == s.(pending := s.pending + chunk))
  {
    ScanQuiet(v, table, 0, s.(pending := s.pending + chunk));
  }

  /** A prompt split over two chunks is answered: when the first chunk
      completes no prompt, and the second completes one (the first in table
      order), the second callback dispatches it first. */
  lemma SplitPrompt(v: Variant, table: Table, s: Session, c1: string, c2: string, j: nat)
    requires Covers(table, s) && j < |table|
    requires forall k :: 0 <= k < |table| ==> !Contains(s.pending + c1, table[k].pattern)
    requires Contains(s.pending + c1 + c2, table[j].pattern)
    requires forall k :: 0 <= k < j ==> !Contains(s.pending + c1 + c2, table[k].pattern)
    ensures var r := Run(v, table, s, [c1, c2]);
            && Step(v, table, s, c1).log == []
            && |r.log| > 0 && r.log[0].rule == j && r.log[0].name == table[j].name
  {
    var first := Step(v, table, s, c1);
    StepQuiet(v, table, s, c1);
    var s1 := s.(pending := s.pending + c1);
    assert first == StepResult(s1, []);
    RunUnfold(v, table, s, [c1, c2]);
    assert [c1, c2][0] == c1 && [c1, c2][1..] == [c2];
    RunUnfold(v, table, s1, [c2]);
    assert [c2][0] == c2 && [c2][1..] == [];
    var second := Step(v, table, s1, c2);
    var s2 := s1.(pending := s1.pending + c2);
    assert s2.pending == s.pending + c1 + c2;
    TableOrderPriority(v, table, 0, s2, j);
    assert Run(v, table, s1, [c2]).log == second.log + [];
  }

  /** Over a run, cursors never move backwards, and the actions taken for a
      name are exactly those from its starting cursor up to its final one,
      each once and in script order. */
  lemma {:induction false} RunAccounting(v: Variant, table: Table, s: Session, chunks: seq<string>, n: string)
    requires Covers(table, s) && n in s.cursors
    decreases |chunks|
    ensures var r := Run(v, table, s, chunks);
            && s.cursors[n] <= r.session.cursors[n]
            && UsedIndices(r.log, n) == Range(s.cursors[n], r.session.cursors[n])
  {
    if |chunks| > 0 {
      RunUnfold(v, table, s, chunks);
      var s' := s.(pending := s.pending + chunks[0]);
      var first := Step(v, table, s, chunks[0]);
      var rest := Run(v, table, first.session, chunks[1..]);
      ScanAccounting(v, table, 0, s', n);
      RunAccounting(v, table, first.session, chunks[1..], n);
      UsedIndicesAppend(first.log, rest.log, n);
      RangeAppend(s.cursors[n], first.session.cursors[n], rest.session.cursors[n]);
    }
  }

  /** A run keeps the session invariant. */
  lemma {:induction false} RunInv(v: Variant, table: Table, s: Session, chunks: seq<string>)
    requires SharedActions(table) && Inv(table, s)
    decreases |chunks|
    ensures Inv(table, Run(v, table, s, chunks).session)
  {
    if |chunks| > 0 {
      RunUnfold(v, table, s, chunks);
      var s' := s.(pending := s.pending + chunks[0]);
      ScanInv(v, table, 0, s');
      RunInv(v, table, Step(v, table, s, chunks[0]).session, chunks[1..]);
    }
  }

  /** From the initial session, whatever the console prints: for every rule
      the actions taken for its name are exactly actions 0, 1, ... up to
      the final cursor, in order, and there are never more of them than the
      name's action list holds. */
  lemma ScriptReplay(v: Variant, table: Table, chunks: seq<string>, i: nat)
    requires SharedActions(table) && i < |table|
    ensures var r := Run(v, table, Initial(table), chunks);
            var n := table[i].name;
            && n in r.session.cursors
            && r.session.cursors[n] <= |table[i].actions|
            && UsedIndices(r.log, n) == Range(0, r.session.cursors[n])
  {
    var s := Initial(table);
    NameInNames(table, i);
    InitialInv(table);
    RunInv(v, table, s, chunks);
    RunAccounting(v, table, s, chunks, table[i].name);
  }

  /** Once a name's script is used up it stays used up: later matches of
      its rules take no action and its cursor stays at the list's length. */
  lemma ExhaustedStaysInert(v: Variant, table: Table, s: Session, chunks: seq<string>, i: nat)
    requires SharedActions(table) && Inv(table, s) && i < |table|
    requires s.cursors[table[i].name] == |table[i].actions|
    ensures var r := Run(v, table, s, chunks);
            && r.session.cursors[table[i].name] == |table[i].actions|
            && UsedIndices(r.log, table[i].name) == []
  {
    NameInNames(table, i);
    RunInv(v, table, s, chunks);
    RunAccounting(v, table, s, chunks, table[i].name);
  }

  /** Every payload sent during a run is the scripted action its rule's
      cursor pointed at, followed by a carriage return. */
  lemma {:induction false} RunPayloads(v: Variant, table: Table, s: Session, chunks: seq<string>)
    requires Covers(table, s)
    decreases |chunks|
    ensures var r := Run(v, table, s, chunks);
            forall k :: 0 <= k < |r.log| ==> Scripted(table, r.log[k])
  {
    if |chunks| > 0 {
      RunUnfold(v, table, s, chunks);
      var s' := s.(pending := s.pending + chunks[0]);
      var first := Step(v, table, s, chunks[0]);
      var rest := Run(v, table, first.session, chunks[1..]);
      assert first == ScanFrom(v, table, 0, s');
      ScanPayloads(v, table, 0, s');
      RunPayloads(v, table, first.session, chunks[1..]);
      var log := first.log + rest.log;
      assert forall k :: 0 <= k < |first.log| ==> log[k] == first.log[k];
      assert forall k :: |first.log| <= k < |log| ==> log[k] == rest.log[k - |first.log|];
    }
  }

  lemma EventsAppend(a: seq<Fired>, b: seq<Fired>)
    ensures Events(a + b) == Events(a) + Events(b)
  {
    if |a| > 0 {
      assert (a + b)[1..] == a[1..] + b;
      EventsAppend(a[1..], b);
    } else {
      assert a + b == b;
    }
  }

  /** An event a table can produce: some rule's scripted action plus a
      carriage return, or the resend pause. */
  predicate ScriptedEvent(table: Table, e: Event) {
    e == Pause(ResendPause)
    || exists i, k :: 0 <= i < |table| && 0 <= k < |table[i].actions| && e == Send(Payload(table[i], k))
  }

  /** A log of scripted dispatches produces only scripted events. */
  lemma {:induction false} EventsScripted(table: Table, log: seq<Fired>)
    requires forall k :: 0 <= k < |log| ==> Scripted(table, log[k])
    ensures forall e :: e in Events(log) ==> ScriptedEvent(table, e)
  {
    if |log| > 0 {
      assert forall k :: 0 <= k < |log[1..]| ==> log[1..][k] == log[k + 1];
      EventsScripted(table, log[1..]);
      var f := log[0];
      assert Scripted(table, f);
      if f.outcome.Advanced? {
        forall e | e in f.outcome.events ensures ScriptedEvent(table, e) {
          if e != Pause(ResendPause) {
            assert e == Send(Payload(table[f.rule], f.outcome.index));
          }
        }
      }
    }
  }

  /** What a run sends and waits for: the traces of its callbacks one after
      the other, in arrival order, and nothing but scripted payloads and
      the resend pause. */
  lemma RunTrace(v: Variant, table: Table, s: Session, chunks: seq<string>)
    requires Covers(table, s)
    ensures var r := Run(v, table, s, chunks);
            && (|chunks| == 0 ==> r.Trace() == [])
            && (|chunks| > 0 ==>
                  var first := Step(v, table, s, chunks[0]);
                  r.Trace() == first.Trace() + Run(v, table, first.session, chunks[1..]).Trace())
            && forall e :: e in r.Trace() ==> ScriptedEvent(table, e)
  {
    if |chunks| > 0 {
      var first := Step(v, table, s, chunks[0]);
      var rest := Run(v, table, first.session, chunks[1..]);
      RunUnfold(v, table, s, chunks);
      EventsAppend(first.log, rest.log);
    }
    RunPayloads(v, table, s, chunks);
    EventsScripted(table, Run(v, table, s, chunks).log);
  }

  /** The first script's gate over a run: login sends, plus the gate if it
      is left open, never exceed the answers to the arming rule plus the
      gate as it was at the start. */
  lemma {:induction false} RunGate(table: Table, s: Session, chunks: seq<string>)
    requires Covers(table, s)
    decreases |chunks|
    ensures var r := Run(Community, table, s, chunks);
            GateSends(r.log) + Flag(r.session.reboot) <= Arms(r.log) + Flag(s.reboot)
  {
    if |chunks| > 0 {
      RunUnfold(Community, table, s, chunks);
      var s' := s.(pending := s.pending + chunks[0]);
      var first := Step(Community, table, s, chunks[0]);
      var rest := Run(Community, table, first.session, chunks[1..]);
      ScanGate(table, 0, s');
      RunGate(table, first.session, chunks[1..]);
      GateSendsAppend(first.log, rest.log);
      ArmsAppend(first.log, rest.log);
    }
  }

  /** In the first script, from the initial session, the login prompt is
      answered at most as many times as the arming rule has actions. */
  lemma LoginBound(table: Table, chunks: seq<string>, j: nat)
    requires SharedActions(table) && j < |table| && table[j].name == ResendName
    ensures GateSends(Run(Community, table, Initial(table), chunks).log) <= |table[j].actions|
  {
    var r := Run(Community, table, Initial(table), chunks);
    RunGate(table, Initial(table), chunks);
    ArmsAreResendIndices(r.log);
    ScriptReplay(Community, table, chunks, j);
  }

  /** The 9.2-2 script over a run: the gate flag never changes, and every
      action taken is sent. */
  lemma {:induction false} RunUngated(table: Table, s: Session, chunks: seq<string>)
    requires Covers(table, s)
    decreases |chunks|
    ensures var r := Run(V922, table, s, chunks);
            && r.session.reboot == s.reboot
            && forall k :: 0 <= k < |r.log| && r.log[k].outcome.Advanced? ==>
                 SendCount(r.log[k].outcome.events) >= 1
  {
    if |chunks| > 0 {
      RunUnfold(V922, table, s, chunks);
      var s' := s.(pending := s.pending + chunks[0]);
      var first := Step(V922, table, s, chunks[0]);
      var rest := Run(V922, table, first.session, chunks[1..]);
      ScanUngated(table, 0, s');
      RunUngated(table, first.session, chunks[1..]);
      var log := first.log + rest.log;
      assert forall k :: |first.log| <= k < |log| ==> log[k] == rest.log[k - |first.log|];
    }
  }
}
