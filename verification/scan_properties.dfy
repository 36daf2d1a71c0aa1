/** Properties of one pass of the stream matcher over the prompt table, and
    of whole runs made of such passes.
 */
module ScanProperties {
  import opened Text
  import opened Encoding
  import opened Rules
  import opened Sessions
  import opened Dispatcher
  import opened Matcher

  // ---------------------------------------------------------------------
  // Bookkeeping over logs

  /** The action indices taken for name `n`, in dispatch order. */
  function UsedIndices(log: seq<Fired>, n: string): seq<nat> {
    if |log| == 0 then []
    else
      (if log[0].name == n && log[0].outcome.Advanced? then [log[0].outcome.index] else [])
      + UsedIndices(log[1..], n)
  }

  /** The indices `a, a + 1, ..., b - 1`. */
  function Range(a: nat, b: nat): (r: seq<nat>)
    requires a <= b
    ensures |r| == b - a
    ensures forall k :: 0 <= k < |r| ==> r[k] == a + k
  {
    seq(b - a, k requires 0 <= k < b - a => a + k)
  }

  /** How many payloads the gated name sent. */
  function GateSends(log: seq<Fired>): nat {
    if |log| == 0 then 0
    else
      (if log[0].name == GateName && log[0].outcome.Advanced?
       then SendCount(log[0].outcome.events) else 0)
      + GateSends(log[1..])
  }

  /** How many times the gate-arming name was answered. */
  function Arms(log: seq<Fired>): nat {
    if |log| == 0 then 0
    else
      (if log[0].name == ResendName && log[0].outcome.Advanced? then 1 else 0)
      + Arms(log[1..])
  }

  function Flag(b: bool): nat {
    if b then 1 else 0
  }

  lemma UsedIndicesAppend(a: seq<Fired>, b: seq<Fired>, n: string)
    ensures UsedIndices(a + b, n) == UsedIndices(a, n) + UsedIndices(b, n)
  {
    if |a| > 0 {
      assert (a + b)[1..] == a[1..] + b;
      UsedIndicesAppend(a[1..], b, n);
    } else {
      assert a + b == b;
    }
  }

  lemma GateSendsAppend(a: seq<Fired>, b: seq<Fired>)
    ensures GateSends(a + b) == GateSends(a) + GateSends(b)
  {
    if |a| > 0 {
      assert (a + b)[1..] == a[1..] + b;
      GateSendsAppend(a[1..], b);
    } else {
      assert a + b == b;
    }
  }

  lemma ArmsAppend(a: seq<Fired>, b: seq<Fired>)
    ensures Arms(a + b) == Arms(a) + Arms(b)
  {
    if |a| > 0 {
      assert (a + b)[1..] == a[1..] + b;
      ArmsAppend(a[1..], b);
    } else {
      assert a + b == b;
    }
  }

  /** The arming name is answered once per action index it takes. */
  lemma ArmsAreResendIndices(log: seq<Fired>)
    ensures Arms(log) == |UsedIndices(log, ResendName)|
  {
    if |log| > 0 {
      ArmsAreResendIndices(log[1..]);
    }
  }

  lemma RangeAppend(a: nat, b: nat, c: nat)
    requires a <= b <= c
    ensures Range(a, b) + Range(b, c) == Range(a, c)
  {
  }

  /** One dispatch in front of a pass whose actions for `n` run from `c1`
      to `c2`: if it advanced `n` from `c0` to `c1 = c0 + 1`, or left `n`
      alone, the actions for `n` run from `c0` to `c2`. */
  lemma AccountingStep(c0: nat, c1: nat, c2: nat, head: Fired, rest: seq<Fired>, n: string)
    requires c1 <= c2 && UsedIndices(rest, n) == Range(c1, c2)
    requires head.name == n && head.outcome.Advanced? ==> head.outcome.index == c0 && c1 == c0 + 1
    requires !(head.name == n && head.outcome.Advanced?) ==> c1 == c0
    ensures c0 <= c2 && UsedIndices([head] + rest, n) == Range(c0, c2)
  {
    assert ([head] + rest)[1..] == rest;
    if head.name == n && head.outcome.Advanced? {
      RangeAppend(c0, c1, c2);
    }
  }

  /** The rule with table position `i` is in the table's name set. */
  lemma NameInNames(table: Table, i: nat)
    requires i < |table|
    ensures table[i].name in Names(table)
  {
  }

  // ---------------------------------------------------------------------
  // One pass over the table

  /** The pass from table position `i`, one rule further on. */
  lemma ScanUnfold(v: Variant, table: Table, i: nat, s: Session)
    requires i < |table| && Covers(table, s)
    ensures Contains(s.pending, table[i].pattern) ==>
              var d := Dispatch(v, table[i], s.(pending := Consume(table[i].pattern, s.pending)));
              var rest := ScanFrom(v, table, i + 1, d.session);
              ScanFrom(v, table, i, s) == StepResult(rest.session, [Fired(i, table[i].name, d.outcome)] + rest.log)
    ensures !Contains(s.pending, table[i].pattern) ==>
              ScanFrom(v, table, i, s) == ScanFrom(v, table, i + 1, s)
  {
  }

  /** A dispatch of rule `head.rule` in front of a log of later rules, all
      in table order, gives a log in table order. */
  lemma PrependOrdered(table: Table, head: Fired, log: seq<Fired>)
    requires head.rule < |table| && head.name == table[head.rule].name
    requires forall k :: 0 <= k < |log| ==>
               head.rule + 1 <= log[k].rule < |table| && log[k].name == table[log[k].rule].name
    requires forall k, l :: 0 <= k < l < |log| ==> log[k].rule < log[l].rule
    ensures var r := [head] + log;
            && (forall k :: 0 <= k < |r| ==>
                  head.rule <= r[k].rule < |table| && r[k].name == table[r[k].rule].name)
            && (forall k, l :: 0 <= k < l < |r| ==> r[k].rule < r[l].rule)
  {
    var r := [head] + log;
    assert forall k :: 1 <= k < |r| ==> r[k] == log[k - 1];
  }

  /** Each rule from position `i` on is dispatched at most once, and the
      dispatches follow table order, not the order of the text. */
  lemma {:induction false} ScanOrder(v: Variant, table: Table, i: nat, s: Session)
    requires i <= |table| && Covers(table, s)
    decreases |table| - i
    ensures var r := ScanFrom(v, table, i, s);
            && (forall k :: 0 <= k < |r.log| ==>
                  i <= r.log[k].rule < |table| && r.log[k].name == table[r.log[k].rule].name)
            && (forall k, l :: 0 <= k < l < |r.log| ==> r.log[k].rule < r.log[l].rule)
  {
    if i < |table| {
      var rule := table[i];
      ScanUnfold(v, table, i, s);
      if Contains(s.pending, rule.pattern) {
        var cut := s.(pending := Consume(rule.pattern, s.pending));
        var d := Dispatch(v, rule, cut);
        var rest := ScanFrom(v, table, i + 1, d.session);
        ScanOrder(v, table, i + 1, d.session);
        PrependOrdered(table, Fired(i, rule.name, d.outcome), rest.log);
      } else {
        ScanOrder(v, table, i + 1, s);
      }
    }
  }

  /** The first rule, in table order, whose pattern occurs in the buffer is
      the first one dispatched, wherever its pattern sits in the text. */
  lemma {:induction false} TableOrderPriority(v: Variant, table: Table, i: nat, s: Session, j: nat)
    requires i <= j < |table| && Covers(table, s)
    requires Contains(s.pending, table[j].pattern)
    requires forall k :: i <= k < j ==> !Contains(s.pending, table[k].pattern)
    decreases j - i
    ensures var r := ScanFrom(v, table, i, s);
            |r.log| > 0 && r.log[0].rule == j && r.log[0].name == table[j].name
  {
    if i < j {
      TableOrderPriority(v, table, i + 1, s, j);
    }
  }

  /** Passing over the rules `i` to `j - 1`, none of which matches, leaves
      the pass exactly as if it had started at `j`. */
  lemma {:induction false} ScanSkip(v: Variant, table: Table, i: nat, s: Session, j: nat)
    requires i <= j <= |table| && Covers(table, s)
    requires forall k :: i <= k < j ==> !Contains(s.pending, table[k].pattern)
    decreases j - i
    ensures ScanFrom(v, table, i, s) == ScanFrom(v, table, j, s)
  {
    if i < j {
      ScanUnfold(v, table, i, s);
      ScanSkip(v, table, i + 1, s, j);
    }
  }

  /** No entry of the log is a dispatch of rule `j`. */
  predicate Misses(log: seq<Fired>, j: nat) {
    forall k :: 0 <= k < |log| ==> log[k].rule != j
  }

  /** A rule whose pattern is missing from the buffer is dispatched nowhere
      in the rest of the pass: earlier cuts only remove text. */
  lemma {:induction false} AbsentNotFired(v: Variant, table: Table, i: nat, s: Session, j: nat)
    requires i <= |table| && Covers(table, s)
    requires j < |table| && !Contains(s.pending, table[j].pattern)
    decreases |table| - i
    ensures Misses(ScanFrom(v, table, i, s).log, j)
  {
    if i < |table| {
      var rule := table[i];
      ScanUnfold(v, table, i, s);
      if Contains(s.pending, rule.pattern) {
        var cut := s.(pending := Consume(rule.pattern, s.pending));
        var d := Dispatch(v, rule, cut);
        var rest := ScanFrom(v, table, i + 1, d.session);
        assert i != j;
        CutKeepsAbsent(v, rule, s, table[j].pattern);
        AbsentNotFired(v, table, i + 1, d.session, j);
        PrependNotFired(Fired(i, rule.name, d.outcome), rest.log, j);
      } else {
        AbsentNotFired(v, table, i + 1, s, j);
      }
    }
  }

  /** Putting a dispatch of another rule in front of a log keeps `j` out
      of it. */
  lemma PrependNotFired(head: Fired, log: seq<Fired>, j: nat)
    requires head.rule != j && Misses(log, j)
    ensures Misses([head] + log, j)
  {
    var r := [head] + log;
    assert forall k :: 1 <= k < |r| ==> r[k] == log[k - 1];
  }

  /** Cutting the buffer for one rule and dispatching it never makes another
      pattern appear. */
  lemma CutKeepsAbsent(v: Variant, rule: Rule, s: Session, p: string)
    requires rule.name in s.cursors && Contains(s.pending, rule.pattern) && !Contains(s.pending, p)
    ensures !Contains(Dispatch(v, rule, s.(pending := Consume(rule.pattern, s.pending))).session.pending, p)
  {
    AbsentFromSuffix(Consume(rule.pattern, s.pending), s.pending, p);
  }

  /** Table order, not text order, decides which prompt is answered. When
      rule `j` comes after the first matching rule `i` in the table, and its
      prompt appears only in the text that `i`'s cut removes (text before
      `i`'s prompt, or any text at all when `i`'s split clears the buffer),
      then `i` is answered first and `j` is not answered at all in this
      pass. */
  lemma EarlierPromptDropped(v: Variant, table: Table, s: Session, i: nat, j: nat)
    requires i < j < |table| && Covers(table, s)
    requires Contains(s.pending, table[i].pattern)
    requires forall k :: 0 <= k < i ==> !Contains(s.pending, table[k].pattern)
    requires !Contains(Consume(table[i].pattern, s.pending), table[j].pattern)
    ensures var r := ScanFrom(v, table, 0, s);
            && |r.log| > 0 && r.log[0].rule == i
            && forall k :: 0 <= k < |r.log| ==> r.log[k].rule != j
  {
    var rule := table[i];
    ScanSkip(v, table, 0, s, i);
    ScanUnfold(v, table, i, s);
    var cut := s.(pending := Consume(rule.pattern, s.pending));
    var d := Dispatch(v, rule, cut);
    var rest := ScanFrom(v, table, i + 1, d.session);
    assert d.session.pending == cut.pending;
    AbsentNotFired(v, table, i + 1, d.session, j);
    PrependNotFired(Fired(i, rule.name, d.outcome), rest.log, j);
  }

  /** The session a pass started at rule `i` hands to rule `j`: every rule
      before `j` whose pattern occurs has cut the buffer and been
      dispatched. */
  function SessionAt(v: Variant, table: Table, i: nat, s: Session, j: nat): (t: Session)
    requires i <= j <= |table| && Covers(table, s)
    decreases j - i
    ensures t.cursors.Keys == s.cursors.Keys
  {
    if i == j then s
    else
      var rule := table[i];
      if Contains(s.pending, rule.pattern) then
        SessionAt(v, table, i + 1, Dispatch(v, rule, s.(pending := Consume(rule.pattern, s.pending))).session, j)
      else
        SessionAt(v, table, i + 1, s, j)
  }

  /** Rule `j` appears in the log. */
  predicate Dispatches(log: seq<Fired>, j: nat) {
    exists k :: 0 <= k < |log| && log[k].rule == j
  }

  /** Every entry of the log for rule `j` has outcome `o`. */
  predicate OutcomeOf(log: seq<Fired>, j: nat, o: Outcome) {
    forall k :: 0 <= k < |log| && log[k].rule == j ==> log[k].outcome == o
  }

  /** A dispatch of another rule in front of a log changes nothing about
      rule `j`. */
  lemma PrependOther(head: Fired, log: seq<Fired>, j: nat, o: Outcome)
    requires head.rule != j
    ensures Dispatches([head] + log, j) <==> Dispatches(log, j)
    ensures OutcomeOf([head] + log, j, o) <==> OutcomeOf(log, j, o)
  {
    var r := [head] + log;
    assert forall k :: 1 <= k < |r| ==> r[k] == log[k - 1];
    if Dispatches(r, j) {
      var k :| 0 <= k < |r| && r[k].rule == j;
      assert log[k - 1].rule == j;
    }
    if Dispatches(log, j) {
      var k :| 0 <= k < |log| && log[k].rule == j;
      assert r[k + 1].rule == j;
    }
    if OutcomeOf(r, j, o) {
      forall k | 0 <= k < |log| && log[k].rule == j ensures log[k].outcome == o {
        assert r[k + 1] == log[k];
      }
    }
  }

  /** The rule a pass starts at is dispatched exactly when its pattern
      occurs, on the buffer cut at that pattern, and never again. */
  lemma DispatchedHere(v: Variant, table: Table, j: nat, s: Session)
    requires j < |table| && Covers(table, s)
    ensures var r := ScanFrom(v, table, j, s);
            && (Dispatches(r.log, j) <==> Contains(s.pending, table[j].pattern))
            && (Contains(s.pending, table[j].pattern) ==>
                  OutcomeOf(r.log, j, Dispatch(v, table[j], s.(pending := Consume(table[j].pattern, s.pending))).outcome))
  {
    var rule := table[j];
    ScanUnfold(v, table, j, s);
    if Contains(s.pending, rule.pattern) {
      var d := Dispatch(v, rule, s.(pending := Consume(rule.pattern, s.pending)));
      var rest := ScanFrom(v, table, j + 1, d.session);
      ScanOrder(v, table, j + 1, d.session);
      PrependHere(Fired(j, rule.name, d.outcome), rest.log);
    } else {
      AbsentNotFired(v, table, j, s, j);
    }
  }

  /** A dispatch of rule `head.rule` in front of a log of later rules is
      that rule's only dispatch. */
  lemma PrependHere(head: Fired, log: seq<Fired>)
    requires forall k :: 0 <= k < |log| ==> head.rule < log[k].rule
    ensures Dispatches([head] + log, head.rule) && OutcomeOf([head] + log, head.rule, head.outcome)
  {
    var r := [head] + log;
    assert r[0].rule == head.rule;
    assert forall k :: 1 <= k < |r| ==> r[k] == log[k - 1];
  }


  /** The pass keeps going after a match: rule `j` is dispatched exactly
      when its pattern occurs in the buffer the earlier rules of the pass
      leave, and it is dispatched on that buffer, cut at its own pattern. */
  lemma {:induction false} DispatchedIff(v: Variant, table: Table, i: nat, s: Session, j: nat)
    requires i <= j < |table| && Covers(table, s)
    decreases j - i
    ensures var t := SessionAt(v, table, i, s, j);
            var r := ScanFrom(v, table, i, s);
            && (Dispatches(r.log, j) <==> Contains(t.pending, table[j].pattern))
            && (Contains(t.pending, table[j].pattern) ==>
                  OutcomeOf(r.log, j, Dispatch(v, table[j], t.(pending := Consume(table[j].pattern, t.pending))).outcome))
  {
    if i == j {
      DispatchedHere(v, table, j, s);
    } else {
      var rule := table[i];
      ScanUnfold(v, table, i, s);
      var t := SessionAt(v, table, i, s, j);
      if Contains(s.pending, rule.pattern) {
        var d := Dispatch(v, rule, s.(pending := Consume(rule.pattern, s.pending)));
        var rest := ScanFrom(v, table, i + 1, d.session);
        DispatchedIff(v, table, i + 1, d.session, j);
        if Contains(t.pending, table[j].pattern) {
          PrependOther(Fired(i, rule.name, d.outcome), rest.log, j,
                       Dispatch(v, table[j], t.(pending := Consume(table[j].pattern, t.pending))).outcome);
        } else {
          PrependOther(Fired(i, rule.name, d.outcome), rest.log, j, d.outcome);
        }
      } else {
        DispatchedIff(v, table, i + 1, s, j);
      }
    }
  }

  /** What a pass hands on: the session after the whole table is the one
      reached rule by rule, each matching rule having cut the buffer and
      updated cursors and gate. Nothing is cleared or reset at the end. */
  lemma {:induction false} ScanSession(v: Variant, table: Table, i: nat, s: Session)
    requires i <= |table| && Covers(table, s)
    decreases |table| - i
    ensures ScanFrom(v, table, i, s).session == SessionAt(v, table, i, s, |table|)
  {
    if i < |table| {
      var rule := table[i];
      ScanUnfold(v, table, i, s);
      if Contains(s.pending, rule.pattern) {
        ScanSession(v, table, i + 1, Dispatch(v, rule, s.(pending := Consume(rule.pattern, s.pending))).session);
      } else {
        ScanSession(v, table, i + 1, s);
      }
    }
  }

  /** After a rule cuts the buffer the pass does not stop: the first later
      rule whose pattern survives in the remainder is dispatched next. */
  lemma ScanContinues(v: Variant, table: Table, i: nat, s: Session, j: nat)
    requires i < j < |table| && Covers(table, s)
    requires Contains(s.pending, table[i].pattern)
    requires Contains(Consume(table[i].pattern, s.pending), table[j].pattern)
    requires forall k :: i < k < j ==> !Contains(Consume(table[i].pattern, s.pending), table[k].pattern)
    ensures var r := ScanFrom(v, table, i, s);
            && |r.log| >= 2 && r.log[0].rule == i && r.log[1].rule == j
            && r.log[1].name == table[j].name
  {
    var rule := table[i];
    var d := Dispatch(v, rule, s.(pending := Consume(rule.pattern, s.pending)));
    var rest := ScanFrom(v, table, i + 1, d.session);
    ScanUnfold(v, table, i, s);
    TableOrderPriority(v, table, i + 1, d.session, j);
    SecondEntry(Fired(i, rule.name, d.outcome), rest.log);
  }

  lemma SecondEntry(head: Fired, log: seq<Fired>)
    ensures var r := [head] + log;
            |r| == |log| + 1 && r[0] == head && (|log| > 0 ==> r[1] == log[0])
  {
  }


  /** A pass dispatches nothing exactly when no remaining pattern occurs in
      the buffer; unrecognised text then stays in the buffer untouched. */
  lemma {:induction false} ScanQuiet(v: Variant, table: Table, i: nat, s: Session)
    requires i <= |table| && Covers(table, s)
    decreases |table| - i
    ensures var r := ScanFrom(v, table, i, s);
            && (r.log == [] <==> forall j :: i <= j < |table| ==> !Contains(s.pending, table[j].pattern))
            && (r.log == [] ==> r.session == s)
  {
    if i < |table| {
      var rule := table[i];
      if Contains(s.pending, rule.pattern) {
        var cut := s.(pending := Consume(rule.pattern, s.pending));
        ScanQuiet(v, table, i + 1, Dispatch(v, rule, cut).session);
      } else {
        ScanQuiet(v, table, i + 1, s);
      }
    }
  }

  /** Cursors never move backwards, and for every name the actions taken in
      one pass are exactly the indices from the old cursor up to the new
      one, in order: no action is skipped or taken twice. */
  lemma {:induction false} ScanAccounting(v: Variant, table: Table, i: nat, s: Session, n: string)
    requires i <= |table| && Covers(table, s) && n in s.cursors
    decreases |table| - i
    ensures var r := ScanFrom(v, table, i, s);
            && s.cursors[n] <= r.session.cursors[n]
            && UsedIndices(r.log, n) == Range(s.cursors[n], r.session.cursors[n])
  {
    if i < |table| {
      var rule := table[i];
      ScanUnfold(v, table, i, s);
      if Contains(s.pending, rule.pattern) {
        var cut := s.(pending := Consume(rule.pattern, s.pending));
        var d := Dispatch(v, rule, cut);
        var rest := ScanFrom(v, table, i + 1, d.session);
        ScanAccounting(v, table, i + 1, d.session, n);
        AccountingStep(s.cursors[n], d.session.cursors[n], rest.session.cursors[n],
                       Fired(i, rule.name, d.outcome), rest.log, n);
      } else {
        ScanAccounting(v, table, i + 1, s, n);
      }
    }
  }

  /** A pass keeps the session invariant: every cursor stays within its
      name's action list (rules sharing a name share that list). */
  lemma {:induction false} ScanInv(v: Variant, table: Table, i: nat, s: Session)
    requires i <= |table| && SharedActions(table) && Inv(table, s)
    decreases |table| - i
    ensures Inv(table, ScanFrom(v, table, i, s).session)
  {
    if i < |table| {
      var rule := table[i];
      if Contains(s.pending, rule.pattern) {
        var cut := s.(pending := Consume(rule.pattern, s.pending));
        var d := Dispatch(v, rule, cut);
        assert Inv(table, d.session) by {
          forall j | 0 <= j < |table|
            ensures d.session.cursors[table[j].name] <= |table[j].actions|
          {
            NameInNames(table, j);
          }
        }
        ScanInv(v, table, i + 1, d.session);
      } else {
        ScanInv(v, table, i + 1, s);
      }
    }
  }

  /** The entry of a log that advanced sent its rule's scripted action at
      the cursor, plus a carriage return, and otherwise only paused. */
  predicate Scripted(table: Table, f: Fired) {
    f.outcome.Advanced? ==>
      f.rule < |table|
      && var rule := table[f.rule];
         var o := f.outcome;
         o.index < |rule.actions|
         && forall e :: e in o.events ==> e == Send(Payload(rule, o.index)) || e == Pause(ResendPause)
  }

  lemma PrependScripted(table: Table, head: Fired, log: seq<Fired>)
    requires Scripted(table, head) && forall k :: 0 <= k < |log| ==> Scripted(table, log[k])
    ensures forall k :: 0 <= k < |[head] + log| ==> Scripted(table, ([head] + log)[k])
  {
    var r := [head] + log;
    assert forall k :: 1 <= k < |r| ==> r[k] == log[k - 1];
  }

  /** Every payload sent in a pass is the scripted action the rule's cursor
      pointed at, followed by a carriage return; the only other event is the
      fixed pause of the resend rule. */
  lemma {:induction false} ScanPayloads(v: Variant, table: Table, i: nat, s: Session)
    requires i <= |table| && Covers(table, s)
    decreases |table| - i
    ensures var r := ScanFrom(v, table, i, s);
            forall k :: 0 <= k < |r.log| ==> Scripted(table, r.log[k])
  {
    if i < |table| {
      var rule := table[i];
      ScanUnfold(v, table, i, s);
      if Contains(s.pending, rule.pattern) {
        var cut := s.(pending := Consume(rule.pattern, s.pending));
        var d := Dispatch(v, rule, cut);
        var rest := ScanFrom(v, table, i + 1, d.session);
        ScanPayloads(v, table, i + 1, d.session);
        PrependScripted(table, Fired(i, rule.name, d.outcome), rest.log);
      } else {
        ScanPayloads(v, table, i + 1, s);
      }
    }
  }

  /** In the first script a login answer is only ever sent through a gate
      opened by an earlier answer to the arming rule: the login sends of a
      pass, plus the gate if it is left open, never exceed the arms of the
      pass plus the gate as it was. */
  lemma {:induction false} ScanGate(table: Table, i: nat, s: Session)
    requires i <= |table| && Covers(table, s)
    decreases |table| - i
    ensures var r := ScanFrom(Community, table, i, s);
            GateSends(r.log) + Flag(r.session.reboot) <= Arms(r.log) + Flag(s.reboot)
  {
    if i < |table| {
      var rule := table[i];
      if Contains(s.pending, rule.pattern) {
        var cut := s.(pending := Consume(rule.pattern, s.pending));
        var d := Dispatch(Community, rule, cut);
        var rest := ScanFrom(Community, table, i + 1, d.session);
        ScanUnfold(Community, table, i, s);
        ScanGate(table, i + 1, d.session);
        GateStep(rule, cut);
        var log := [Fired(i, rule.name, d.outcome)] + rest.log;
        assert log[1..] == rest.log;
      } else {
        ScanGate(table, i + 1, s);
      }
    }
  }
  /** One dispatch in the first script: a login send uses up an open gate,
      and only an answer to the arming rule opens it. */
  lemma GateStep(rule: Rule, s: Session)
    requires rule.name in s.cursors
    ensures var d := Dispatch(Community, rule, s);
            var o := d.outcome;
            (if o.Advanced? && rule.name == GateName then SendCount(o.events) else 0) + Flag(d.session.reboot)
            <= (if o.Advanced? && rule.name == ResendName then 1 else 0) + Flag(s.reboot)
  {
  }


  /** The 9.2-2 script never reads or writes the gate flag, and every
      action it takes is sent at least once. */
  lemma {:induction false} ScanUngated(table: Table, i: nat, s: Session)
    requires i <= |table| && Covers(table, s)
    decreases |table| - i
    ensures var r := ScanFrom(V922, table, i, s);
            && r.session.reboot == s.reboot
            && forall k :: 0 <= k < |r.log| && r.log[k].outcome.Advanced? ==>
                 SendCount(r.log[k].outcome.events) >= 1
  {
    if i < |table| {
      var rule := table[i];
      ScanUnfold(V922, table, i, s);
      if Contains(s.pending, rule.pattern) {
        var cut := s.(pending := Consume(rule.pattern, s.pending));
        var d := Dispatch(V922, rule, cut);
        var rest := ScanFrom(V922, table, i + 1, d.session);
        ScanUngated(table, i + 1, d.session);
        UngatedSends(rule, cut);
        PrependSends(Fired(i, rule.name, d.outcome), rest.log);
      } else {
        ScanUngated(table, i + 1, s);
      }
    }
  }

  /** In the 9.2-2 script every advancing dispatch sends. */
  lemma UngatedSends(rule: Rule, s: Session)
    requires rule.name in s.cursors
    ensures var o := Dispatch(V922, rule, s).outcome;
            o.Advanced? ==> SendCount(o.events) >= 1
  {
  }

  lemma PrependSends(head: Fired, log: seq<Fired>)
    requires head.outcome.Advanced? ==> SendCount(head.outcome.events) >= 1
    requires forall k :: 0 <= k < |log| && log[k].outcome.Advanced? ==> SendCount(log[k].outcome.events) >= 1
    ensures var r := [head] + log;
            forall k :: 0 <= k < |r| && r[k].outcome.Advanced? ==> SendCount(r[k].outcome.events) >= 1
  {
    var r := [head] + log;
    assert forall k :: 1 <= k < |r| ==> r[k] == log[k - 1];
  }

}
