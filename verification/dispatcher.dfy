/** The action dispatcher: what one matched rule sends and how it moves the
    session on. The transport's `send` and the ten-second `sleep` become
    events in a trace instead of effects.
 */
module Dispatcher {
  import opened Encoding
  import opened Rules
  import opened Sessions

  /** Which script's dispatch policy applies. `Community` is the first
      script, whose login answer waits on the `reboot` gate; `V922` is the
      9.2-2 script, which has no gate. */
  datatype Variant = Community | V922

  datatype Event = Send(payload: Bytes) | Pause(seconds: nat)

  /** What a dispatch did: nothing because the name's script is used up,
      or it took action `index` of the script and emitted `events`. */
  datatype Outcome = Exhausted | Advanced(index: nat, events: seq<Event>)

  datatype Dispatched = Dispatched(session: Session, outcome: Outcome)

  /** The line terminator appended to every scripted action. */
  const CR: byte := 13
  /** The name whose answer the first script sends only once `reboot` is set. */
  const GateName: string := "USERNAME"
  /** The name that is answered twice, ten seconds apart (and, in the first
      script, arms the gate). */
  const ResendName: string := "INTSET"
  const ResendPause: nat := 10

  /** The bytes typed for action `k` of a rule. */
  function Payload(rule: Rule, k: nat): Bytes
    requires k < |rule.actions|
  {
    rule.actions[k] + [CR]
  }

  function SendCount(events: seq<Event>): nat {
    if |events| == 0 then 0
    else (if events[0].Send? then 1 else 0) + SendCount(events[1..])
  }

  /** Handles one match of `rule`. */
  function Dispatch(v: Variant, rule: Rule, s: Session): (r: Dispatched)
    requires rule.name in s.cursors
    // the buffer belongs to the matcher
    ensures r.session.pending == s.pending
    // an exhausted name is inert: only a diagnostic in the source
    ensures s.cursors[rule.name] >= |rule.actions| <==> r.outcome.Exhausted?
    ensures r.outcome.Exhausted? ==> r.session == s
    // otherwise exactly this name's cursor moves, by one, and every send is
    // the action the cursor pointed at followed by a carriage return
    ensures r.outcome.Advanced? ==>
              && r.outcome.index == s.cursors[rule.name] < |rule.actions|
              && r.session.cursors == s.cursors[rule.name := s.cursors[rule.name] + 1]
              && forall e :: e in r.outcome.events ==>
                   e == Send(Payload(rule, r.outcome.index)) || e == Pause(ResendPause)
    // the INTSET rule sends its payload, pauses, and sends it again
    ensures r.outcome.Advanced? && rule.name == ResendName ==>
              r.outcome.events == [Send(Payload(rule, r.outcome.index)), Pause(ResendPause),
                                   Send(Payload(rule, r.outcome.index))]
    // the first script: a login answer goes out only through an open gate,
    // which it closes; the INTSET rule opens the gate; nothing else touches it
    ensures v == Community && r.outcome.Advanced? && rule.name == GateName ==>
              && r.outcome.events == (if s.reboot then [Send(Payload(rule, r.outcome.index))] else [])
              && !r.session.reboot
    ensures v == Community && r.outcome.Advanced? && rule.name == ResendName ==> r.session.reboot
    // every name but INTSET sends once, save the gated USERNAME of the
    // first script
    ensures r.outcome.Advanced? && rule.name != ResendName && (v == V922 || rule.name != GateName) ==>
              r.outcome.events == [Send(Payload(rule, r.outcome.index))]
    ensures (v == V922 || (rule.name != GateName && rule.name != ResendName)) ==>
              r.session.reboot == s.reboot
  {
    var k := s.cursors[rule.name];
    if k >= |rule.actions| then
      Dispatched(s, Exhausted)
    else
      var cmd := Payload(rule, k);
      var advanced := s.(cursors := s.cursors[rule.name := k + 1]);
      var (gated, first) :=
        if v == Community && rule.name == GateName then
          if advanced.reboot then (advanced.(reboot := false), [Send(cmd)])
          else (advanced, [])
        else (advanced, [Send(cmd)]);
      if rule.name == ResendName then
        var armed := if v == Community then gated.(reboot := true) else gated;
        Dispatched(armed, Advanced(k, first + [Pause(ResendPause), Send(cmd)]))
      else
        Dispatched(gated, Advanced(k, first))
  }
}
