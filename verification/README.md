# Console prompt engine of the OpenVMS install scripts

Two scripts drive an unattended OpenVMS install over a KVM guest's serial
console: `kvm/setup_vms_community_kvm.py` (the first script) and
`kvm/setup_vms_community_kvm_v922.py` (the 9.2-2 script). Both run the same
engine. A prompt table lists rules `(pattern, name, actions)` in order. Each
received chunk of console text is appended to a buffer. The table is then
walked once, in table order. Each rule whose pattern occurs in the buffer
cuts the buffer with `re.split`. It then hands the rule to `prompt_handler`,
which sends the next scripted action for the rule's name followed by a
carriage return and advances that name's cursor. Rules that share a name
share one cursor. The two scripts differ in their tables and in one policy:

- In the first script, the answer to `Username:` goes out only while a
  `reboot` gate is open, and sending it closes the gate.
- The `job terminated at ` rule (name INTSET) opens the gate.
- In both scripts, INTSET sends its payload, waits ten seconds, and sends
  it again.

The model is pure:

- One callback is `Step(variant, table, session, chunk)`. It returns the
  new session and a log of the dispatches it made. The trace of the log is
  a sequence of `Send(bytes)` and `Pause(10)` events.
- A whole run folds `Step` over the chunks.
- `Variant` selects the dispatch policy: `Community` for the first script
  and `V922` for the 9.2-2 script.
- Both concrete tables are built from the scripts' literal patterns and
  action lists.
- The password is a parameter.

Modules:

- `Text`: substring search and the split.
- `Encoding`: bytes, UTF-8, `str(int)` and `upper()`.
- `Rules`: rules and tables.
- `Sessions`: the buffer, the cursors and the gate.
- `Dispatcher`: `prompt_handler`.
- `Matcher`: the loop of `stream_callback`.
- `ScanProperties` and `RunProperties`: what one pass and one run
  guarantee.
- `Tables` and `TableFacts`: the two scripts' tables.

### Table order and text order

A pass answers rules in table order, not text order. Suppose rule A comes
before rule B in the table, and one chunk holds B's prompt text before A's.
It does not follow that A is answered and then B. A's cut discards
everything up to and including A's prompt, so B's earlier text goes with it.
B is not answered in that pass unless its prompt appears again after A's.
The model follows the code here; `EarlierPromptDropped` states the
consequence.

### The split

The containment test is Python's literal `pattern in buffer`. The cut is
`re.split(pattern, buffer, maxsplit=1)`, which reads the pattern as a
regular expression. The model distinguishes two cases:

- A pattern free of the characters `.^$*+?{[\|()` splits at its first
  literal occurrence. The buffer keeps what follows.
- Any other pattern does not split. The buffer is cleared.

`]` and `}` alone are literal in Python's `re`. The second case is exact for
both scripts' DOLLAR prompts: `$ ` can never match, because `$` matches only at the end of the buffer or just before a final
newline, and neither position is followed by a space. For the remaining patterns with metacharacters, see
"Left out".

## Model

| member | source | states |
|---|---|---|
| `Text.Contains` | kvm/setup_vms_community_kvm.py:316 | The substring test holds exactly when the pattern occurs at some position of the buffer. |
| `Text.ReSplit` | kvm/setup_vms_community_kvm.py:317 | The split yields two parts exactly when the pattern is free of regex metacharacters. The buffer is then the text before the first occurrence, the pattern, and the kept rest. |
| `Text.Consume` | kvm/setup_vms_community_kvm.py:317-321 | The new buffer is a suffix of the old one. It is empty for a pattern that does not split. For a literal pattern it is the text after the first occurrence. |
| `Text.ConsumeAt` | kvm/setup_vms_community_kvm_v922.py:225-229 | For a literal pattern whose first occurrence is at position k, the buffer left is exactly the text from position k + length on. |
| `Text.AbsentFromSuffix` | kvm/setup_vms_community_kvm.py:318-321 | A pattern absent from the buffer is absent from every buffer a cut can leave. |
| `Encoding.EncodeUtf8` | kvm/setup_vms_community_kvm.py:27 | `encode('utf-8')` gives between one and four bytes per character. ASCII text encodes byte for byte. |
| `Encoding.DecodeEncodeChar` | kvm/setup_vms_community_kvm.py:27 | The lead byte of each character's encoding announces the sequence's length, and the sequence decodes back to the character. |
| `Encoding.DecodeEncode` | kvm/setup_vms_community_kvm.py:27 | Decoding the UTF-8 bytes of any text gives back exactly that text, so the encoding loses nothing. |
| `Encoding.EncodeDecodeChar` | kvm/setup_vms_community_kvm.py:27 | A sequence the strict decoder accepts is the encoding of the character it yields, so each character has exactly one encoding. |
| `Encoding.EncodeDecode` | kvm/setup_vms_community_kvm.py:27 | Any byte string the strict decoder accepts is the encoding of the text it yields. With `DecodeEncode` this fixes `encode('utf-8')` byte for byte, overlong forms excluded. |
| `Encoding.OverlongRejected` | kvm/setup_vms_community_kvm.py:27 | The overlong form `C0 80` of NUL is not valid UTF-8. |
| `Encoding.Decimal` | kvm/setup_vms_community_kvm.py:40 | `str(n)` is a non-empty string of digits with no leading zero. |
| `Encoding.DecimalRoundTrip` | kvm/setup_vms_community_kvm.py:40 | Reading back the decimal text of a number gives the number. |
| `Encoding.AsciiUpper` | kvm/setup_vms_community_kvm.py:25 | `upper()` keeps the length and leaves no lower-case ASCII letter. Every character that is not a lower-case letter stays in place. Each position still folds to the same lower-case character. |
| `Encoding.AsciiUpperIdempotent` | kvm/setup_vms_community_kvm.py:25 | Upper-casing twice is upper-casing once. |
| `Rules.Build` | kvm/setup_vms_community_kvm.py:224-271 | A table built from (pattern, name) pairs keeps the pairs in order. Each rule's action list is the list its name selects. Rules that share a name therefore share their action list. |
| `Sessions.NewSession` | kvm/setup_vms_community_kvm.py:93-98 | The constructor loop gives every distinct rule name exactly one cursor, at 0, even when names repeat. The buffer is empty and the gate closed. This equals the declarative initial session. |
| `Dispatcher.Dispatch` | kvm/setup_vms_community_kvm.py:274-300 | A cursor at or past the end of the list gives no event and no state change. Otherwise the payload is `actions[cursor]` plus CR, and only that name's cursor moves, by exactly one. In the first script, USERNAME emits exactly the one send through an open gate, and nothing at all when the gate is shut, so one action is consumed unsent. It leaves the gate closed either way. INTSET sends, pauses 10, sends the identical payload again, and opens the gate in the first script. Every name other than INTSET sends exactly once, except USERNAME in the first script. In the 9.2-2 script (lines 189-208) USERNAME is not gated and also sends exactly once. The buffer is untouched. |
| `Matcher.ScanFrom` | kvm/setup_vms_community_kvm.py:315-322 | A pass keeps the set of cursor names. The buffer after it is a suffix of the buffer before it, so it never grows. |
| `Matcher.Step` | kvm/setup_vms_community_kvm.py:313-322 | After a callback the buffer is a suffix of the old buffer with the chunk appended. |
| `Matcher.Run` | kvm/setup_vms_community_kvm.py:303-322 | Callbacks are handled one after another in arrival order, each to completion. The set of cursor names is kept across a run. |
| `ScanProperties.ScanOrder` | kvm/setup_vms_community_kvm.py:315-322 | Every dispatch of a pass names a rule from the scan's start on, under that rule's name, with strictly increasing table positions. So each rule dispatches at most once per chunk, and in table order. |
| `ScanProperties.TableOrderPriority` | kvm/setup_vms_community_kvm_v922.py:223-230 | The first rule in table order whose pattern occurs in the buffer is the first dispatched, wherever its text sits. |
| `ScanProperties.ScanSkip` | kvm/setup_vms_community_kvm.py:315-316 | Rules whose patterns do not occur are passed over with no effect. |
| `ScanProperties.DispatchedHere` | kvm/setup_vms_community_kvm.py:315-322 | The rule a pass reaches is dispatched exactly when its pattern occurs in the buffer at that point. Its dispatch is made on that buffer cut at its pattern. |
| `ScanProperties.DispatchedIff` | kvm/setup_vms_community_kvm.py:315-322 | The loop has no `break`: any rule j is dispatched exactly when its pattern occurs in the buffer the earlier rules' cuts leave. It is then dispatched on that buffer cut at its own pattern. |
| `ScanProperties.ScanSession` | kvm/setup_vms_community_kvm.py:315-322 | The session a pass hands on is the one reached rule by rule. Each matching rule has cut the buffer and moved its cursor and the gate. Nothing is cleared or reset when the pass ends. |
| `ScanProperties.ScanContinues` | kvm/setup_vms_community_kvm_v922.py:223-230 | After rule i matches and cuts, the first later rule whose pattern is still in the remainder is the next one dispatched. |
| `ScanProperties.AbsentNotFired` | kvm/setup_vms_community_kvm.py:315-322 | A rule whose pattern is missing from the buffer is dispatched nowhere in the rest of the pass. |
| `ScanProperties.EarlierPromptDropped` | kvm/setup_vms_community_kvm.py:315-322 | When the first matching rule i comes before rule j, and j's prompt is missing from what i's cut leaves, i is dispatched first and j not at all. |
| `ScanProperties.ScanQuiet` | kvm/setup_vms_community_kvm_v922.py:223-224 | A pass dispatches nothing exactly when no remaining pattern occurs in the buffer. The session is then unchanged. |
| `ScanProperties.ScanAccounting` | kvm/setup_vms_community_kvm.py:277-285 | Within a pass a name's cursor never decreases. The action indices taken for the name are exactly old cursor, old cursor + 1, ..., new cursor - 1, in order. |
| `ScanProperties.ScanInv` | kvm/setup_vms_community_kvm.py:277-285 | With shared action lists, a pass keeps every cursor at most its list's length, and the cursor keys equal the table's names. |
| `ScanProperties.ScanPayloads` | kvm/setup_vms_community_kvm.py:284-300 | Every advancing dispatch of a pass used an in-range index. Its events are only that action plus CR and the fixed pause. |
| `ScanProperties.GateStep` | kvm/setup_vms_community_kvm.py:286-298 | First script, one dispatch: a login send uses up an open gate, and only an INTSET answer opens it. |
| `ScanProperties.ScanGate` | kvm/setup_vms_community_kvm.py:286-298 | First script: in a pass, login sends plus the gate left open never exceed INTSET answers plus the gate as it was. |
| `ScanProperties.ScanUngated` | kvm/setup_vms_community_kvm_v922.py:198-200 | 9.2-2 script: a pass never changes the gate flag, and every advancing dispatch sends at least once. |
| `RunProperties.StepSession` | kvm/setup_vms_community_kvm.py:313-322 | The session one callback hands to the next is the one its pass reaches from the carried buffer with the chunk appended. The buffer, cursors and gate all carry over. |
| `RunProperties.StepQuiet` | kvm/setup_vms_community_kvm_v922.py:221-224 | A callback answers nothing exactly when no pattern occurs in the carried buffer plus the chunk. The text is then kept whole for the next callback, and nothing else changes. |
| `RunProperties.SplitPrompt` | kvm/setup_vms_community_kvm.py:313-316 | Suppose the first chunk completes no prompt and the second completes one, the first in table order. Then the second callback answers that prompt first. |
| `RunProperties.RunAccounting` | kvm/setup_vms_community_kvm_v922.py:192-199 | Over any sequence of chunks, cursors never decrease, and each name's actions are taken once each, in script order, from its starting cursor to its final one. |
| `RunProperties.RunInv` | kvm/setup_vms_community_kvm_v922.py:192-199 | A run keeps every cursor within its action list. |
| `RunProperties.ScriptReplay` | kvm/setup_vms_community_kvm_v922.py:192-199 | From the initial session, for every rule, the number of non-exhausted dispatches of its name is at most its action list's length. They are actions 0, 1, ... in order. |
| `RunProperties.ExhaustedStaysInert` | kvm/setup_vms_community_kvm.py:277-283 | Once a name's cursor reaches its list's length it stays there, and no later chunk takes an action for it. |
| `RunProperties.RunPayloads` | kvm/setup_vms_community_kvm_v922.py:198-208 | Every payload sent over a run is the scripted action at the cursor plus CR. |
| `RunProperties.RunTrace` | kvm/setup_vms_community_kvm.py:303-322 | Every event in a run's trace of sends and pauses is some rule's scripted action plus CR, or the ten-second pause. The contract also unfolds the trace callback by callback, as `Run` builds it. |
| `RunProperties.RunGate` | kvm/setup_vms_community_kvm.py:286-298 | First script: over a run, login sends plus the gate left open never exceed INTSET answers plus the initial gate. |
| `RunProperties.LoginBound` | kvm/setup_vms_community_kvm.py:286-298 | First script, from the initial session: login sends over a run are at most the INTSET rule's number of actions. |
| `RunProperties.RunUngated` | kvm/setup_vms_community_kvm_v922.py:198-200 | 9.2-2 script: the gate flag is constant over a run, and every non-exhausted dispatch sends. |
| `Tables.SystemIdDecodes` | kvm/setup_vms_community_kvm_v922.py:31-32 | The system id is area * 1024 + node number. With a node number below 1024, area and number read back by division and remainder. |
| `Tables.TargetSystemId` | kvm/setup_vms_community_kvm.py:29-40 | The target 1.13 has system id 1037, written `1037`. |
| `Tables.CommunityTable` | kvm/setup_vms_community_kvm.py:125-271 | The first script's 36-rule table. Rules sharing a name share their action list. |
| `Tables.V922Table` | kvm/setup_vms_community_kvm_v922.py:108-186 | The 9.2-2 script's 18-rule table. Rules sharing a name share their action list. |
| `TableFacts.TemplatedPrompts` | kvm/setup_vms_community_kvm.py:240-243 | The f-string prompts read `[ROBIN] : ` and ` [1.13] : `. |
| `TableFacts.CommunityDollarClears` | kvm/setup_vms_community_kvm.py:228-229 | Both DOLLAR rules of the first script carry `$`, so a DOLLAR match clears the buffer. |
| `TableFacts.CommunityIntsetRule` | kvm/setup_vms_community_kvm.py:231 | The first script's seventh rule is INTSET, with three actions. |
| `TableFacts.CommunityLoginsAtMostThree` | kvm/setup_vms_community_kvm.py:174-177 | First script: in any run from the start, the login prompt is answered at most three times. |
| `TableFacts.V922DollarClears` | kvm/setup_vms_community_kvm_v922.py:170-171 | Both DOLLAR rules of the 9.2-2 script, the second being `\n\r\0$ `, clear the buffer on a match. |
| `TableFacts.V922UsernameRule` | kvm/setup_vms_community_kvm_v922.py:174 | The 9.2-2 script's eighth rule is USERNAME, with five actions. |
| `TableFacts.V922LoginsAtMostFive` | kvm/setup_vms_community_kvm_v922.py:153-158 | 9.2-2 script: in any run from the start, at most five login answers are taken. |

## Left out

- Text.Consume: models `re.split` only for patterns free of regex metacharacters, plus "no split, buffer cleared" for every other pattern. This is exact for the DOLLAR prompts. The other patterns the model clears on are `configuration option to perform? `, `[ROBIN] : `, `[ENDNODE] : `, ` [1.13] : `, `Load MOP on this system? `, `apply this configuration? `, `scripts? ` and `network? ` (lines 236-247), and `domain on live system [NO]: `, `DHCP PRIMARY? (Y,N,HELP)`, `configure a default route [YES]: ` and `Do you want to reconfigure BIND [NO]: ` (lines 256-265). For these, Python's `re` may instead split at a regex match elsewhere in the buffer. For the group in `(Y,N,HELP)` it would keep the group's text as the second part. A pattern with only a lone `]`, such as `,Domain] : `, is literal both here and in Python. General regular-expression semantics are not modelled.
- Text.ReSplit: the same two-outcome abstraction as `Consume`.
- The libvirt plumbing is not modelled because it is a foreign library and an event loop. This covers the connection, domain lookup and start, `check_console`, `lifecycle_callback`, `error_handler` and `main`.
- The transport is not modelled. `stream.recv` and `stream.send` become chunks in and `Send` events out. The raw bytes are also written with `os.write(0, ...)` to file descriptor 0, which is standard input. On a terminal this echoes them; the write is not modelled.
- The model assumes that write to file descriptor 0 succeeds. If that descriptor is not writable, for example when standard input comes from `/dev/null`, `os.write` raises `OSError` before the chunk is appended (lines 312-313, and lines 220-221 of the 9.2-2 script). The `except` swallows it, so that callback adds nothing to the buffer and answers nothing.
- The `if console.stream` guard is not modelled; the stream is taken to be present.
- `sleep(10)` is a `Pause(10)` event, not real time.
- Decoding of received bytes with `'replace'` is left out. Chunks arrive as already-decoded text.
- Reading the password from the environment, and `sys.exit` when it is missing, are left out. The password is a parameter of both tables.
- The broad `except Exception` around a callback is left out. With the scripts' two tables it is reachable through a failing `recv` or `send`, or through the failing write to file descriptor 0 described above. For a general table, a pattern that is not a valid regular expression (an unbalanced `(`, say) makes `re.split` raise `re.error`. The `except` then swallows it: the buffer stays uncut and the rest of that pass is skipped. The model instead clears the buffer, dispatches the rule and carries on with the pass.
- The `ring_*` and `stdin_watch` fields, the unused `YES_ACTIONS` list and all logging and printing have no effect on the engine and are left out.
- Encoding.EncodeUtf8: Dafny's `char` has no surrogate code points, so the `'replace'` error handler of `encode` never applies and is not modelled.
- Encoding.DecodeUtf8: models strict decoding, accepting or rejecting exactly as `bytes.decode('utf-8')` does. It gives `None` rather than Python's error position. The scripts' own `decode('utf-8', 'replace')` of received bytes is not modelled.
- Encoding.AsciiUpper: models `str.upper()` on ASCII letters only. The target name `robin` is ASCII.
