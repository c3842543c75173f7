# Tool gate, untrusted-confirmation marker and passive transcript text

A Dafny model of the agent's safety gate for tool use and of the transcript
text written next to it:

- **Tool gate** (`src/agents/tool-gate.ts`). A per-turn `ToolGate` object
  holds `blocked`, `reason` and `source`. `blockToolGate` moves it once from
  unblocked to blocked, and the first block's reason and source win.
  `isExplicitUntrustedConfirmation` accepts an operator reply only when,
  trimmed and lower-cased, it is `confirm`, `yes, proceed` or `yes proceed`,
  alone or followed by a space.
- **Pending-confirmation persister** (`src/agents/untrusted-confirmation.ts`).
  `markUntrustedConfirmationPending` guards on the configuration, the session
  key and the caller's in-process marker. It then resolves the agent and the
  store path, and asks the session store to mark the entry pending unless it
  already is. A failing store update is swallowed. A truthy store result sets
  the marker.
- **Passive transcript text** (`src/web/inbound/passive-monitor.ts`). Name and
  body normalisation, the direct and group labels, the group speaker, and the
  Markdown entry appended for each WhatsApp message.

Files:

- `wrappers.dfy`: the `Option` and `Result` datatypes.
- `text.dfy`: JavaScript's `trim`, the `\s` class, `replace(/\s+/g, " ")` and
  ASCII `toLowerCase`, with their properties.
- `tool_gate.dfy`: the `ToolGate` class and the confirmation predicate.
- `untrusted_confirmation.dfy`: the persister. `Mark` is the specification of
  one call. `MarkUntrustedConfirmationPending` is the imperative method over a
  `SessionStore` object and a `PendingMarker` object, proved equal to `Mark`.
- `passive_monitor.dfy`: the transcript text.

Collaborators the source calls but does not define are parameters:

- `resolveSessionAgentId` and `resolveStorePath` are function parameters that
  return a `Result`. An `Err` stands for an exception.
- The outcome of `updateSessionStoreEntry` is the parameter `response`. It
  either throws, or resolves to a value that is truthy or not.
- `Date.now()` is the parameter `now`.
- The ISO time string of a transcript entry is the parameter `timeStr`.

Two details of the code the model keeps:

- Only the store update sits inside the `try`. An exception from resolving the
  agent id or the store path rejects the call (`ResolutionErrorEscapes`). It is
  not swallowed.
- The marker is set whenever the store's result is truthy and a marker was
  passed. Nothing checks that the record actually changed.

## Model

| member | source | states |
|---|---|---|
| Text.Trim | src/agents/tool-gate.ts:34 | `trim` leaves no white space at either end, keeps every other character in order, and yields the empty string exactly for all-white-space input |
| Text.CollapseSpaces | src/web/inbound/passive-monitor.ts:32 | `replace(/\s+/g, " ")` is empty only for empty input, and starts with white space exactly when its input does |
| Text.CollapsePlainSpacing | src/web/inbound/passive-monitor.ts:32 | after the replacement the only white space is the plain space, and no two white-space characters are adjacent |
| Text.CollapseKeepsNonSpace | src/web/inbound/passive-monitor.ts:32 | the replacement keeps every character other than white space, in order |
| Text.CollapseFixesPlainSpacing | src/web/inbound/passive-monitor.ts:32 | text that already has only single plain spaces is unchanged by the replacement |
| Text.CollapseAppend | src/web/inbound/passive-monitor.ts:32 | the replacement works piecewise: on two texts joined where no run of white space is split, it is the replacement of each part, joined |
| Text.CollapseRun | src/web/inbound/passive-monitor.ts:32 | a non-empty run of white space between two texts that do not end and start with white space becomes exactly one plain space |
| Text.TrimIgnoresSurroundingSpace | src/agents/tool-gate.ts:34 | white space added around a text does not change its `trim` |
| Text.TrimToLower | src/agents/tool-gate.ts:34 | trimming and lower-casing commute |
| ToolGate.Created | src/agents/tool-gate.ts:14-24 | a gate created without parameters is unblocked with no reason or source; with parameters it copies reason and source and is blocked only when `blocked` is given as true |
| ToolGate.ToolGate.constructor | src/agents/tool-gate.ts:14-24 | the new object's fields are those of `Created(params)` |
| ToolGate.ToolGate.Block | src/agents/tool-gate.ts:26-31 | the new fields are `Blocked(old fields, params)`; the gate is blocked afterwards; on a gate already blocked nothing changes |
| ToolGate.Blocked | src/agents/tool-gate.ts:26-31 | `blockToolGate` on the gate's fields as a value: no change on a blocked gate, otherwise blocked with reason and source overwritten only by supplied non-empty values; its properties are proved in BlockSemantics, BlockIdempotent and FirstBlockWins |
| ToolGate.BlockSemantics | src/agents/tool-gate.ts:26-31 | blocking leaves the gate blocked; a blocked gate is unchanged; on an unblocked gate reason and source are replaced only by supplied non-empty values and otherwise keep their previous values |
| ToolGate.BlockIdempotent | src/agents/tool-gate.ts:27 | a second block changes nothing, so the first block's reason and source win |
| ToolGate.FirstBlockWins | src/agents/tool-gate.ts:26-31 | after any non-empty sequence of blocks the gate is blocked and equals the gate after the first block alone |
| ToolGate.Cleaned | src/agents/tool-gate.ts:34 | the reply trimmed and lower-cased, or the empty string when there is no reply; ConfirmationIgnoresSurroundingSpace and ConfirmationIgnoresCase state what this step makes irrelevant |
| ToolGate.IsExplicitUntrustedConfirmation | src/agents/tool-gate.ts:33-37 | `isExplicitUntrustedConfirmation`: a non-empty cleaned reply that is one of the three phrases, alone or followed by a space; ConfirmationCharacterised proves this if and only if, and the lemmas below fix the boundary cases |
| ToolGate.ConfirmationCharacterised | src/agents/tool-gate.ts:33-37 | a reply is a confirmation if and only if its trimmed, lower-cased form equals one of the three phrases or starts with one of them followed by a space |
| ToolGate.BlankIsNotConfirmation | src/agents/tool-gate.ts:34-35 | a missing, empty or white-space-only reply is never a confirmation |
| ToolGate.PhraseNeedsBoundary | src/agents/tool-gate.ts:36 | a phrase followed by any character other than a space is rejected |
| ToolGate.PhraseAloneAccepted | src/agents/tool-gate.ts:36 | each of the three phrases on its own is accepted |
| ToolGate.PhraseThenSpaceAccepted | src/agents/tool-gate.ts:36 | a phrase followed by a space is accepted, whatever follows |
| ToolGate.ConfirmationIsDistinctive | src/agents/tool-gate.ts:12 | every accepted reply cleans to at least seven characters that start with "confirm" or "yes" |
| ToolGate.ConfirmationIgnoresSurroundingSpace | src/agents/tool-gate.ts:34 | white space around a reply does not change the verdict |
| ToolGate.ConfirmationIgnoresCase | src/agents/tool-gate.ts:34 | lower-casing a reply first does not change the verdict |
| ToolGate.ConfirmAccepted | src/agents/tool-gate.test.ts:7 | "confirm" is accepted |
| ToolGate.ConfirmPleaseAccepted | src/agents/tool-gate.test.ts:8 | "confirm please" is accepted |
| ToolGate.YesCommaProceedAccepted | src/agents/tool-gate.test.ts:9 | "yes, proceed" is accepted |
| ToolGate.YesProceedNowAccepted | src/agents/tool-gate.test.ts:10 | "yes proceed now" is accepted |
| ToolGate.YesRejected | src/agents/tool-gate.test.ts:14 | "yes" is rejected |
| ToolGate.OkayRejected | src/agents/tool-gate.test.ts:15 | "okay" is rejected |
| ToolGate.ConfirmingRejected | src/agents/tool-gate.test.ts:16 | "confirming" is rejected |
| ToolGate.EmptyRejected | src/agents/tool-gate.test.ts:17 | the empty reply is rejected |
| UntrustedConfirmation.PendingPatch | src/agents/untrusted-confirmation.ts:30-33 | the update callback returns no change exactly for an entry already pending, and otherwise a patch that sets pending with timestamp `now` |
| UntrustedConfirmation.UpdatedEntries | src/agents/untrusted-confirmation.ts:27-34 | the store's entries after a completed update whose callback is `PendingPatch`; UpdateMakesPending proves the entry ends pending, keeps its timestamp when it already was, and that no other key changes |
| UntrustedConfirmation.UpdateMakesPending | src/agents/untrusted-confirmation.ts:27-34 | after a completed update the entry is pending; an already pending entry is identical, timestamp included; a newly pending one is stamped `now`; every other key keeps its entry |
| UntrustedConfirmation.TargetKey | src/agents/untrusted-confirmation.ts:19-25 | the store path and session key the call updates, or the error of the resolver that threw; a supplied agent id is used as is; SuppliedAgentIdUsed and ResolutionErrorEscapes state its effect on a call |
| UntrustedConfirmation.Mark | src/agents/untrusted-confirmation.ts:14-39 | one call never removes or clears the marker; it raises the marker only after a store update that resolved truthy; it makes at most one store update, and only the entry that update names can change; a rejected call changes nothing; when the guards pass and the key resolves, the call completes after exactly one update of that key, a throwing update leaves entries and marker as they were, a resolved one leaves the entry pending, and a truthy result raises a supplied false marker |
| UntrustedConfirmation.NoContextIsNoOp | src/agents/untrusted-confirmation.ts:17 | without a configuration or with a missing or empty session key the call resolves with no store interaction and the marker unchanged |
| UntrustedConfirmation.MarkerShortCircuits | src/agents/untrusted-confirmation.ts:18 | a marker already true means no store interaction and no change |
| UntrustedConfirmation.SuppliedAgentIdUsed | src/agents/untrusted-confirmation.ts:19-25 | with an agent id supplied, the session-to-agent resolver does not affect the outcome, and the update goes to the store path resolved for that id |
| UntrustedConfirmation.ResolutionErrorEscapes | src/agents/untrusted-confirmation.ts:19-25 | an exception while resolving the agent or the store path rejects the call and nothing is written |
| UntrustedConfirmation.StoreFailureSwallowed | src/agents/untrusted-confirmation.ts:26-38 | a throwing store update is swallowed: the call resolves, and entries and marker are unchanged |
| UntrustedConfirmation.PendingEntryNeverRestamped | src/agents/untrusted-confirmation.ts:31 | an entry that is pending stays identical, timestamp included, through any sequence of later calls, each with its own session key, agent id, resolvers, clock and store outcome |
| UntrustedConfirmation.FirstTimestampKept | src/agents/untrusted-confirmation.ts:31-32 | once a call stamps an entry, the entry keeps that call's timestamp through any sequence of later calls, whatever their parameters, resolvers and outcomes |
| UntrustedConfirmation.MarkerOnlyRises | src/agents/untrusted-confirmation.ts:35 | over any sequence of calls, whatever their parameters, resolvers and outcomes, the marker is never cleared, and a supplied marker never disappears |
| UntrustedConfirmation.SessionStore.UpdateEntry | src/agents/untrusted-confirmation.ts:27-34 | records one update call; a throw leaves the entries as they were; a resolved update applies the callback to the entry and reports the store's truthiness |
| UntrustedConfirmation.MarkUntrustedConfirmationPending | src/agents/untrusted-confirmation.ts:14-39 | the completion, the store's entries, its update log and the marker after the call are exactly those `Mark` gives for the state before |
| PassiveMonitor.NormalizeName | src/web/inbound/passive-monitor.ts:26-29 | null exactly for a missing or all-white-space name; otherwise a non-empty name with no white space at either end, the same other characters, and a contiguous slice of the input cut only at white space |
| PassiveMonitor.NormalizeNameIsTrim | src/web/inbound/passive-monitor.ts:26-29 | the result is null for a blank name and the trimmed name otherwise |
| PassiveMonitor.NormalizeBody | src/web/inbound/passive-monitor.ts:31-33 | no white space at either end, no two white-space characters in a row, no white space but the plain space, the same other characters as the input, and empty exactly for all-white-space input |
| PassiveMonitor.NormalizeBodyIdempotent | src/web/inbound/passive-monitor.ts:31-33 | normalising twice gives the same as normalising once |
| PassiveMonitor.NormalizeBodyRun | src/web/inbound/passive-monitor.ts:31-33 | a non-empty run of white space of any kind and length between two words becomes exactly one plain space in the normalised body |
| PassiveMonitor.NormalizeBodyWord | src/web/inbound/passive-monitor.ts:31-33 | a body without white space is its own normal form |
| PassiveMonitor.NormalizeBodyIgnoresSurroundingSpace | src/web/inbound/passive-monitor.ts:31-33 | white space around a body does not change its normal form |
| PassiveMonitor.NormalizedBodyIsOneLine | src/web/inbound/passive-monitor.ts:31-33 | a normalised body holds no line terminator: no '\n', '\r', U+2028 or U+2029 |
| PassiveMonitor.BuildDirectLabel | src/web/inbound/passive-monitor.ts:35-38 | the label starts with the chat id; it is the chat id alone exactly when there is no non-empty name; otherwise it ends with " (", the name and ")", and is exactly three characters longer than chat id and name together |
| PassiveMonitor.BuildGroupLabel | src/web/inbound/passive-monitor.ts:40-42 | the group subject when it is non-empty, else the chat id |
| PassiveMonitor.BuildGroupSpeaker | src/web/inbound/passive-monitor.ts:44-54 | `buildGroupSpeaker`; GroupSpeakerPriority states its priority order and result shape |
| PassiveMonitor.GroupSpeakerPriority | src/web/inbound/passive-monitor.ts:44-54 | the group speaker is never empty and is decided in priority order: "You", then the name, a space and the phone number in parentheses (exactly three characters beyond the two), then the name alone, then the phone number, then "Unknown" |
| PassiveMonitor.SectionTitle | src/web/inbound/passive-monitor.ts:85-90 | a group's section is "Group: " and the chat id when the subject is missing or blank, else "Group: " and the trimmed subject; a direct chat's is "Direct: " and the chat id when the push name is missing or blank, else also " (", the trimmed push name and ")" |
| PassiveMonitor.SectionKinds | src/web/inbound/passive-monitor.ts:88-90 | the section starts with "Group: " exactly for groups and with "Direct: " exactly otherwise |
| PassiveMonitor.Speaker | src/web/inbound/passive-monitor.ts:92-96 | who an entry says spoke: the group speaker in a group, otherwise "To " or "From " and the direct label; GroupSpeakerPriority and DirectSpeakerNamesChat state its forms |
| PassiveMonitor.DirectSpeakerNamesChat | src/web/inbound/passive-monitor.ts:88-96 | in a direct chat the speaker is "To " for the account's own messages and "From " otherwise, followed by the same direct label the section heading shows after "Direct: " |
| PassiveMonitor.EntryText | src/web/inbound/passive-monitor.ts:98 | the entry template: the "## " heading line, the bullet with the bold time, the speaker, ": ", the body and a newline; EntryTextParts and EntryShape prove the speaker sits exactly between the head and the tail |
| PassiveMonitor.Entry | src/web/inbound/passive-monitor.ts:71-72 | no entry exactly when the body is all white space |
| PassiveMonitor.EntryShape | src/web/inbound/passive-monitor.ts:98 | an entry starts with the "## " section heading and the bold time, ends with ": ", the normalised body and one newline, and holds exactly the message's speaker between the two; the body contains no '\n' |

## Left out

- File-system work in `appendPassiveWhatsAppMessage` and `ensureFileHeader` is not modelled. This covers the directory and file creation, the file modes, the `wx` flag and its `EEXIST` case, the header line, the append and `path.join`. It is I/O plumbing.
- `resolveAgentWorkspaceDir` and the logger (`createSubsystemLogger`, `log.warn`) are not modelled. They are a foreign call and a side channel.
- The `Date` conversion and the `toISOString` slicing of the timestamp are not modelled. The time of day is the parameter `timeStr`.
- `Date.now()` is not modelled. The clock is the parameter `now`.
- Asynchronous scheduling is not modelled. Nor are concurrent calls racing on the pending marker. The model is sequential.
- Text.ToLower: only ASCII letters are lower-cased. The full Unicode case mapping of `toLowerCase` is not modelled.
- UntrustedConfirmation.SessionEntry: only the two fields this code reads and writes are modelled. Other entry fields are not.
- UntrustedConfirmation.UpdatedEntries: when there is no entry for the session key, the callback is not run and nothing is written. What the real store does in that case cannot be seen from this code.
- UntrustedConfirmation.SessionStore.UpdateEntry: a throwing update writes nothing. Per-entry atomicity of the real store is assumed here.
- The exported reason strings `TOOL_GATE_UNTRUSTED_REASON` and `TOOL_GATE_UNTRUSTED_HOOK_REASON` are not modelled. They are messages for callers, and the gate logic never reads them.
- Clearing the pending flag after a confirmation is not modelled. `markUntrustedConfirmationPending` only ever sets the flag, and the modelled code never clears it.
