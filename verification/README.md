# anthrouter, modelled and proved in Dafny

anthrouter is a proxy between a client and the Anthropic Messages API. It picks the model
of a request, reshapes the request for that model, and keeps session state that has to match
what upstream and the client will do next. This project models that code and proves what it
promises, for all inputs and all runs. `dafny verify dfyconfig.toml` checks everything.

The parts, each in its own modules:

- **Threads** (`session_state.dfy`, `thread_routing.dfy`, `thread_protocol.dfy`,
  `thread_decisions.dfy`, `thread_handoffs.dfy`, `thread_pins.dfy`): message-id pins, the
  local 400 that makes the client replay a conversation, the 60 s single-use handoff, and the
  bounded stores (`ordered_dict.dfy`). The protocol is a step machine; the classifier, the
  payloads, the clock and the upstream are arbitrary at every step.
- **Caveman rewriter** (`caveman_edits.dfy`, `caveman_confinement.dfy`, `heading_lines.dfy`,
  `caveman_sections.dfy`, `caveman_structure.dfy`, `caveman_rewriter.dfy`,
  `caveman_answers.dfy`): edits confined to markdown sections, what they do to the headings,
  and the cache that has to be a fixed point.
- **Outbound requests** (`json.dfy`, `model_config.dfy`, `inline_system.dfy`,
  `anthropic_transform.dfy`, `outbound_gates.dfy`, `outbound_fields.dfy`): the ordered model
  gates, the inline-system rewrite and the beta header.
- **Send loop** (`transport.dfy`, `send_loop.dfy`): retries and two one-shot recoveries.
- **Prompt store** (`prompt_store.dfy`, `ref_counts.dfy`): reference counts kept by triggers,
  and chunked retention.
- **Framing, parsers and printers** (`request_body.dfy`, `body_headers.dfy`,
  `chunked_coding.dfy`, `pem_bundle.dfy`, `pem_blocks.dfy`, `sse_stream.dfy`,
  `stream_usage.dfy`, `config_env.dfy`): chunked bodies (section 7.1 of RFC 9112), PEM bundles
  (section 3 of RFC 7468), server-sent events (section 9.2 of the WHATWG HTML standard) and
  the config.env file.
- **Trackers and arithmetic** (`attribution.dfy`, `prompt_volatility.dfy`,
  `router_math.dfy`): cache breakpoints, saturating counters, the weighted blend.

`common.dfy` and `text.dfy` hold the shared definitions; `Picks` there says that one sequence
holds, in order, exactly the elements of another that are kept.

A method is proved against a function that follows the source; what that function comes to is
then said without it, from the inputs alone (`ThreadDecisions`, `CavemanSections`,
`CavemanAnswers`, `OutboundFields`, `BodyHeaders`, `PemBlocks` and the lemmas named `…Means`).

## Where the code does not do what it says

Each of these is proved, with the exact condition under which the promise holds.

- The comment in `apply_edits` that the section structure survives is false: an accepted edit
  may take the line break after a heading (`StructureIsNotAlwaysKept`). It survives exactly
  when every edited stretch between two headings still begins and ends with a line break and
  holds no line that reads as a heading (`StructureSurvives`, `SectionsSurvive`).
- A cached rewrite is not stable when another prompt is rewritten into exactly the prompt it
  is cached for (`AnswersAreNotAlwaysStable`); `CachedAnswersAreStable` says when, from the
  inputs of the call, and `RunIsStable` which runs are safe.
- ADR-0028 promises that an upstream 4xx keeps its status. It is shown as a retryable 502
  exactly when (`ClientErrorsKeepTheirStatus`) a recovery fires on the last attempt
  (`RecoveryOnTheLastAttemptIsLost`), stripping thinking blocks raises on a block whose type
  is a list or an object (`StrippingCanRaise`), the error handler raises because the body is
  not UTF-8 (`UnreadableErrorIsLost`) or its message is nothing that can be sliced or, on a
  404, no string (`OddMessageIsLost`), a 429 asks for a delay that `time.sleep` refuses
  (`SleepingCanRaise`), or the connection breaks off while the body is read.
- The fallback midpoint is not in the standard band for every configuration
  (`MidpointIsStandard`).
- The counts of the prompt store go wrong, and a prune can then drop a prompt in use
  (`UncoveredInsertLosesPrompt`, `CoveredRowLosesPrompt`). A count is short by the rows that
  named the prompt before it was stored (`CountsFallShortByDebts`), so the counts stay exact
  exactly when no insert stores a prompt that a live row names (`CountsStayExact`), and a
  prompt in use is dropped exactly when that debt covers all its rows.
- A submitted setting that config.env sets twice does not read back (`ReadAfterWrite`,
  `RepeatedKeyReadsStale`).
- `between_tools` crosses to Sonnet 5.5 at an effort that rejects it exactly when the client
  sent that type itself (`BetweenToolsAtHighEffort`, `HighEffortBetweenToolsCrosses`).
- `build_body` raises on an effort that is a list or an object, and
  `strip_all_thinking_blocks` on such a block type: both are looked up in a frozen set
  (`BuildBody` and `UnhashableEffortRaises`, `StripAllThinkingBlocks` and
  `StrippingCanRaise`). A model that is neither empty nor a string makes `build_body` raise
  too, and not the error for a missing model (`ModelError`).

## Model

| member | source | states |
|---|---|---|
| ThreadProtocol.ContinuationKeepsPin | anthrouter/handlers.py:1258-1345 | In every reachable state of every run, a continuation of a pinned message is sent on exactly the pinned model, rejected locally without any dispatch, or parked for the classifier under that pin. |
| ThreadProtocol.AnswerKeepsPin | anthrouter/handlers.py:1327-1345 | In every reachable state, when the classifier answers, the parked continuation goes out on the model of its recorded parent, or is rejected without a dispatch. |
| ThreadProtocol.ChainKeepsModel | anthrouter/session_state.py:131-156 | Along any chain of recorded responses, each continuing the one before, the model is constant, over every run and interleaving. |
| ThreadProtocol.RunKeepsConsistent | anthrouter/handlers.py:1258-1345 | Pins, waiting and in-flight requests and the log of responses agree on the model of every Thread; each step of the protocol keeps that. |
| ThreadHandoffs.ReplayFollowsHistory | anthrouter/handlers.py:1426-1491 | In every run, however many continuations share its key, a replay that the size floor spares goes out on the model of the last rejection stored under that key, without a classifier call, if that store is under 60 s old and neither taken nor evicted since; otherwise it is routed exactly as a replay without a key would be. |
| ThreadHandoffs.ResendFollowsHistory | anthrouter/handlers.py:1316-1325 | A resent continuation that looks is rejected on arrival, without a classifier call, if and only if such a rejection is still held; otherwise it goes to the classifier. |
| ThreadHandoffs.RunFollowsHistory | anthrouter/session_state.py:167-201 | The handoff store of a run is the one its history of stores and lookups leaves, under a clock that never runs backwards. |
| ThreadHandoffs.LiveIsHeld | anthrouter/session_state.py:188-201 | In every run the live handoff of a key is what its last rejection stored, as long as that is held, and names the model it routed to. |
| ThreadHandoffs.ReplayTakesAndPins | anthrouter/handlers.py:1456-1477 | Whatever a keyed replay is sent on, its handoff is gone afterwards and the id of its answer is pinned to the model it was sent on. |
| ThreadHandoffs.ReclassificationConverges | anthrouter/handlers.py:1426-1491 | In step terms: after a continuation is rejected, any interleaving under 60 s in which no replay takes its handoff, no other rejection stores under its key and fewer classifications than the capacity of the store end leads to the same replay: sent on the stored model, no classifier call, and every answer to it pinned to that model. |
| ThreadHandoffs.ReplayUsesHandoff | anthrouter/handlers.py:1456-1477 | A replay whose key is held is sent on the model of the handoff with zero classifier calls. |
| ThreadHandoffs.ResendIsRejectedAgain | anthrouter/handlers.py:1316-1325 | A resent continuation whose handoff is live gets the same local 400 and leaves the whole state as it was: a peek neither takes nor extends. |
| ThreadHandoffs.FloorEndsTheCycle | anthrouter/handlers.py:1448-1460 | When the size floor overrides the handoff, the new Thread is pinned as a long-context one and each continuation of it is sent on that model: no second rejection. |
| ThreadPins.PinnedExactly | anthrouter/session_state.py:131-156 | In every run a message id is pinned if and only if its response was recorded and fewer than MAX_ENTRIES other ids have been recorded since; the pin is that of its last record. |
| ThreadPins.LastModelExactly | anthrouter/session_state.py:131-165 | In every run the last Thread model of a session is that of the last response recorded for it, held while fewer than MAX_ENTRIES other sessions have had one recorded since. |
| ThreadDecisions.RejectedExactly | anthrouter/handlers.py:1335-1345 | In every run a parked turn gets the local 400 if and only if the answer has a classification, or comes from the size floor, and names a model that is neither that of the recorded response the turn continues nor resolves to the same id; otherwise it is sent on that model, with the betas that came back. |
| ThreadDecisions.ClassifiedIsDecided | anthrouter/handlers.py:1335-1345 | The whole new state and the outcome of an answer, from the parked turn, the answer and the aliases: exactly a rejection of a keyed turn stores a handoff, under its key and with the model routed to. |
| ThreadDecisions.ArrivalIsDecided | anthrouter/handlers.py:1286-1325 | What becomes of a continuation on arrival: unknown Thread, long-context Thread, tool results alone, a live handoff, or the classifier, in this order, with the exact payload, betas and decision of each. |
| ThreadDecisions.ReplayIsDecided | anthrouter/handlers.py:1426-1491 | What becomes of a replay: the size floor at or over its threshold, a live handoff, tool results alone on the last Thread model, the lock or as they are, or the answer, with the exact payload, betas and decision of each. |
| ThreadDecisions.ResponseIsRecorded | anthrouter/handlers.py:1573-1583 | A response is recorded under its id with the model the request was sent on, its parent, its long-context flag and its text, exactly when the request carries a Thread and names a model. |
| ThreadDecisions.ResolveModelMeans | anthrouter/model_config.py:45-68 | A name resolves to what its alias stands for, the client's aliases over the built-in ones, also behind a context suffix, and else to itself; only the empty one resolves to nothing. |
| ThreadDecisions.KeyIsSessionAndText | anthrouter/handlers.py:251-293 | A handoff key is the session with the whole text of the final user message: the string it is, or exactly its text blocks, in order, line by line. |
| ThreadRouting.Handler.RouteContinuation | anthrouter/handlers.py:1258-1345 | The method that reads and writes session state step by step ends in the state, payload and decision the two-stage specification gives, of which ArrivalIsDecided and ClassifiedIsDecided say what it is; it calls the classifier only in its last stage. |
| ThreadRouting.Handler.RouteReplay | anthrouter/handlers.py:1426-1491 | The replay route, over the mutable session state, equals its specification, of which ReplayIsDecided says what it is: floor, then handoff, then tool results, then classifier. |
| ThreadRouting.Handler.TakeKeyed | anthrouter/handlers.py:1456-1461 | Taking by key returns the live handoff, if any, and removes the entry. |
| ThreadRouting.TextIsNotToolResult | anthrouter/handlers.py:306-312 | A final turn with user text is never tool results only, so a keyed continuation is never let through as a tool turn. |
| SessionState.LookupIsExact | anthrouter/session_state.py:167-201 | Over every history of stores and lookups under a monotone clock, a lookup finds a handoff exactly when its last store is under 60 s old, no replay has looked it up since and the keys stored since never left it without room; all of that is read off the history, and it finds what was stored. |
| SessionState.EvictionIsExact | anthrouter/session_state.py:80-84 | A store pushes a held key out if and only if it, together with the keys that the history has stored since and not removed, fills the store. |
| SessionState.EvictionTakesStores | anthrouter/session_state.py:80-84 | A key that the history has pushed out has had at least MAX_ENTRIES other keys stored since. |
| SessionState.SessionState.RecordThread | anthrouter/session_state.py:131-151 | Records the pin with truncated text and the session's last Thread model; the whole new state is given. |
| SessionState.SessionState.StoreHandoff | anthrouter/session_state.py:167-178 | Stores under a deadline of now plus 60 s; without a session key it does nothing. |
| SessionState.SessionState.PeekHandoff | anthrouter/session_state.py:180-182 | Returns the live handoff and removes nothing but an expired entry. |
| SessionState.SessionState.TakeHandoff | anthrouter/session_state.py:184-186 | Returns the live handoff and removes the entry either way. |
| SessionState.PutEntry | anthrouter/session_state.py:80-84 | Evict, assign and move to the end, in place, is the bounded write of the specification and keeps the store within its cap. |
| SessionState.TruncationBound | anthrouter/model_router.py:835-841 | For every limit that can be configured, a truncated response is the first 30% of the limit of the text, the marker, and as much of its tail as fits, exactly the limit long; the formula itself keeps to its limit if and only if that is at least 28. |
| SessionState.PinMeans | anthrouter/session_state.py:131-151 | A pin holds the model and flag of its record and the text, if it is not empty, truncated if it is over the limit. |
| OrderedDict.HoldsMostRecent | anthrouter/session_state.py:80-84 | A store that is only written holds exactly the capacity's number of most recently written distinct keys, each with its latest value. |
| CavemanConfinement.EditsAreSubstitution | anthrouter/caveman_rewrite.py:208-251 | Ops are accepted if and only if each has a legal span and the spans are pairwise disjoint; the result is then their simultaneous substitution, defined without sorting or splicing. |
| CavemanConfinement.OrderOfOpsIsIrrelevant | anthrouter/caveman_rewrite.py:208-251 | Any permutation of the ops is accepted alike and gives the same text. |
| CavemanConfinement.ProtectedBytesSurvive | anthrouter/caveman_rewrite.py:208-251 | Every interval outside communication sections, in a ruleset section or in a heading line survives byte for byte, moved by the length changes before it; the length of the result is the old one plus all length changes. |
| CavemanConfinement.ProtectedOrderSurvives | anthrouter/caveman_rewrite.py:208-251 | Protected intervals keep their order and stay apart. |
| CavemanSections.EditsAreAccepted | anthrouter/caveman_rewrite.py:208-251 | Ops are accepted if and only if the text of each occurs exactly once, inside a communication section and clear of every ruleset section and heading line, and no two overlap; the result is then the text with every one replaced. |
| CavemanSections.SectionsAreDelimited | anthrouter/caveman_rewrite.py:165-205 | A ruleset or communication section is one that starts at a heading line with such a title and runs to the first later heading line of the same or a higher level, or to the end of the text; a communication section does not start inside a ruleset section. |
| CavemanSections.HeadingsAreTheLines | anthrouter/caveman_rewrite.py:44 | The headings are exactly the lines that open with one to six hashes and a blank and go on, in order, each with its level and its title without the blanks around it. |
| CavemanEdits.ApplyEdits | anthrouter/caveman_rewrite.py:208-251 | The loops that validate, sort, compare neighbours and splice compute the specified result or reject. |
| CavemanStructure.StructureSurvives | anthrouter/caveman_rewrite.py:208-251 | For every accepted set of edits, the headings of the result are those of the prompt, each moved by the length changes before it, if and only if every edited stretch between two headings still begins and ends with a line break, the ends of the text counting as such, and holds no line that reads as a heading. |
| CavemanStructure.SectionsSurvive | anthrouter/caveman_rewrite.py:165-205 | Under the same condition the ruleset and communication sections of the result are exactly those of the prompt, moved likewise. |
| CavemanStructure.ReplacedBreakKeepsHeading | anthrouter/caveman_rewrite.py:208-251 | A family of accepted edits that replace the line behind a heading together with the break before it: the headings stay unless the new line is a heading. |
| CavemanStructure.RemovedBreakChangesHeading | anthrouter/caveman_rewrite.py:208-214 | A family of prompts on which an accepted edit takes the line break after a heading, so that the heading is not where the edits put it. |
| CavemanStructure.StructureIsNotAlwaysKept | anthrouter/caveman_rewrite.py:208-214 | The promise that the section structure survives every accepted edit is false. |
| CavemanRewriter.Rewriter.Rewrite | anthrouter/caveman_rewrite.py:366-398 | The method on the cache and the rejection map ends in the specified state and result. |
| CavemanRewriter.Rewriter.Compute | anthrouter/caveman_rewrite.py:410-478 | Finding the slot of each op, editing slot by slot and filling the cache give the specified result, cached under both prompts when something changed. |
| CavemanRewriter.RewriteKeepsInvariant | anthrouter/caveman_rewrite.py:366-478 | Every call keeps the cache invariant (values confined to their prompts, every value its own fixed point); every failure returns the prompt itself and leaves the cache unchanged. |
| CavemanRewriter.RunKeepsInvariant | anthrouter/caveman_rewrite.py:366-478 | The invariant holds after every sequence of calls from an empty cache. |
| CavemanRewriter.RewriteIsIdempotent | anthrouter/caveman_rewrite.py:472-478 | After any run, rewriting what a successful call returned is a cache hit that returns it again and changes nothing. |
| CavemanRewriter.CachedAnswersAreStable | anthrouter/caveman_rewrite.py:366-478 | A call changes the answer cached for a key if and only if its own prompt is neither cached nor recently rejected and has a guided slot, the ops answered are all owned and rewrite it, with at least one edit, into the prompt of that key in the same mode, and that prompt had been rewritten itself. |
| CavemanRewriter.RunIsStable | anthrouter/caveman_rewrite.py:366-478 | In a run in which no prompt is an edit of another in the same mode, every cached answer stays as it was first stored. |
| CavemanRewriter.CachedAnswerChanges | anthrouter/caveman_rewrite.py:472-478 | A family of two-call runs from an empty cache, with the editor of the source, in which the answer cached for a prompt changes. |
| CavemanRewriter.AnswersAreNotAlwaysStable | anthrouter/caveman_rewrite.py:472-478 | Such runs exist: byte stability is false of the code. |
| CavemanRewriter.ConfinedKeepsProtected | anthrouter/caveman_rewrite.py:208-251 | An edited text has every protected interval of its original byte for byte, and they keep their order. |
| CavemanRewriter.EveryAnswerKeepsProtected | anthrouter/caveman_rewrite.py:366-478 | After every run, whatever the model answered, every cached prompt and every dispatched one has, slot by slot, all protected bytes of the original in order, and its other blocks and keys unchanged. |
| CavemanAnswers.AnswerIsDecided | anthrouter/caveman_rewrite.py:410-478 | A prompt that nothing is known of is rewritten if and only if every op of the reply has its text in one block alone, one with a communication section, and every block accepts its ops: each block is then edited by exactly its own, all of them are counted, and the answer is cached for the prompt and for itself. |
| CavemanAnswers.OpsArePicked | anthrouter/caveman_rewrite.py:451-461 | A block is edited by exactly the ops that belong to it, in the order of the reply. |
| CavemanAnswers.OwnerMeans | anthrouter/caveman_rewrite.py:451-461 | An op belongs to a block if and only if its text occurs in that block and no other, and the block has a communication section. |
| CavemanAnswers.KnownIsAnswered | anthrouter/caveman_rewrite.py:366-373 | A cached prompt gets its cached answer and a rejected one is left alone, without any change of state. |
| CavemanAnswers.RejectionIsRemembered | anthrouter/caveman_rewrite.py:381-409 | After a rejection the same prompt is refused without a model call for 600 s, and no longer. |
| CavemanAnswers.OldestRejectionGoes | anthrouter/caveman_rewrite.py:389-393 | At most 4096 rejections are remembered; a new one costs the oldest exactly when there are that many, and no other. |
| AnthropicTransform.BuildBody | anthrouter/mapper/anthropic_transform.py:382-504 | The gates, run in the source's order over a mutable body, leave under every key what an order-free specification of that field says, which EveryFieldIsAccountedFor spells out; the inputs on which the source raises, and with which of three errors, are given exactly: no model, a model that is no string, and an effort that cannot be hashed. |
| OutboundGates.FinalBodyPassesEveryGate | anthrouter/mapper/anthropic_transform.py:382-504 | Whatever the payload and aliases, all gates of the resolved model hold of the final body at once. |
| OutboundGates.OnlyRejectedRequestsChange | anthrouter/mapper/anthropic_transform.py:382-387 | A client request crosses unchanged, its model resolved and internal fields removed, if and only if the resolved model accepts it as it stands. |
| OutboundGates.ActiveMeansOutboundThinks | anthrouter/mapper/anthropic_transform.py:183-193 | The predicate on the input holds exactly when the outbound thinking type is enabled or adaptive. |
| OutboundGates.RebuildingChangesNothing | anthrouter/mapper/anthropic_transform.py:382-504 | Building again from a built body, for the same model, returns it. |
| OutboundGates.BetweenToolsAtHighEffort | anthrouter/mapper/anthropic_transform.py:456-468 | The rewrite never introduces between_tools at an effort that rejects it; that pair crosses exactly when the client sent between_tools itself. |
| OutboundGates.HighEffortBetweenToolsCrosses | anthrouter/mapper/anthropic_transform.py:456-468 | A request for Sonnet 5.5 whose final body carries that pair. |
| OutboundGates.UnhashableEffortRaises | anthrouter/mapper/anthropic_transform.py:456-468 | A request on which the effort lookup raises. |
| OutboundGates.MergeBetas | anthrouter/mapper/anthropic_transform.py:196-223 | The loop over betas and seen computes the allowed betas in order of first appearance. |
| OutboundGates.MergedBetas | anthrouter/mapper/anthropic_transform.py:196-223 | A beta is sent if and only if the client sent it and it is allowed; none is sent twice. |
| OutboundGates.MergedIsAppendOnly | anthrouter/mapper/anthropic_transform.py:196-223 | More betas at the end never reorder or remove earlier ones. |
| OutboundGates.BetasMatchBody | anthrouter/mapper/anthropic_transform.py:183-223 | The clear_thinking beta is sent if and only if the client asked for it and the body that goes with it thinks; a long-context beta only goes to opus. |
| OutboundFields.EveryFieldIsAccountedFor | anthrouter/mapper/anthropic_transform.py:382-504 | Field by field, from the request, the model id and the rest of the body: an integer over the ceiling becomes the ceiling; disabled thinking becomes between_tools on Sonnet 5.5 below the high efforts, and goes where it is refused; a classifier call carries low effort on Haiku 5.5 and the identity block in front of its own system prompt; without thinking exactly the edits that need none are left, in order; efforts and system turns go where they are refused; every other field is as given. |
| OutboundFields.SentBetas | anthrouter/mapper/anthropic_transform.py:196-223 | A beta is sent if and only if the client sent it and it is not the one for thinking beside a body that does not think, one for a long context on a model other than opus, or one for fallbacks; none is sent twice. |
| OutboundFields.WhatRaises | anthrouter/mapper/anthropic_transform.py:382-396 | A request is not built exactly when it has no model, a model that is no string, or disabled thinking beside an effort that is a list or an object on Sonnet 5.5 or Haiku 5.5; which of the three errors it is, is given. |
| AnthropicTransform.StripPerMessageEffort | anthrouter/mapper/anthropic_transform.py:257-284 | Only the effort of messages that carry one is removed; a list without any is left as it is. |
| AnthropicTransform.StripThinkingEdits | anthrouter/mapper/anthropic_transform.py:226-254 | Removes exactly the clear_thinking edits, and the field itself when nothing is left of it. |
| InlineSystem.RewriteInlineSystem | anthrouter/mapper/anthropic_transform.py:328-376 | The loop that rebuilds the message list equals the fold of the specification, including the shortcut for lists without a system message. |
| InlineSystem.RewriteIsAppendOnly | anthrouter/mapper/anthropic_transform.py:328-376 | As role and block pairs, the rewrite of a history is a prefix of the rewrite of any extension of it. |
| InlineSystem.RewriteFlattens | anthrouter/mapper/anthropic_transform.py:328-376 | The rewrite is, pair by pair, what each message contributes on its own: itself, or one reminder unless it is empty or behind a tool call. |
| InlineSystem.RewriteAccounts | anthrouter/mapper/anthropic_transform.py:328-376 | No system role is left; every other message is there, in order, at most extended at the end of a user turn; everything else is a reminder that does not directly follow a tool call. |
| InlineSystem.RewriteIsIdempotent | anthrouter/mapper/anthropic_transform.py:328-376 | Rewriting a rewritten history changes nothing. |
| InlineSystem.ContributionMeans | anthrouter/mapper/anthropic_transform.py:287-376 | What each message contributes, from its own fields and the messages before it: its blocks, a string being one text block; or, for a system message with text, one reminder as a user's, unless the last message that is no system one calls a tool. |
| InlineSystem.ReminderMeans | anthrouter/mapper/anthropic_transform.py:287-318 | A reminder is one text block with the text of all text blocks, line by line, between its tags, and the breakpoint of the last text block that has one, else that of the message. |
| Transport.SendWithRetries | anthrouter/transport.py:112-223 | Against an arbitrary upstream, whose replies may fail to be read, parsed or waited for, the loop ends as the reference run does, an exception included; the reported attempt is the number of dispatches; every body is built from the payload as stripped and forced at that dispatch; the header is computed once. |
| Transport.OnReply | anthrouter/transport.py:142-218 | What one reply leads to, in the source's order of checks, each exception on the way included, with the payload and body rebuilt by a recovery. |
| Transport.HandleErrorResponse | anthrouter/http_util.py:196-268 | Statement by statement the error handler ends in the status that `Handled` gives, or raises another error than its own exactly on the bodies of `HandlerRaises`: those that cannot be loaded, a message that cannot be sliced, and on a 404 one that is no string. |
| Transport.HandledMeans | anthrouter/http_util.py:216-268 | How an upstream error ends, by its status and its message, that of its error or else its own: the status kept, the expired Thread as 400, anything but a 4xx as 502, or an exception. |
| Transport.StripAllThinkingBlocks | anthrouter/mapper/common.py:60-94 | The loop computes the stripped list and whether it differs, and raises exactly on an unhashable block type. |
| Transport.StripAllCleans | anthrouter/mapper/common.py:60-94 | No assistant turn keeps a thinking block or ends up empty, other turns are untouched, stripping is idempotent and changes nothing exactly when there was nothing to strip. |
| Transport.StrippingKeepsTheRest | anthrouter/mapper/common.py:60-94 | A stripped turn holds exactly the blocks that are no thinking ones, in order, or the empty text block if there is none, and all its other keys; every other message is as it was. |
| Transport.RebuildSucceeds | anthrouter/transport.py:182-216 | A recovery never fails to build: what raises was raised before the first dispatch. |
| SendLoop.TraceIsBounded | anthrouter/transport.py:132-140 | Between one and MAX_RETRIES + 1 dispatches, in every run. |
| SendLoop.RecoveriesAreOneShot | anthrouter/transport.py:178-216 | Each recovery fires at most once, is never taken back, and only for a reply that blames what it cures. |
| SendLoop.RecoveryIsDispatched | anthrouter/transport.py:178-216 | With an attempt to spare, a recovery is always followed by the dispatch of its body. |
| SendLoop.DispatchIsFollowed | anthrouter/transport.py:132-218 | In every run a dispatch is followed by another if and only if it was not the fourth and was answered by a transient failure (none, a 5xx of the list, a 429 with a delay), which leaves the request alone, or by a 400 that blames thinking or the system role while the history holds what a recovery not yet taken can cure; that recovery is then in force. |
| SendLoop.LastReplyDecides | anthrouter/transport.py:132-223 | The outcome, delivered, failed or an exception, is the one that the last reply leads to, and the final 502 is reached only after the last attempt. |
| SendLoop.ClientErrorsKeepTheirStatus | anthrouter/transport.py:132-244 | What the client is shown, for every run: a last reply of 4xx keeps its status, the expired-Thread 404 as 400, unless it is shown as 502, which happens if and only if its body breaks off, it is a 429 asking for a delay that cannot be slept while an attempt is left, a recovery fires on the last attempt, stripping raises, or the error handler raises on the body; a 200 is passed on unless it is not streamed and cannot be read or parsed; a reset without streaming shows nothing, and everything else is 502. |
| SendLoop.UnbuiltIsShown | anthrouter/model_config.py:54-55 | A request that is not built is shown as 400 when it has no model, else as 502. |
| SendLoop.UnreadableErrorIsLost | anthrouter/http_util.py:216-228 | An upstream 400 with a byte that is not UTF-8 is shown as 502, streamed or not. |
| SendLoop.OddMessageIsLost | anthrouter/http_util.py:230-249 | A 400 whose message is a number and a 404 whose message is a list are shown as 502; a 403 whose message is a list keeps its status. |
| SendLoop.SleepingCanRaise | anthrouter/transport.py:167-175 | A 429 whose retry-after is infinite is shown as 502 after one dispatch. |
| SendLoop.StrippingCanRaise | anthrouter/mapper/common.py:60-94 | A run in which the first reply is a 400 and the client is shown 502 because stripping raises on a block whose type is a list. |
| SendLoop.RecoveryOnTheLastAttemptIsLost | anthrouter/transport.py:132-223 | Such a run exists: three 503 replies, then a 400 that stripping would have cured, shown as 502. |
| SendLoop.EitherRecoveryOrderSameBody | anthrouter/transport.py:182-216 | Two runs with the same recoveries behind them dispatch the same body, whatever order they fired in. |
| SendLoop.RecoveriesCure | anthrouter/transport.py:178-216 | After stripping no assistant turn of the dispatched body has a thinking block; after the forced rewrite it has no system turn. |
| SendLoop.EveryDispatchIsAccepted | anthrouter/transport.py:124-132 | Every dispatched body passes all gates, and the one header agrees with each of them. |
| PromptStore.RequestDB.RecordRequest | anthrouter/db.py:509-585 | Entries first, then the row and its insert trigger; the whole new state is given. |
| PromptStore.RequestDB.ExpireChunk | anthrouter/db.py:799-807 | Deletes any chunk of the expired rows, with the delete trigger once per row; a short chunk means that none is left. |
| PromptStore.RequestDB.RunRetention | anthrouter/db.py:789-814 | Terminates with the rows deleted one by one and the store pruned; everything deleted had expired at some pass, nothing is expired at the last one, and the total counts the rows. |
| PromptStore.HashesMean | anthrouter/db.py:266-287 | A row names the hashes of all its six columns. |
| PromptStore.FirstCaptureIsStored | anthrouter/db.py:509-585 | Under a hash is stored what was there, else the first entry of a type the table takes, with a count of zero; nothing else is stored. |
| RefCounts.RecordKeepsConsistent | anthrouter/db.py:266-276 | An insert keeps counts exact and prompts served if and only if each hash of the row is among its entries or stored. |
| RefCounts.CountsAreConserved | anthrouter/db.py:132-147 | Over any interleaving of inserts, deletes and prunes, the counts are exact and every named prompt is stored, throughout, if and only if each insert finds its hashes among its entries or already stored. |
| RefCounts.CountsFallShortByDebts | anthrouter/db.py:132-147 | In every run the count beside a prompt is the number of live rows that name it less the number that named it when it was stored; so the counts are exact if and only if no stored prompt has such a debt, and a prune drops a prompt if and only if its debt covers all the rows that name it. |
| RefCounts.CountsStayExact | anthrouter/db.py:132-147 | The counts alone stay exact throughout a run if and only if no insert of it stores a prompt that a live row names already. |
| RefCounts.RetentionAmongInserts | anthrouter/db.py:789-814 | A pass between whose chunks covered inserts come: the rows from before the cutoff are gone, every other row is still there, and exactly the prompts that a live row names are kept. |
| RefCounts.CoveredRowLosesPrompt | anthrouter/handlers.py:794-799 | When the row without entry goes instead, the captured row, with all its hashes stored, loses the prompt they share. |
| RefCounts.PruneDropsExactlyTheUnnamed | anthrouter/db.py:812-813 | With exact counts the prune drops exactly the prompts no live row names. |
| RefCounts.RetentionIsExact | anthrouter/db.py:789-814 | With a clock that does not run back, retention deletes exactly the rows expired at its last chunk, and a prompt survives, text included, exactly when a surviving row names it. |
| RefCounts.EveryRowIsServed | anthrouter/db.py:509-585 | After any covered run every hash of every live row leads to the text it stands for. |
| RefCounts.NothingUnnamedSurvivesPruning | anthrouter/db.py:812-813 | Even without coverage no count exceeds the truth, so a prune leaves no prompt that nobody names. |
| RefCounts.UncoveredInsertLosesPrompt | anthrouter/handlers.py:794-799 | A row written with a hash but no entry, then a captured row that names that hash among others and goes again: the prune drops a prompt that the first row still names. |
| RefCounts.DeleteKeepsConsistent | anthrouter/db.py:277-287 | Deleting a row keeps counts exact, once per row even when several columns share a hash, and keeps every prompt. |
| RequestBody.Reader.ReadRequestBody | anthrouter/interception.py:288-325 | For any framing headers and bytes the reader returns what the specification says, or its error, and consumes exactly the body. |
| RequestBody.Reader.ReadChunks | anthrouter/interception.py:300-318 | The chunk loop decodes as specified and never holds more than MAX_BODY bytes, also when it fails. |
| RequestBody.Reader.ReadFramingLine | anthrouter/interception.py:276-280 | Reads one line within the bound, or fails. |
| BodyHeaders.LengthFramesBody | anthrouter/interception.py:317-325 | Without a transfer coding the body is exactly as long as the decimal number of the header, leading zeros aside, or empty when it is blank; a longer one than the limit, a shorter input and any other text are refused. |
| BodyHeaders.CodingsAreTheTokens | anthrouter/interception.py:295-297 | The codings are what stands between the commas of all the headers, in order, stripped and in lower case, the blank ones dropped. |
| BodyHeaders.ChunkSizeMeans | anthrouter/interception.py:303-306 | A size line is read if and only if it holds hexadecimal digits with nothing but white space around them, up to its end or a semicolon; it is then read as what the digits say. |
| BodyHeaders.FramingLineMeans | anthrouter/interception.py:276-280 | A framing line is what ends in the first line feed, if that is among the first 1024 bytes. |
| ChunkedCoding.DecodingInvertsEncoding | anthrouter/interception.py:300-318 | Any chunking with any extensions and trailers that fit decodes to its body, is consumed through the final blank line, and is refused exactly when the body is over the limit. |
| ChunkedCoding.ReaderAcceptsExactlyTheCoding | anthrouter/interception.py:300-318 | The reader returns a body if and only if the input starts with an encoding of it within the limit: nothing else is accepted. |
| ChunkedCoding.EverySplitArrives | anthrouter/interception.py:300-318 | However a body is cut into non-empty pieces, announcing their sizes in hexadecimal sends it whole. |
| ChunkedCoding.AcceptedIsEncoded | anthrouter/interception.py:300-318 | From an accepted input the encoding that it was can be read back. |
| ChunkedCoding.SizeLineAnnounces | anthrouter/interception.py:303-306 | The size line written for any size, with any extension, is parsed to that size. |
| PemBundle.FindPemProblem | anthrouter/interception.py:86-118 | The loop over labels, body lines and certificate count returns the specified verdict. |
| PemBundle.RebuildCaBundle | anthrouter/interception.py:130-187 | Unset sources leave everything alone; otherwise the loop that skips, deduplicates, reads and joins writes the usable sources in order in front of ca.pem, or keeps the old bundle, also when writing fails. |
| PemBundle.SourceThenFile | anthrouter/interception.py:86-171 | Behind a usable, newline-terminated source a file has exactly the problems it has alone, save that it no longer needs a certificate of its own. |
| PemBundle.JoinedProblem | anthrouter/interception.py:130-171 | Any number of usable sources in front of ca.pem leave it the problems it has. |
| PemBundle.WrittenBundleIsUsable | anthrouter/interception.py:130-171 | Whatever the sources hold, a bundle written around a valid ca.pem is usable. |
| PemBlocks.VerdictIsExact | anthrouter/interception.py:86-118 | A file is accepted if and only if its lines, stripped, are text and whole blocks with at least one certificate, each of which decodes; each problem is reported exactly on the files that have it. |
| PemBlocks.SourcesAreInBundle | anthrouter/interception.py:148-159 | A bundle holds, in order, exactly the usable sources that are the first with their path, the bundle and ca.pem apart; every other first one counts as unreadable. |
| SseStream.ReadSseLines | anthrouter/http_util.py:71-87 | The lines are those of the concatenated bytes, however the reads split them. |
| SseStream.SendMessageStream | anthrouter/transport.py:246-263 | The chunks yielded are the events of the concatenated bytes, however they arrive. |
| SseStream.NoLineIsLost | anthrouter/transport.py:252-261 | Grouping drops blank lines only: every other line is in exactly one event, in order. |
| SseStream.ChunksAreWhole | anthrouter/transport.py:252-261 | No event is blank and each ends in a newline. |
| SseStream.LinesAreSplit | anthrouter/http_util.py:71-87 | A line ends at its line feed; the last one needs none, unless it is empty. |
| SseStream.EventsAreSplit | anthrouter/transport.py:252-261 | An event is the lines up to a blank one, and with it; blank lines alone are none, and the last event needs none. |
| StreamUsage.UsageWrapper | anthrouter/handlers.py:1611-1698 | Counts are the per-field peaks over all events, and none when upstream raised; text is the limit-length prefix of all text; actions and the status of the row are those specified, with a raised 429 as rate-limited. |
| StreamUsage.ExtractStats | anthrouter/handlers.py:495-519 | The counts become the peaks of what was and what the events report. |
| StreamUsage.PeakIsMaximum | anthrouter/handlers.py:495-519 | A peak bounds every reported count and is one of them or the start. |
| StreamUsage.ExtractText | anthrouter/handlers.py:544-564 | The captured text is the limit-length prefix of what was captured and the new text. |
| StreamUsage.ExtractThreadMarks | anthrouter/handlers.py:522-541 | The marks become those after the events; the last string id wins (LastStartIsMarked). |
| StreamUsage.RecordedRightBeforeItsStop | anthrouter/handlers.py:1644-1665 | Every chunk is yielded in order, and the Thread is recorded once: right before the first chunk that completes an id and a stop without an error, under the id of the last message_start with a string id and with the limit-length prefix of all text deltas so far. |
| StreamUsage.ReadyMeans | anthrouter/handlers.py:1651-1653 | The marks are complete exactly when the events hold a message_stop, no error, and a message_start with a string id. |
| StreamUsage.CountsArePeaks | anthrouter/handlers.py:495-519 | Each of the four counts is the largest one that the events report under its own name, or zero. |
| StreamUsage.TextIsAllDeltas | anthrouter/handlers.py:544-564 | The text of a stream is that of exactly its text deltas, in order. |
| StreamUsage.RecordedWhenReady | anthrouter/handlers.py:1644-1665 | The Thread is recorded if and only if some chunk completes an id and a stop without an error. |
| StreamUsage.ErrorForbidsTheRecord | anthrouter/handlers.py:1644-1665 | When an error event arrives, the Thread is not recorded if and only if no earlier chunk had completed an id and a stop. |
| StreamUsage.StreamErrorIsFound | anthrouter/handlers.py:1662-1665 | Looking at each chunk behind the tail of the last one finds the error header exactly when the stream holds it. |
| Attribution.StripAttributionReminders | anthrouter/request_text.py:315-337 | The loop returns the stripped conversation and the number of removals, and the input when there were none. |
| Attribution.StripAttributionContent | anthrouter/request_text.py:274-312 | One message's content after the removal, or the content itself when nothing may be removed. |
| Attribution.MessageConservesBreakpoints | anthrouter/request_text.py:274-312 | The cache_control values of a message are the same, in order, before and after; a changed message is not blank; only user messages change, and only their content. |
| Attribution.ConversationConservesBreakpoints | anthrouter/request_text.py:315-337 | The same, message by message, over a whole conversation. |
| Attribution.BlocksKeepTheirPlaces | anthrouter/request_text.py:274-312 | Blocks keep their order and, without a match, their text; only blocks that hold nothing but the reminder may disappear. |
| Attribution.RemindersGo | anthrouter/request_text.py:274-307 | What the removal makes of each block behind any others: one with nothing but the reminder goes, its breakpoint to the block left last, unless that has no place for it; one with more text loses the reminder; any other stays. |
| Attribution.ContentLosesReminders | anthrouter/request_text.py:274-312 | A content changes exactly when a reminder goes and something visible is left; it is then what is left. |
| Attribution.MessageLosesReminders | anthrouter/request_text.py:326-337 | Only a user message whose content loses a reminder changes, and only in its content. |
| PromptVolatility.PromptVolatilityTracker.Observe | anthrouter/prompt_volatility.py:92-154 | One observation: the session's new state, the bounded store and the flags, in terms of the specification. |
| PromptVolatility.DistinctIsCapped | anthrouter/prompt_volatility.py:113-124 | The reported distinct count is the smaller of 256 and the true number of values at that position. |
| PromptVolatility.FlagsRefineTheTruth | anthrouter/prompt_volatility.py:126-154 | Everything flagged is flagged by the unbounded definition; they differ if and only if there are more than 256 values and the threshold lies between the two ratios. |
| PromptVolatility.AgreeForFiveHundredAndEleven | anthrouter/prompt_volatility.py:126-154 | At the default threshold they agree for 511 requests, and need not at 512. |
| PromptVolatility.TracksWholeHistory | anthrouter/prompt_volatility.py:101-124 | Over every run, a tracked session's state is that of all its requests since it was last untracked. |
| PromptVolatility.KeepsTheMostRecentSessions | anthrouter/prompt_volatility.py:103-110 | Without forget, a session is tracked if and only if it has had a request and fewer than the limit of other sessions have had one since. |
| PromptVolatility.FlagsAreTheFlagged | anthrouter/prompt_volatility.py:129-154 | A position is reported exactly when it is before the breakpoint and over the threshold, with its counts. |
| PromptVolatility.LastBreakpointMeans | anthrouter/prompt_volatility.py:55-66 | The positions watched end with the last block that carries a cache breakpoint. |
| RouterMath.BlendIsBetween | anthrouter/model_router.py:1022-1025 | The rounded blend lies between the two scores although validated weights only nearly sum to one. |
| RouterMath.BlendIsMonotone | anthrouter/model_router.py:1022-1025 | A higher score on either side never lowers the blend. |
| RouterMath.BlendedTierIsBetween | anthrouter/model_router.py:1022-1025 | The tier routed to lies between the tiers of the two scores. |
| RouterMath.BlendIsNearest | anthrouter/model_router.py:1022 | The blend is the integer nearest to the system score by the system weight plus the user score by the user weight, the even one of two. |
| RouterMath.TierMeans | anthrouter/model_router.py:174-182 | A tier reaches from its threshold, which is part of it, to the next one. |
| RouterMath.MidpointIsStandard | anthrouter/model_router.py:924-943 | The midpoint is a standard score if and only if the standard band holds an integer and the thresholds are not an odd integer and its successor. |
| RouterMath.WideBandHoldsMidpoint | anthrouter/model_router.py:943 | Thresholds more than one apart always have a standard midpoint; 1 and 2 do not. |
| RouterMath.SystemPromptScores.Classify | anthrouter/model_router.py:913-986 | A cached score spares the call and is moved to the end, a success is cached within the bound, an absent prompt or a failure gives the midpoint and leaves the cache alone. |
| RouterMath.KeepsTheLatelyUsed | anthrouter/model_router.py:913-986 | Over every sequence of questions the cache is least-recently-used: a score is cached if and only if it was used, by a hit or a success, and fewer than the bound of other prompts have been used since; it is the score of its last use. |
| ConfigEnv.WriteConfigEnv | anthrouter/admin.py:115-148 | The loop that pops submitted settings and rebuilds the lines writes the merged content. |
| ConfigEnv.ReadConfigEnv | anthrouter/admin.py:300-331 | Each key reads as the last line that sets it. |
| ConfigEnv.ReadAfterWrite | anthrouter/admin.py:115-148 | The written file reads as the old reading overridden by the submission if and only if every submitted key is set at most once in the file or already reads as submitted. |
| ConfigEnv.RepeatedKeyReadsStale | anthrouter/admin.py:115-148 | A file that sets a key twice keeps reading as its last line, whatever is submitted. |
| ConfigEnv.WrittenReads | anthrouter/admin.py:115-148 | What each key reads as after a write, ambiguous ones included. |
| ConfigEnv.MergeIsInPlace | anthrouter/admin.py:124-139 | Every line keeps its place and its text, except the first line of each submitted key. |
| ConfigEnv.WritingTwiceIsWritingOnce | anthrouter/admin.py:115-148 | Writing the same settings again leaves the same file. |
| ConfigEnv.LineReadsBack | anthrouter/admin.py:137-144 | A written line reads back as its key and value, whatever quotes or equals signs the value holds. |
| ConfigEnv.LineMeans | anthrouter/admin.py:300-331 | A line sets what stands before its first equals sign to what stands behind it, both stripped and the value unquoted; a comment or a line without one sets nothing. |
| ConfigEnv.FileIsSplit | anthrouter/admin.py:300-331 | A line of the file ends at a newline, a carriage return or both; the last one needs neither, and a missing file has none. |
| ConfigEnv.NewKeysAreAppended | anthrouter/admin.py:140-144 | Behind the old lines come, in order, exactly the submitted settings whose key none of them sets. |

## Left out

- Handoff keys and cache keys are taken as injective: the final user text stands for its SHA-256, and a (system, mode) pair for its digest, with string and block-list systems distinct.
- Security-monitor requests bypass routing and are not steps of the protocol.
- `route_model` and its classifier prompts, keyword rules and affirmation phrases: its answer is arbitrary wherever it is asked.
- `_apply_tier_cache`: the cached tier only changes which answer a first request gets, and any answer is allowed there.
- Message ids are fresh in every run: upstream never issues one twice.
- Fields the protocol does not read (ratelimit windows, context observations, toggles) of the session state.
- The rewriter is sequential and its cache in memory: the lock per key can be deleted while a waiter holds it (`anthrouter/caveman_rewrite.py:394-398`), so no single-flight claim is made; files on disk, pruning by age and the worker pool are not modelled.
- Which headings are communication or ruleset headings, the attribution pattern, base64 and DER checks and hashing are arbitrary functions; so are JSON parsing and UTF-8 decoding, whose results (a value, a parse error or, for an upstream error, another exception) are inputs.
- Lower-casing is that of ASCII letters, and the whitespace that is stripped that of Python's `str.strip`.
- Transport.SendWithRetries: the length of a delay that can be slept, sockets, rate-limit headers and request ids are not modelled, nor a header that `http.client` refuses to send; the upstream is an arbitrary function of the attempt.
- Transport.HandleErrorResponse: says which status is raised, not the error type and the message; JSON nested beyond Python's recursion limit, which may load and still not print, is not modelled.
- OutboundGates.MergeBetas: returns the list before it is joined with commas, and treats a model that is not a string like a missing one.
- `json.dumps` of the body, and the order of its keys.
- StreamUsage.UsageWrapper: events are well-formed ones; a `data:` line whose JSON is not an object, or whose usage is not, makes the source raise.
- A client that disconnects in mid-stream, and the rest of the row that the stream wrapper writes.
- SendLoop.ClientErrorsKeepTheirStatus: is about a status line not yet sent; a stream that was committed with HTTP 200 shows the failure as an error event instead. What becomes of a 200 that is passed on is not modelled: a stream that breaks off before its first chunk, or a parsed message that is no object or whose usage or content is not as expected (`anthrouter/handlers.py:1571-1601`), is shown as 502 as well.
- RefCounts.RetentionIsExact: covers a pass with nothing between its chunks; RetentionAmongInserts covers inserts in between.
- SQLite: transactions are single steps, a row id is any unused one, and only the columns with hashes and the timestamp are modelled; sanitizer events, full-text search and migrations are not.
- Locks of the database and the trackers: each locked section is one step.
- PromptVolatility.PromptVolatilityTracker.Observe: ratios are exact, unrounded real numbers, and a session's state is stored as a value.
- RouterMath.BlendIsBetween: arithmetic is over real numbers, so rounding inside floating point is not modelled.
- RouterMath.BlendIsMonotone: the same.
- RouterMath.BlendedTierIsBetween: the same.
- ConfigEnv.WriteConfigEnv: the atomic replacement through a temporary file is not modelled.
- PemBundle.RebuildCaBundle: paths are resolved already, and the temporary file is not modelled.
- CONNECT tunnels, TLS contexts, forwarding of decrypted requests and the HTTP handler plumbing: input and output without a functional property beyond the framing above.
- `estimate_input_tokens`, `calibrated_ratio`, `strip_volatile_system_blocks`, pricing, pace, the admin queries and the UI: they would only add easy members.
