# A verified model of the browser daemon's core

The daemon drives a real browser for agents. It sends each page as an
accessibility tree, later as deltas against the tree it sent last; it takes
requests and answers them line by line; it lets an agent act on a page only
while the agent's picture of it is current; and it passes what a human types in
a browser form to the page without the agent seeing it. This project models
those parts and proves what they promise.

| modules | what they model |
|---|---|
| Trees, SortedMaps, Results, Text | nodes, refs, ordered maps, lines and decimals |
| Deltas, SiblingOrder, DeltaLaw | the delta between two trees, the interpreter that applies it, and the law that connects them |
| PatchOps | one operation of any patch: when it is refused, and where it puts a node |
| DeltaCounts, DeltaFrames, DeltaStrays, DeltaStages, DeltaPatch, DeltaRuns | one sibling list inside a larger forest, operations that hit another node than meant, the patched forest, and where each stage of a delta leads |
| Codes, Tokens, TreeCodec, TreeRoundTrip, LineBreaks, TreeIteration | the indented tree format, its tokenizer, its stack, the texts it cannot carry, the hashed pre-images |
| Refusals | which texts the tree and delta readers refuse |
| Requests, RequestRoundTrip | the request line |
| Envelopes, Clients, ResponseFraming | warnings, envelopes, responses and the client's read loop |
| PageStates, MirrorSync | a page's baseline and the agent's mirror of it, over runs |
| DeltaWire, DeltaRoundTrip, DeltaBreaks, SoftPatches, TextMirror | printed deltas, and an agent that builds its mirror from printed bodies only |
| ActProtocol | concurrent acts on one page |
| ActProgress | every act can return; when one fails; the clock |
| EngineHandles, Reaper, ReaperRuns | engine pages opened, reaped and closed concurrently; what a sweep plans, and what it does while the daemon goes on |
| EngineRuntime | jobs for the engine thread and the wake signal |
| PendingQueues, QueueLedger, PromptForms, WebEntries | the pending-input queue, form fills and single-use entry links |
| Redaction, KeyTexts, TomlSections, Resampling | masking, base64 keys, a configuration section, frame resampling |

Code that changes state is a class or a method with loops, proved against a
specification function; the results are lemmas about those functions. Calls
that run concurrently are step models: each lock section of the source is one
atomic action, a run is any sequence of enabled actions, and an invariant is
carried over all of them.

`dafny verify dfyconfig.toml` checks the project.

## Where code and documentation part

- `delta/diff.rs` promises that applying a delta gives the second tree. For any
  two well-formed trees it does so exactly when `DeltaLaw.Lands` holds
  (`DeltaLaw.DeltaYields`), a condition on the two trees alone with two parts.
  The moves must land at every level: reorders such as 4,2,1,3 to 1,2,3,4 end
  elsewhere. And a node that changes its parent must come in after its old node
  has gone: an addition that comes too early is refused as a duplicate
  (`DeltaLaw.ReparentedNodeFails`), and a replacement that plants a ref ahead of
  its old node makes the later removal take the wrong one, so the patch can end
  without an error in a wrong tree (`DeltaLaw.RelabelledNodeStrays`). Wrapping
  old nodes in new ones is fine (`DeltaLaw.WrappedComesInTime`).
- `docs/PROTOCOL.md` promises that a repeated act returns the cached result. The
  code compares the token first, and the audit row it looks for is written after
  the lock is released. So a repeat is refused when the token has changed, runs
  again while no row of an equal call is written and young enough, and is
  answered from the cache otherwise (`ActProtocol.RepeatExact`). After the first
  call has returned, it never runs again within the limit
  (`ActProtocol.ReturnedThenReplayed`).
- `docs/PROTOCOL.md` also promises that every returned token can be named next.
  The token of a cached answer can exactly when the act it comes from left the
  token the page shows by then (`ActProtocol.HandedIsCurrent`).
- Only acts take the page's lock. A view, a wait, a cursor operation, a
  navigation or a new viewport can move the token between an act's check and its
  engine step; the engine then acts on another state than the one named, exactly
  when the last of them left another token (`ActProtocol.EngineSeesNamedToken`,
  `ActProtocol.MovedUnderAct`).
- A wait and a form fill advance the baseline but send no delta, so the agent's
  mirror falls behind (`MirrorSync.WaitLosesSync`).
- `docs/PROTOCOL.md` keeps the empty body for "nothing changed"; a page without
  nodes, sent in full, has the same body (`TextMirror.EmptyPageLooksUnchanged`).
  It also replaces a subtree of which more than 40% changed; no code does.
- `docs/PROTOCOL.md` prints a tree one node a line. The page walker keeps the
  inner line breaks of an `aria-label` and of what is typed into a text area
  (`crates/vs-engine-webkit/src/backend/snapshot_dom_walker.js:204-223`), and
  the printer writes them as they are. Such a tree is not what its text reads
  back as (`LineBreaks.TreeReadsBack`), an agent does not follow it
  (`TextMirror.TextStepExact`), and an empty line in it ends the reply: the
  client gets a shorter body, and the rest stays on the connection
  (`ResponseFraming.AnyBodyRead`, `TextMirror.WireDelivers`,
  `TextMirror.BrokenLabelCutsReply`).
- A sweep plans under the lock, lets go of it, and takes what it planned without
  looking at the times again. A page touched in between loses its engine page
  under the call that touched it, and a session all of its pages. What it takes
  was idle when planned, and is in use by then exactly when such a touch came
  (`ReaperRuns.TakenInUse`, `ReaperRuns.ClosedInUse`,
  `ReaperRuns.TouchedUnderSweep`).
- All fields of a form share one argument text, so a fill that starts at the
  token of an earlier one gets a cached answer while that one's audit row is
  young, and its value never reaches the page (`PromptForms.ValuesReachEngine`).
- Closing a page while it is being reopened leaves an engine page open
  (`EngineHandles.CloseDuringReopen`); shutting the engine channel does not wake
  a host that sleeps, or is about to, with no signal pending
  (`EngineRuntime.ShutdownDoesNotWake`).

## Assumptions

- The hash is injective on its pre-image; a token is modelled by that pre-image.
- The engine answers with arbitrary trees. Where a result needs it, the trees are
  well formed: no repeated ref, no ref 0 (reserved by `docs/PROTOCOL.md`). The
  page walker never gives out 0 itself, but reads a ref from an element attribute
  (`crates/vs-engine-webkit/src/backend/snapshot_dom_walker.js:250-256`) that a page copies when it clones an element,
  so it does not guarantee distinct refs.
- Attribute keys are clean words, as the three keys the tree builder sets are
  (`crates/vs-engine-webkit/src/backend/common.rs:98-116`). Where a patch is
  sent, or a reply crosses the wire, no printed line ends in a carriage return
  (`TextMirror.Tidy`): the page walker trims the labels it gives out
  (`crates/vs-engine-webkit/src/backend/snapshot_dom_walker.js:204-241`). Reading
  back a whole tree is settled with them, too.
- Audit rows in the store when a run begins have no writer in it and are not
  dated later than its beginning.
- Ids of entries, forms, pages and nonces are fresh; clocks never run backwards.
- Forms reach one agent in the order in which they were made.
- No code of the repository reads a reply body back into a tree; the agent of
  `TextMirror` uses the library's tree parser, delta parser and patch, choosing
  by the first character of the body.

## Model

| member | source | states |
|---|---|---|
| `Deltas.Apply` | crates/vs-protocol/src/delta/apply.rs:9-15 | applying an op list is applying its ops one after the other, stopping at the first failure, and leaves the given tree alone |
| `Deltas.Diff` | crates/vs-protocol/src/delta/diff.rs:16-20 | the loops over one growing list produce exactly the op list whose effect the delta law is about |
| `Deltas.DiffChildren` | crates/vs-protocol/src/delta/diff.rs:22-75 | on top of what was pushed before, removes, then adds, then edits, then moves of one sibling list |
| `Deltas.DiffNode` | crates/vs-protocol/src/delta/diff.rs:77-92 | one shared node: a replace when its own fields differ, otherwise an attribute update and its children |
| `DeltaLaw.DeltaIsExact` | crates/vs-protocol/src/delta/diff.rs:3-15 | the delta law, for any two well-formed trees, told from the trees alone: when no addition comes too early and no removal misses, the delta applies, the result has the refs of `b` once each, and it is `b` if and only if the moves land at every level; if an addition is the first to come while its old node still stands, the patch is refused for that ref; if a removal is the first to miss, because a replacement planted its ref where the search comes first, the node keeps its old parent in whatever comes out, and has another in `b` |
| `DeltaLaw.DeltaYields` | crates/vs-protocol/src/delta/diff.rs:3-15 | applying the delta yields `b` if and only if nothing goes wrong on the way and the moves land |
| `DeltaLaw.MissedElsewhere` | crates/vs-protocol/src/delta/diff.rs:77-92 | a node whose removal misses has another parent in the new tree, or was planted outside it |
| `DeltaLaw.TimelyNeverRepeats` | crates/vs-protocol/src/delta/diff.rs:22-92 | when every ref comes in only after its old node has gone, nothing goes wrong and no forest on the way repeats a ref |
| `DeltaLaw.SameParentsTimely` | crates/vs-protocol/src/delta/diff.rs:22-92 | shared refs that keep their parents always come in time |
| `DeltaLaw.WrappedComesInTime` | crates/vs-protocol/src/delta/diff.rs:22-48 | a sibling list replaced by new nodes comes in time whatever old nodes they wrap |
| `DeltaLaw.DeltaLawKeptOrder` | crates/vs-protocol/src/delta/diff.rs:22-75 | when kept siblings keep their relative order, the delta yields `b` if and only if nothing goes wrong on the way, and always when shared refs keep their parents |
| `DeltaLaw.EmptyDeltaIffSame` | crates/vs-protocol/src/delta/diff.rs:22-92 | with distinct refs among siblings, the delta is empty if and only if the forests are equal |
| `DeltaLaw.ReparentedNodeFails` | crates/vs-protocol/src/delta/diff.rs:30-44 | an instance: a node moved under a new parent that comes before its old one is the mishap of an addition that comes early, and the patch is refused |
| `DeltaLaw.RelabelledNodeStrays` | crates/vs-protocol/src/delta/diff.rs:77-84 | an instance: a node moved into a sibling replaced before it is the mishap of a removal that misses, and the patch ends without an error in a wrong tree |
| `DeltaRuns.LevelLeads` | crates/vs-protocol/src/delta/diff.rs:22-75 | one sibling level inside any larger forest: its ops run to the patched forest, or up to the first mishap that the two forests show |
| `DeltaRuns.RemovesLead` | crates/vs-protocol/src/delta/diff.rs:24-28 | the removes leave exactly the kept siblings in their old order, or the first one whose ref is met ahead stays |
| `DeltaRuns.AddsLead` | crates/vs-protocol/src/delta/diff.rs:30-48 | the adds, each at its final index, interleave the new subtrees with the kept siblings, or stop at the first ref, in pre-order, that still stands |
| `DeltaRuns.NodeLeads` | crates/vs-protocol/src/delta/diff.rs:50-56 | one kept sibling is patched where it stands, or goes wrong as its own level does, and no other is touched |
| `DeltaRuns.MovesLead` | crates/vs-protocol/src/delta/diff.rs:58-74 | the moves rearrange the siblings and change none of them |
| `DeltaPatch.PatchExact` | crates/vs-protocol/src/delta/diff.rs:22-92 | the patched forest is the new one if and only if the moves land at every level |
| `DeltaPatch.PatchRefs` | crates/vs-protocol/src/delta/diff.rs:22-92 | however the moves fall, the patched forest has exactly the refs of the new one, once each |
| `DeltaStrays.FathersKept` | crates/vs-protocol/src/delta/apply.rs:17-71 | no operation gives a node another parent unless it brings its ref |
| `DeltaStrays.RemoveStrays` | crates/vs-protocol/src/delta/apply.rs:19-24 | a removal takes the first node of its ref in search order: one met ahead goes, and the one meant keeps its place |
| `DeltaFrames.TakeIn` | crates/vs-protocol/src/delta/apply.rs:75-106 | the search takes a node of an inner sibling list exactly as it would there alone, when nothing ahead has its ref |
| `DeltaFrames.EditIn` | crates/vs-protocol/src/delta/apply.rs:108-135 | the same for a node found to be edited |
| `DeltaStages.SiblingBound` | crates/vs-protocol/src/delta/diff.rs:41-41 | a sibling list with distinct 32-bit refs is short enough that a position never overflows 32 bits |
| `SiblingOrder.MovesRestoreOrder` | crates/vs-protocol/src/delta/diff.rs:58-74 | remove-then-insert moves of the out-of-place siblings give the wanted order if and only if no move finds its sibling left of one already placed |
| `SiblingOrder.MovesMayMiss` | crates/vs-protocol/src/delta/diff.rs:58-74 | the order 4,2,1,3 to 1,2,3,4 is one the moves do not restore |
| `Tokens.Tokenizer.Next` | crates/vs-protocol/src/tokenize.rs:38-63 | the next token runs to the first blank outside quotes; the tokenizer keeps exactly what follows |
| `Tokens.TokensOfLine` | crates/vs-protocol/src/tokenize.rs:35-64 | tokens that stay whole, printed with single spaces, are read back exactly |
| `Tokens.SolidLabel` | crates/vs-protocol/src/tokenize.rs:67-86 | a quoted label is one token whatever it holds, and unquotes to the label with its double quotes softened |
| `Tokens.ScanValue` | crates/vs-protocol/src/tokenize.rs:67-95 | the same for an attribute value, which may also be empty |
| `Tokens.IndentRead` | crates/vs-protocol/src/tokenize.rs:112-115 | two spaces a level are read back as that depth |
| `Codes.RoleRoundTrip` | crates/vs-protocol/src/codes.rs:41-72 | every role is read back from its code, and the code is one plain word |
| `Codes.ErrorRoundTrip` | crates/vs-protocol/src/codes.rs:41-72 | the same for error codes |
| `TreeCodec.EncodeTree` | crates/vs-protocol/src/tree.rs:108-114 | the printed text is the pre-order listing of node lines |
| `TreeCodec.EncodeNode` | crates/vs-protocol/src/tree.rs:181-208 | one node: its line, then its children one level deeper, appended to what was there |
| `TreeCodec.EncodeLine` | crates/vs-protocol/src/tree.rs:181-203 | indent, ref, role, label, operation cluster and attributes, single-spaced |
| `TreeCodec.ParseNodeLine` | crates/vs-protocol/src/tree.rs:210-257 | a line is accepted, or refused with the same error, as its tokens are |
| `TreeCodec.Assemble` | crates/vs-protocol/src/tree.rs:141-179 | the stack loop closes and opens nodes as the depth list prescribes |
| `TreeCodec.ParseTree` | crates/vs-protocol/src/tree.rs:118-130 | blank lines are skipped, the first bad line decides the error with its line number, and the entries are assembled |
| `TreeRoundTrip.AssembleInvertsListing` | crates/vs-protocol/src/tree.rs:141-179 | the stack rebuilds exactly the forest whose pre-order depth listing it is fed |
| `TreeRoundTrip.AssembleKeepsEveryLine` | crates/vs-protocol/src/tree.rs:141-179 | whatever the indents, every line becomes one node and the pre-order of the result is the line order |
| `TreeRoundTrip.NodeLineRead` | crates/vs-protocol/src/tree.rs:181-257 | a printed node line, whatever its texts hold, is not blank, carries its depth, and parses to the node with double quotes softened, when its attribute keys are clean |
| `LineBreaks.TreeReadsBack` | crates/vs-protocol/src/tree.rs:104-130 | for any tree with clean attribute keys, parsing the printed tree gives the tree with double quotes softened if and only if no label or value holds a line break and no printed line ends in a carriage return |
| `LineBreaks.ParsedUnbroken` | crates/vs-protocol/src/tree.rs:118-130 | whatever text is parsed, no label or value of the tree holds a line break |
| `LineBreaks.TreeReadsBackExactly` | crates/vs-protocol/src/tree.rs:104-130 | and it gives the tree itself if and only if, besides, no label or value holds a double quote |
| `TreeRoundTrip.EncodeTellsApart` | crates/vs-protocol/src/tree.rs:104-114 | clean trees (clean keys, no line break in a text, no line ending in a carriage return) that print alike differ at most in quotes, and quote-free ones are equal |
| `TreeRoundTrip.TokenInputInjective` | crates/vs-daemon/src/tokens.rs:16-29 | for clean trees without double quotes, and no NUL in printed tree or address, the hashed pre-image determines tree, address and page |
| `TreeRoundTrip.ArgsInputInjective` | crates/vs-daemon/src/tokens.rs:34-43 | two NUL-free requests share an idempotency pre-image only when they are the same request |
| `TreeRoundTrip.FeedArgs` | crates/vs-daemon/src/tokens.rs:34-43 | the hasher is fed the primitive and every argument, each NUL-terminated |
| `TreeIteration.TreeIter.Next` | crates/vs-protocol/src/tree.rs:283-292 | the iterator yields the nodes in pre-order, one by one, and ends when all are visited |
| `TreeIteration.AllRefsVisited` | crates/vs-protocol/src/tree.rs:267-292 | it meets exactly the refs of the tree |
| `Requests.EncodeRequest` | crates/vs-protocol/src/request.rs:64-81 | the request line: primitive, quoted and escaped arguments, flags in key order, one newline |
| `Requests.ParseRequest` | crates/vs-protocol/src/request.rs:84-130 | the parser accepts, or refuses with the same error, what its trimmed tokens prescribe |
| `Requests.EscapeWire` | crates/vs-protocol/src/request.rs:149-165 | the fast path and the loop both give the escaped text |
| `Requests.UnescapeWire` | crates/vs-protocol/src/request.rs:170-195 | every pair is replaced, unknown pairs and a dangling backslash are kept |
| `Requests.SplitRaw` | crates/vs-protocol/src/request.rs:219-249 | the splitter breaks at blanks outside quotes and never after a backslash |
| `RequestRoundTrip.UnescapeInvertsEscape` | crates/vs-protocol/src/request.rs:149-195 | unescaping undoes escaping, for every text |
| `RequestRoundTrip.ArgRead` | crates/vs-protocol/src/request.rs:203-249 | a printed argument is one token on one line and reads back as the argument, for every argument |
| `RequestRoundTrip.RequestRoundTrip` | crates/vs-protocol/src/request.rs:64-130 | with clean flag names, parsing the printed line gives the request if and only if its primitive is valid, no space-free argument starts with two dashes, and the last argument or flag value, when printed bare, does not end in white space other than tab and line breaks |
| `RequestRoundTrip.EncodeIsOneLine` | crates/vs-protocol/src/request.rs:56-62 | the line holds one newline, at its end, and no carriage return, whatever arguments and flag values hold |
| `RequestRoundTrip.EncodeInjective` | crates/vs-protocol/src/request.rs:64-81 | two such requests never share a line |
| `Envelopes.ParseStateToken` | crates/vs-protocol/src/envelope.rs:45-63 | the byte array is filled from sixteen lower-case hexadecimal digits, anything else is refused |
| `Envelopes.EncodeResponseHead` | crates/vs-protocol/src/envelope.rs:205-212 | warnings one a line, then the envelope |
| `Envelopes.ParseResponseHead` | crates/vs-protocol/src/envelope.rs:216-236 | blank lines are skipped, warnings collected, and the first envelope or bad line decides |
| `ResponseFraming.TokenText` | crates/vs-protocol/src/envelope.rs:36-63 | a text parses to a token if and only if it is that token printed |
| `ResponseFraming.WarningRead` | crates/vs-protocol/src/envelope.rs:88-116 | a printed warning parses to its code and its arguments without the empty ones, quotes softened |
| `ResponseFraming.EnvelopeRead` | crates/vs-protocol/src/envelope.rs:129-168 | the same for an envelope; a success keeps its token |
| `ResponseFraming.HeadRoundTrip` | crates/vs-protocol/src/envelope.rs:205-236 | a head is recovered from the front of any text |
| `Clients.RenderWire` | crates/vs-cli/src/client.rs:149-157 | head, body lines and the blank line that ends a response |
| `Clients.Connection.Receive` | crates/vs-cli/src/client.rs:60-112 | the read loop leaves the connection holding exactly what follows the response it returns |
| `ResponseFraming.ResponseRoundTrip` | crates/vs-cli/src/client.rs:69-157 | one-line arguments and non-empty body lines, whatever they start with, are recovered from the wire and nothing after the response is read |
| `ResponseFraming.ResponseRoundTripExact` | crates/vs-cli/src/client.rs:69-157 | it is the very same response if and only if no argument is empty or holds a double quote |
| `ResponseFraming.AnyBodyRead` | crates/vs-cli/src/client.rs:69-112 | after a one-line head and any body of terminated lines, the reader returns the lines up to the first empty one and leaves exactly what follows the response if and only if no line of the body is empty |
| `ResponseFraming.ResponsesInSequence` | crates/vs-cli/src/client.rs:69-112 | any number of responses back to back are read one by one |
| `PageStates.PageState.constructor` | crates/vs-daemon/src/page_state.rs:66-78 | a resurrected page: no tree, no token, next view full |
| `PageStates.PageState.Open` | crates/vs-daemon/src/daemon/lifecycle.rs:135-147 | a freshly opened page: baseline and token of its first snapshot, next view full |
| `PageStates.PageState.ApplySnapshot` | crates/vs-daemon/src/page_state.rs:87-114 | no change, a full tree or a delta, and the new baseline with the refs seen on it |
| `PageStates.PageState.View` | crates/vs-daemon/src/daemon/page_ops.rs:32-44 | a view, possibly forced full |
| `PageStates.PageState.Navigate` | crates/vs-daemon/src/daemon/lifecycle.rs:190-206 | a new address with its own baseline, token and refs, next view full |
| `PageStates.PageState.Resized` | crates/vs-daemon/src/daemon/engine_ops.rs:255-269 | the baseline moves and the next view is still full |
| `MirrorSync.RunStaysInSync` | crates/vs-daemon/src/page_state.rs:81-114 | over every run whose events meet their conditions, the next view is full or the agent holds exactly the baseline, and the token is the token of baseline, address and page |
| `MirrorSync.EveryRunStaysInSync` | crates/vs-daemon/src/page_state.rs:66-78 | so every run of a page that starts out opened on a tree or resurrected stays in step, whatever its agent held before |
| `MirrorSync.StepExact` | crates/vs-daemon/src/page_state.rs:87-114 | the condition is exact for any well-formed snapshot: from a page in step, an event keeps it so if and only if it meets it; for a delta, that nothing goes wrong on the way and the moves land |
| `MirrorSync.SentShowsEngine` | crates/vs-daemon/src/page_state.rs:87-114 | after a sent snapshot the agent holds a tree that prints exactly as the engine does, even when it was told nothing changed |
| `MirrorSync.FullViewRepairs` | crates/vs-daemon/src/daemon/page_ops.rs:40-43 | a forced view brings any mirror back in step |
| `MirrorSync.WaitLosesSync` | crates/vs-daemon/src/daemon/page_ops.rs:242-320 | a wait that sees a change drops the form and leaves the agent behind; the next view then reports no change |
| `MirrorSync.WaitCancelsFullView` | crates/vs-daemon/src/daemon/page_ops.rs:264-325 | a wait after a navigation also cancels the full view that was due |
| `ActProtocol.Act` | crates/vs-daemon/src/daemon/page_ops.rs:117-203 | the locked part of an act: stale token, cached answer, engine failure, or a new baseline |
| `ActProtocol.EngineSeesNamedToken` | crates/vs-daemon/src/daemon/page_ops.rs:117-197 | over every interleaving of acts with views, waits, navigations, resizes, reaping, removal and time: no act comes between the check of a call and its engine step, and the engine is reached with the token named if and only if the last outside move in between, if there was one, left that token |
| `ActProtocol.EngineSeesCurrentToken` | crates/vs-daemon/src/daemon/page_ops.rs:117-197 | so in every run without outside moves the engine is reached only with the token named |
| `ActProtocol.MovedUnderAct` | crates/vs-daemon/src/daemon/lifecycle.rs:190-206 | a navigation takes no page lock: a run in which the engine acts on a page whose token is not the one named |
| `ActProtocol.ActsAreAtomic` | crates/vs-daemon/src/daemon/page_ops.rs:100-205 | linearizability: every interleaved run has the effect of its acts and moves one at a time; every answer but a failure stands in that history, once; and it is the answer, and the effect, of the undisturbed act at that place if and only if the call was refused or no outside move since its check left another token |
| `ActProtocol.RealTimeOrder` | crates/vs-daemon/src/daemon/page_ops.rs:122-123 | a call that returned before another began comes first in that history |
| `ActProtocol.ActsChain` | crates/vs-daemon/src/daemon/page_ops.rs:117-197 | over every run each successful act names the token that the last act or outside move before its check left, no act comes between its check and its place, and the page has the token the last of all left |
| `ActProtocol.NextInChain` | crates/vs-daemon/src/daemon/page_ops.rs:117-197 | of two successive acts without an outside move between them, the second names the token of the first |
| `ActProtocol.HandedIsCurrent` | docs/PROTOCOL.md:274-279 | over every run, and whatever rows the store held before it, the token handed out by an act or a refusal is the token of the page at that place; a replayed one is if and only if the act it comes from, of this run or told by an old row, left the token the page shows by then, which without outside moves in between means that the act left the token it named |
| `ActProtocol.RepeatExact` | docs/PROTOCOL.md:200-202 | over every run, each call is refused if and only if it finds another token than it names; otherwise it replays if and only if the row of an equal success no older than 30 seconds is there, one the store held before the run or one written by a call that has returned; otherwise it acts |
| `ActProtocol.ReplayHasSource` | crates/vs-daemon/src/daemon/page_ops.rs:132-157 | every replayed token is that of an earlier successful act of another call with the same token and arguments, or of an old row with them, within the limit and with no more recent row to be had |
| `ActProtocol.ReturnedThenReplayed` | docs/PROTOCOL.md:200-202 | a call begun after an equal one has returned its success, and deciding within the limit, never acts again: it replays if and only if it finds the token it names, and is refused otherwise |
| `ActProtocol.RepeatedBeforeAudit` | crates/vs-daemon/src/daemon/mod.rs:159-168 | the audit row is written after the lock is released: a second caller with the same request can reach the engine again in between |
| `ActProtocol.CachedTokenNotCurrent` | crates/vs-daemon/src/daemon/page_ops.rs:141-157 | a page that leaves a state and returns to it answers the repeated act with a token that is not its own |
| `EngineHandles.SessionMap.Install` | crates/vs-daemon/src/daemon/mod.rs:268-284 | the first handle stored is kept, a later one loses, a missing page stores nothing |
| `EngineHandles.SessionMap.TakeHandle` | crates/vs-daemon/src/daemon/reaper.rs:165-179 | reaping leaves the page dormant and hands out its handle |
| `EngineHandles.SessionMap.RemovePage` | crates/vs-daemon/src/daemon/lifecycle.rs:226-236 | closing a page removes it and hands out its handle |
| `EngineHandles.SessionMap.RemoveSession` | crates/vs-daemon/src/daemon/lifecycle.rs:52-61 | closing a session removes exactly its pages and hands out exactly their handles |
| `EngineHandles.QuietEngine` | crates/vs-daemon/src/daemon/mod.rs:245-286 | over every interleaving, once all calls and closes are done the engine holds exactly the stored handles if and only if nothing leaked |
| `EngineHandles.HandlesAccountedFor` | crates/vs-daemon/src/daemon/mod.rs:245-286 | over every interleaving each live engine page has exactly one owner: a page of the map, a call in flight, a pending close, or the leaked ones; nothing leaks if and only if no call fails after opening, its page or session gone or its first snapshot or row refused |
| `EngineHandles.LoserCloses` | crates/vs-daemon/src/daemon/mod.rs:276-281 | a race loser hands out the stored handle, closes its own and leaves the winner's alive |
| `EngineHandles.CloseDuringReopen` | crates/vs-daemon/src/daemon/mod.rs:268-275 | closing a dormant page while it is being reopened leaves an engine page without owner |
| `Reaper.Plan` | crates/vs-daemon/src/daemon/reaper.rs:89-114 | the nested loops compute the plan |
| `Reaper.PlanMeans` | crates/vs-daemon/src/daemon/reaper.rs:87-114 | exactly the expired sessions are closed, and exactly the idle live pages of the others go dormant |
| `Reaper.ExpiredMeans` | crates/vs-daemon/src/daemon/reaper.rs:95-108 | a session expires if and only if neither it nor any of its pages was touched within its time |
| `Reaper.BusyPagesStay` | crates/vs-daemon/src/daemon/reaper.rs:95-112 | the plan names neither a page touched within both windows nor its session |
| `ReaperRuns.TakenWasIdle` | crates/vs-daemon/src/daemon/reaper.rs:139-179 | over every interleaving of sweeps with opens, touches, reopens and closes, a page that a sweep takes was live and untouched for the whole window when the sweep planned |
| `ReaperRuns.TakenInUse` | crates/vs-daemon/src/daemon/reaper.rs:139-179 | and it is in use when it is taken if and only if a touch of it lies between plan and turn, no longer before its turn than the window |
| `ReaperRuns.ClosedWasExpired` | crates/vs-daemon/src/daemon/reaper.rs:139-187 | a session that a sweep closes was expired when the sweep planned, it and every page it had |
| `ReaperRuns.ClosedInUse` | crates/vs-daemon/src/daemon/reaper.rs:139-187 | and it is in use when it is closed if and only if a touch in it, or the opening of a page it has, lies between plan and turn, no longer before its turn than its time |
| `ReaperRuns.TouchedUnderSweep` | crates/vs-daemon/src/daemon/reaper.rs:155-180 | an instance: a page touched after the plan loses its engine page although it has just been touched |
| `EngineRuntime.Queue.Drain` | crates/vs-cli/src/serve.rs:409-418 | one drain runs everything queued, in order, and reports a closed queue only when it is empty |
| `EngineRuntime.NoLostWakeup` | crates/vs-engine-webkit/src/runtime.rs:187-193 | without any timer, a sleeping host with queued jobs has a wake signal pending or each job still has its caller between sending and waking |
| `EngineRuntime.NobodyWaitsOnSleeper` | crates/vs-engine-webkit/src/runtime.rs:187-194 | so no caller that has woken the host waits on a host that sleeps for good |
| `EngineRuntime.JobsInOrderOwnAnswers` | crates/vs-engine-webkit/src/runtime.rs:167-194 | jobs run at most once, in sending order, and a caller gets the result of its own job, or closed, or crashed when the host is gone without running it |
| `EngineRuntime.SignalledHostDrains` | crates/vs-cli/src/serve.rs:401-437 | a signalled host on its own runs every queued job |
| `EngineRuntime.ShutdownDoesNotWake` | crates/vs-engine-webkit/src/runtime.rs:160-165 | shutting down sets no signal: from every reachable state, the host can still come to its end after a shutdown if and only if a signal is pending or it is neither asleep nor about to sleep |
| `PendingQueues.PendingQueue.Enqueue` | crates/vs-daemon/src/daemon/pending.rs:127-131 | expired entries go, the new one waits |
| `PendingQueues.PendingQueue.Fulfill` | crates/vs-daemon/src/daemon/pending.rs:297-307 | only a pending entry takes a value, and nothing else changes |
| `PendingQueues.PendingQueue.Cancel` | crates/vs-daemon/src/daemon/pending.rs:310-320 | only a pending entry is cancelled |
| `PendingQueues.PendingQueue.WaitFormPass` | crates/vs-daemon/src/daemon/pending.rs:205-238 | one pass: a cancelled form is purged, a complete one collected in field order, an open or unknown one left alone |
| `PendingQueues.PendingQueue.Supersede` | crates/vs-daemon/src/daemon/pending.rs:149-188 | exactly the untouched forms whose sorted fields are the ask are cancelled |
| `PendingQueues.PendingQueue.Restore` | crates/vs-daemon/src/daemon/pending.rs:265-271 | the entries come back fulfilled with their values |
| `PendingQueues.PendingQueue.List` | crates/vs-daemon/src/daemon/pending.rs:282-294 | expired entries go, and the pending ones are listed once each, by form, place and id |
| `PendingQueues.ListingsAgree` | crates/vs-daemon/src/daemon/pending.rs:172-174 | sorting a form by place and ref gives one field list, whatever order the map yields |
| `QueueLedger.NothingTypedVanishes` | crates/vs-daemon/src/daemon/pending.rs:127-320 | over every interleaving each value the human typed is in the queue as typed, held by a caller that collected it, collected by its own waiter, or lost with a cancelled form, past its time or given up; and no entry is delivered twice unless the earlier delivery was handed back |
| `QueueLedger.FulfilledLeavesOnly` | crates/vs-daemon/src/daemon/pending.rs:127-320 | a fulfilled entry keeps its value at every step and leaves only with its own form, past its time, or by its own waiter |
| `QueueLedger.RestoreInvertsCollection` | crates/vs-daemon/src/daemon/pending.rs:253-271 | handing back what a wait collected restores the queue exactly |
| `QueueLedger.RestoredIsCollectable` | crates/vs-daemon/src/daemon/pending.rs:253-264 | and the next wait collects the same list in the same order |
| `QueueLedger.IdleWaitChangesNothing` | crates/vs-daemon/src/daemon/pending.rs:190-200 | a wait that times out or finds nothing leaves the queue as it was |
| `QueueLedger.SupersedeExact` | crates/vs-daemon/src/daemon/pending.rs:133-188 | with one page a form, an entry is cancelled if and only if its form is on that page, wholly pending, and asks for the same refs in field order; every other entry is unchanged |
| `PromptForms.PromptFormWait` | crates/vs-daemon/src/daemon/mod.rs:831-923 | every value goes to one act in field order, the first on the present token and each later one on the token returned before; if any act fails the queue ends exactly as before the wait |
| `PromptForms.ValuesReachEngine` | crates/vs-daemon/src/daemon/mod.rs:899-909 | all values reach the engine if and only if no fill looks while a row is young enough that started at its token, be it an older row or that of an earlier fill of the form: the fields share one argument text |
| `PromptForms.SecondValueSwallowed` | crates/vs-daemon/src/daemon/mod.rs:899-909 | a fill that leaves the token as it was swallows the next field's value, and the form still counts as filled |
| `WebEntries.WebEntry.MintScoped` | crates/vs-daemon/src/daemon/webentry.rs:130-145 | expired nonces go, the new one is live for its form |
| `WebEntries.WebEntry.NonceStateOf` | crates/vs-daemon/src/daemon/webentry.rs:185-201 | live, spent or gone, and what a look leaves behind |
| `WebEntries.WebEntry.Submit` | crates/vs-daemon/src/daemon/webentry.rs:346-362 | pending entries the link covers take the submitted values, a cancel field cancels instead, and the number returned is that of the entries changed |
| `WebEntries.WebEntry.CancelScope` | crates/vs-daemon/src/daemon/webentry.rs:392-416 | exactly the pending entries the link covers are cancelled, and their number is returned |
| `WebEntries.WebEntry.Post` | crates/vs-daemon/src/daemon/webentry.rs:246-256 | the nonce is spent before the form acts, and a dead link touches nothing |
| `WebEntries.OpensAtMostOnce` | crates/vs-daemon/src/daemon/webentry.rs:180-201 | over every run a nonce lets at most one submission through, always for the form it was minted for |
| `WebEntries.StateAdvancesOverRuns` | crates/vs-daemon/src/daemon/webentry.rs:180-201 | over every run a minted nonce only goes from live to spent to gone |
| `WebEntries.ReadingKeepsTheLink` | crates/vs-daemon/src/daemon/webentry.rs:180-184 | a link opened any number of times is still live |
| `WebEntries.PostStaysInScope` | crates/vs-daemon/src/daemon/webentry.rs:340-345 | a submission through a form link changes only pending entries of that form, to what was submitted for them or to cancelled; a cancel also drops entries past their time |
| `Redaction.RedactString` | crates/vs-daemon/src/redact.rs:46-89 | the scanner ends and produces the redacted text |
| `Redaction.RedactedIsMasked` | crates/vs-daemon/src/redact.rs:42-45 | in the output every keyword is followed by nothing or the mask, up to the next delimiter or the end |
| `Redaction.UnchangedIffMasked` | crates/vs-daemon/src/redact.rs:46-89 | a text is left as it is if and only if nothing in it needs masking |
| `Redaction.RedactIdempotent` | crates/vs-daemon/src/redact.rs:46-89 | redacting twice is redacting once |
| `Redaction.KeywordFreeUnchanged` | crates/vs-daemon/src/redact.rs:46-89 | text without a keyword in any letter case is returned unchanged |
| `KeyTexts.Base64Url` | crates/vs-daemon/src/daemon/webentry.rs:430-444 | the chunk loop prints the bytes six bits at a time |
| `KeyTexts.DecodeBase64Key` | crates/vs-store/src/auth.rs:207-238 | the reader, whose accumulator drops its high bits, refuses or decodes exactly as an unbounded one would |
| `KeyTexts.ReadSextets` | crates/vs-store/src/auth.rs:223-236 | all thirty-two writes are in range |
| `KeyTexts.KeyRoundTrip` | crates/vs-store/src/auth.rs:203-238 | a 32-byte key prints as 43 characters and reads back, with or without padding |
| `KeyTexts.KeyTextsExactly` | crates/vs-store/src/auth.rs:207-238 | a text is read as a key if and only if it is the key's own up to padding and the two unused bits of its last character |
| `TomlSections.ApplyToml` | crates/vs-cli/src/skill_install.rs:303-344 | the flag-driven line loop rewrites the text section by section and reports whether it changed |
| `TomlSections.RenderSection` | crates/vs-cli/src/skill_install.rs:346-363 | header, command and, when there are any, arguments |
| `TomlSections.OutsideKept` | crates/vs-cli/src/skill_install.rs:309-336 | every line outside the target section survives in order; a missing section is preceded by one blank line |
| `TomlSections.InsideRendered` | crates/vs-cli/src/skill_install.rs:312-326 | every target section reads exactly as rendered |
| `TomlSections.AddedOnce` | crates/vs-cli/src/skill_install.rs:329-337 | a section that was missing is there once |
| `TomlSections.ApplyTwice` | crates/vs-cli/src/skill_install.rs:303-344 | a second application changes nothing if and only if no surviving line still ends in a carriage return |
| `TomlSections.ApplyTwiceClean` | crates/vs-cli/src/skill_install.rs:303-344 | so one application is enough on every text without carriage returns |
| `Resampling.Resample` | crates/vs-daemon/src/daemon/record.rs:253-301 | every tick shows the latest capture at or before it, decoded correctly despite the cache, with its cursor, and the number of frames is the last capture time over the step, rounded up, plus one |
| `Resampling.PlaybackKeepsTime` | crates/vs-daemon/src/daemon/record.rs:256-256 | playback keeps time with the recording if and only if the frame rate divides a second |
| `DeltaWire.EncodeStream` | crates/vs-protocol/src/delta/mod.rs:74-80 | the printed delta: the lines of its operations, in order |
| `DeltaWire.EncodeOne` | crates/vs-protocol/src/delta/mod.rs:82-163 | one operation: sigil and fields on one line, a replaced subtree indented below it |
| `DeltaWire.ParseStream` | crates/vs-protocol/src/delta/mod.rs:166-219 | the parser accepts, or refuses with the same error and line number, what its lines prescribe; a replace line takes the indented lines below it along |
| `DeltaWire.ParseAddLine` | crates/vs-protocol/src/delta/mod.rs:221-252 | place, role, label and fields of an added node; an empty operation name is a bad attribute here |
| `DeltaWire.ParseReplaceBlock` | crates/vs-protocol/src/delta/mod.rs:298-343 | the lines up to the next one at the margin, blank ones dropped, one indent taken off, parsed as a tree |
| `DeltaRoundTrip.PlaceRead` | crates/vs-protocol/src/delta/mod.rs:345-364 | a printed place reads back as ref, parent and optional position |
| `DeltaRoundTrip.DedentedForest` | crates/vs-protocol/src/delta/mod.rs:140-163 | taking one indent off a subtree printed below its operation gives the lines of the tree printed on its own |
| `DeltaRoundTrip.OpRead` | crates/vs-protocol/src/delta/mod.rs:82-343 | one printed operation, whatever operation follows it, reads back and takes exactly its own lines |
| `DeltaRoundTrip.DeltaRoundTrip` | crates/vs-protocol/src/delta/mod.rs:72-219 | a delta with clean keys, no line break in a text and no line ending in a carriage return parses if and only if no replacement is empty, and then reads back with double quotes softened and nothing else changed |
| `DeltaBreaks.DeltaReadsBack` | crates/vs-protocol/src/delta/mod.rs:72-219 | for any delta with clean keys and no line ending in a carriage return: it reads back so if and only if no replacement is empty and no text in it holds a line break |
| `DeltaBreaks.ApplyUnbroken` | crates/vs-protocol/src/delta/apply.rs:9-71 | a patch without line breaks in its texts puts none into a forest without them |
| `SoftPatches.SoftOp` | crates/vs-protocol/src/delta/apply.rs:17-71 | an operation with its quotes softened does to a softened forest what it does to the forest, errors included |
| `SoftPatches.SoftApplyAll` | crates/vs-protocol/src/delta/apply.rs:9-15 | applying a whole delta commutes with softening quotes, failing at the same operation with the same error |
| `SoftPatches.DiffPrintable` | crates/vs-protocol/src/delta/diff.rs:22-92 | every delta to a clean tree has a printed form that reads back |
| `SoftPatches.SoftDeltaIsExact` | crates/vs-protocol/src/delta/diff.rs:3-15 | the delta law on what is printed, for any two well-formed trees: the softened patch gives the softened second tree if and only if nothing goes wrong on the way and the moves land, quotes never hiding a node in the wrong place |
| `TextMirror.EncodeBody` | crates/vs-daemon/src/server/page_ops.rs:52-56 | the body of a reply: a whole tree, a delta, or nothing |
| `TextMirror.DeltaNeverEmpty` | crates/vs-daemon/src/page_state.rs:87-114 | a patch is never empty, so an empty body never stands for one |
| `TextMirror.TextStepExact` | crates/vs-daemon/src/server/page_ops.rs:52-56 | an agent that reads only bodies, told apart by their first character, stays in step through an event if and only if the patch lands, or the whole tree is not empty and no line of it ends in a carriage return, and no label or value sent holds a line break |
| `TextMirror.NeverBroken` | crates/vs-protocol/src/tree.rs:118-130 | whatever an agent holds and is sent, it never comes to hold a tree with a line break in a text |
| `TextMirror.TextRunStaysInSync` | crates/vs-daemon/src/page_state.rs:81-114 | over every run of events that keep the agent in step, it holds the baseline as printed, or the next view is full |
| `TextMirror.EveryTextRunStaysInSync` | crates/vs-daemon/src/page_state.rs:66-78 | so does every such run of a page that starts out opened on a tree or resurrected, whatever tree without line breaks the agent held before |
| `TextMirror.EmptyPageLooksUnchanged` | crates/vs-daemon/src/server/page_ops.rs:52-56 | the empty tree sent in full and the answer that nothing changed are the same body |
| `TextMirror.WireDelivers` | crates/vs-cli/src/client.rs:60-112 | the whole way: the head of a reply carrying any well-formed snapshot is read off the connection with its token intact, exactly what follows the reply stays on it if and only if the body has no empty line, and the body puts the agent in step if and only if it lands, in which case nothing after it is touched |
| `TextMirror.BrokenLabelCutsReply` | crates/vs-cli/src/client.rs:69-112 | an instance: a label with an empty line in it cuts the reply short, and the rest of it is what the next read finds and refuses |
| `ActProtocol.RepeatByRows` | crates/vs-store/src/store/actions.rs:44-66 | the same in the terms of the rows alone, stored ones included: a decision reuses a row if and only if it found the token it names and one of the rows it saw has that token and the arguments, is no error and no replay, and is at most 30 seconds old; and the row it reuses is such a row, none of them newer |
| `ActProtocol.ReplayedToken` | crates/vs-daemon/src/daemon/page_ops.rs:141-157 | a replayed answer is the token the reused row tells of, or the zero token if it tells of none |
| `ActProtocol.MovesAreEvents` | crates/vs-daemon/src/page_state.rs:81-114 | what acts, views, viewport changes, navigations and the reaper do to a page here is what the events of its mirror do to it |
| `ActProtocol.RemovedPageFails` | crates/vs-daemon/src/daemon/page_ops.rs:122-190 | once a page is removed, a call that has not passed its check or begins later never reaches the engine and gets nothing but a failure |
| `EngineHandles.HandedIsThePages` | crates/vs-daemon/src/daemon/mod.rs:245-286 | over every interleaving, whenever a call comes to its handle it is that of the page it asked for, stored there now and open in the engine; a race loser comes to the handle it lost to |
| `EngineHandles.LosesToThePages` | crates/vs-daemon/src/daemon/mod.rs:276-281 | and that was, when it lost, the handle stored for its page, open in the engine and not its own |
| `EngineHandles.RefusedExactly` | crates/vs-daemon/src/daemon/mod.rs:250-275 | a call is refused if and only if its page is not in the map, the engine opens none for it, or its page or session is gone when it would store the one opened; never on a live page |
| `EngineHandles.PageFate` | crates/vs-daemon/src/daemon/lifecycle.rs:226-236 | a page goes exactly when it or its session is closed, becomes dormant exactly when it is reaped, and takes a handle only from a call that opened one for it; a handle that goes is about to be closed |
| `EngineHandles.DormantReopens` | crates/vs-daemon/src/daemon/mod.rs:265-286 | from every reachable state a dormant page can be reopened, under a handle the engine did not have open before |
| `EngineHandles.NoPageOutlivesSession` | crates/vs-daemon/src/daemon/lifecycle.rs:52-61 | over every interleaving every page of the map is in an open session |
| `EngineRuntime.HostStays` | crates/vs-cli/src/serve.rs:409-418 | over every run the host is gone only after a shutdown or its own death, so without either every answer is the result of a job |
| `EngineRuntime.EveryCallServed` | crates/vs-engine-webkit/src/runtime.rs:167-194 | in every reachable state with the channel open and the host alive, whether it is draining, dozing or asleep and whatever is queued, a caller can get its own result, and the host is still there |
| `QueueLedger.SupersedeByPlaces` | crates/vs-daemon/src/daemon/pending.rs:149-188 | with different places in a form, an entry is cancelled if and only if its form is on the page, wholly pending, and its entries by strictly growing place show exactly the refs asked for |
| `QueueLedger.EnqueueExact` | crates/vs-daemon/src/daemon/pending.rs:127-131 | an entry queued is pending, and of the others exactly those younger than half an hour stay, as they were |
| `QueueLedger.EntryExact` | crates/vs-daemon/src/daemon/pending.rs:297-320 | a value or a cancel takes exactly the entry meant, if it is pending |
| `QueueLedger.WaitExact` | crates/vs-daemon/src/daemon/pending.rs:190-238 | a wait answers cancelled if any field is, else pending if any is, else the values, and unknown for a form without fields; the form leaves the queue exactly when it is cancelled or collected, and nothing else changes |
| `QueueLedger.CollectedExact` | crates/vs-daemon/src/daemon/pending.rs:225-235 | the values collected are those of the fields of the form, each once, by place |
| `QueueLedger.StepTakesHold` | crates/vs-daemon/src/daemon/pending.rs:127-320 | each step does what it is for: queued is pending, entered is there and on record, after a superseding no untouched form asks the same, collected is gone, handed back is there again |
| `QueueLedger.PendingFate` | crates/vs-daemon/src/daemon/pending.rs:127-320 | in any reachable state a pending entry goes exactly past its half hour, with its cancelled form or given up, and changes exactly when it is filled in, cancelled or superseded |
| `QueueLedger.LossesAreReal` | crates/vs-daemon/src/daemon/pending.rs:127-320 | what is on record as lost or collected was in the queue, typed, and is gone in the way recorded |
| `QueueLedger.TypedIsCollected` | crates/vs-daemon/src/daemon/pending.rs:205-238 | in every reachable state a wait for a form all of whose fields were typed in returns exactly what was typed, field by field |
| `PendingQueues.ListedExact` | crates/vs-daemon/src/daemon/pending.rs:282-294 | a listing goes by form in lexicographic order, the entries without a form first, then by place, then by id |
| `PromptForms.FillsPassTheCheck` | crates/vs-daemon/src/daemon/mod.rs:868-897 | on a page left alone the first fill names the token the page has and is not refused, and neither is the next one after a fill that landed; after one answered from the cache it is refused if and only if the cached token is not the one named |
| `WebEntries.LinkExact` | crates/vs-daemon/src/daemon/webentry.rs:130-201 | over every run a link is gone from 10 minutes after its minting on, spent from the first POST in that time on, and live for its form until then |
| `WebEntries.LookExact` | crates/vs-daemon/src/daemon/webentry.rs:180-201 | so a request for a link is answered, from the run alone, live in exactly that time and always for the form it was minted for |
| `WebEntries.PostExact` | crates/vs-daemon/src/daemon/webentry.rs:346-416 | entry by entry: a cancel field drops what is past its half hour and cancels what is pending and covered; otherwise the first value submitted for a pending covered entry goes to it, and everything else stays as it was |
| `Reaper.PlanExact` | crates/vs-daemon/src/daemon/reaper.rs:87-114 | from the times alone: a session is closed if and only if it and all its pages were last touched its whole time ago, and a page goes dormant if and only if it is live, was touched its whole window ago, and its session stays |
| `ReaperRuns.PageFate` | crates/vs-daemon/src/daemon/reaper.rs:139-187 | over every interleaving a page leaves the map exactly when a call closes it or its session, or a sweep the session, and loses its engine page exactly when a sweep takes it; both are on the log of the sweep |
| `ReaperRuns.WholeSweep` | crates/vs-daemon/src/daemon/reaper.rs:139-187 | from every reachable state a sweep that nothing comes between closes exactly the sessions unused for their time, takes the engine pages of exactly the live pages unused for their window, and leaves everything else alone |
| `MirrorSync.StepLeaves` | crates/vs-daemon/src/page_state.rs:87-114 | an event that brings a tree leaves a baseline that prints as that tree, under its token; only a navigation changes the address, an invalidation changes nothing but the next form, and a refused call nothing |
| `MirrorSync.FullIsDue` | crates/vs-daemon/src/daemon/lifecycle.rs:190-206 | after a navigation, a viewport change or an invalidation the next tree is sent whole, whatever it is |
| `MirrorSync.SeenKept` | crates/vs-daemon/src/page_state.rs:103-108 | a tree that moves the baseline adds its refs to those seen and no others, and only a navigation forgets any |
| `MirrorSync.SeenOverRuns` | crates/vs-daemon/src/page_state.rs:103-108 | over every run the refs of the baseline count as seen, and without a navigation none is forgotten |
| `PatchOps.RefusedExactly` | crates/vs-protocol/src/delta/apply.rs:17-71 | on any forest and for any operation: when it is refused, and with which error, told from the refs of the forest |
| `PatchOps.AddLands` | crates/vs-protocol/src/delta/apply.rs:165-178 | an addition puts a new leaf among the children of its parent at its position, or last when it has none or a larger one, and changes nothing else |
| `PatchOps.MoveLands` | crates/vs-protocol/src/delta/apply.rs:51-54 | a move within a list likewise puts the node in front of the one at its position among the others, or last |
| `DeltaFrames.RemoveHere` | crates/vs-protocol/src/delta/apply.rs:19-22 | a removal takes exactly the node meant, anywhere in a forest, when no search meets its ref before |
| `DeltaFrames.UpdateHere` | crates/vs-protocol/src/delta/apply.rs:46-50 | an update sets the attributes of exactly that node |
| `DeltaFrames.ReplaceHere` | crates/vs-protocol/src/delta/apply.rs:55-71 | a replacement puts the new subtree exactly where the old one was |
| `Refusals.TreeRefusedExactly` | crates/vs-protocol/src/tree.rs:118-130 | whatever the text, it is read as a tree if and only if every line is blank or holds a 32-bit ref, a role code, a label and fields; otherwise the first line that does not decides the error |
| `Refusals.LineErrorExact` | crates/vs-protocol/src/tree.rs:210-257 | the error of a line: what is missing first, else what is wrong first |
| `Refusals.DeltaRefusedExactly` | crates/vs-protocol/src/delta/mod.rs:166-343 | whatever the text, it is read as a delta if and only if it consists of operations with a known sigil at the margin, refs and places made of numbers, known codes, named attributes, and a tree below a replacement |
| `RequestRoundTrip.RefusedExactly` | crates/vs-protocol/src/request.rs:84-130 | whatever the line, it is refused if and only if nothing is left of it, its first token is not made of lower-case letters, digits and underscores, or a later one is two dashes without a name |
| `RequestRoundTrip.UnknownPairKept` | crates/vs-protocol/src/request.rs:170-195 | an unknown escape and a dangling backslash are kept as they are |
| `Redaction.KeywordExact` | crates/vs-daemon/src/redact.rs:47-72 | a keyword is the first of the six that the text begins with, in any letter case |
| `Redaction.RedactedExact` | crates/vs-daemon/src/redact.rs:66-89 | three stars stand for whatever lies between a keyword and the next quote, semicolon, line break or closing bracket, or the end |
| `KeyTexts.AlphabetsDiffer` | crates/vs-daemon/src/daemon/webentry.rs:430-431 | the alphabet safe in addresses and the standard one differ in the last two characters only |
| `Resampling.RateKept` | crates/vs-daemon/src/daemon/record.rs:69-69 | a rate of 1 to 30 is kept, and the step between frames is its part of a second, the fraction dropped |
| `TomlSections.SectionSays` | crates/vs-cli/src/skill_install.rs:346-363 | a section has the header of the server, its command, and its arguments when there are any, each text reading back as itself |
| `TomlSections.HeaderExact` | crates/vs-cli/src/skill_install.rs:309-316 | a line is a header to be replaced if and only if it is that header with nothing but white space around it |
| `EngineHandles.CallFinds` | crates/vs-daemon/src/daemon/mod.rs:252-265 | a call on a live page has the handle stored for it at once, one on a dormant page goes on to open an engine page; a session is open from its opening to its closing |
| `EngineRuntime.IdleHostSleeps` | crates/vs-cli/src/serve.rs:409-437 | with nothing queued and the channel open, the host on its own comes to sleep with no signal pending in at most four steps |
| `Codes.ControlRolesRead` | crates/vs-protocol/src/codes.rs:77-87 | what the role words of the wire stand for, word by word |
| `Codes.TextRolesRead` | crates/vs-protocol/src/codes.rs:87-94 | likewise |
| `Codes.PartRolesRead` | crates/vs-protocol/src/codes.rs:94-99 | likewise |
| `Codes.OtherRolesRead` | crates/vs-protocol/src/codes.rs:99-110 | likewise |
| `Codes.OpsRead` | crates/vs-protocol/src/codes.rs:115-123 | likewise for operations |
| `Codes.ErrorsRead` | crates/vs-protocol/src/codes.rs:128-142 | likewise for errors |
| `Codes.WarningsRead` | crates/vs-protocol/src/codes.rs:147-157 | likewise for warnings |
| `Refusals.HeadRefusedExactly` | crates/vs-protocol/src/envelope.rs:216-236 | whatever the text, a head is read off it if and only if a line is an envelope and the ones before it are blank or warnings; a line with none of the three signs in front decides the error |
| `Refusals.ClientRefusesExactly` | crates/vs-cli/src/client.rs:69-112 | line by line: before the envelope the client refuses anything but a blank line, a warning and an envelope, and after it nothing; no text is lost with the newline, and the last line of a stream may go without |
| `Text.SpacesAre` | crates/vs-protocol/src/tokenize.rs:38-63 | which characters are white space, and which part tokens, code point by code point |
| `PatchOps.RemoveNothing` | crates/vs-protocol/src/delta/apply.rs:19-22 | a removal for a ref that is not there changes nothing |
| `WebEntries.UnknownIsGone` | crates/vs-daemon/src/daemon/webentry.rs:185-201 | a nonce never minted is gone |
| `Text.NewlinesDropped` | crates/vs-protocol/src/request.rs:85-85 | all newlines at the end of a line go, and nothing else |
| `Refusals.OpErrorExact` | crates/vs-protocol/src/delta/mod.rs:172-219 | the error of an operation where something is missing or out of place |
| `Refusals.IndentedExact` | crates/vs-protocol/src/delta/mod.rs:298-343 | the lines that belong to a replacement are all below it that are blank or indented, up to the first other one |
| `WebEntries.LinksKept` | crates/vs-daemon/src/daemon/webentry.rs:130-201 | a minting keeps exactly the links whose time is not up, a look drops the one looked at once its time is up, and neither touches any other |
| `ActProgress.EveryCallReturns` | crates/vs-daemon/src/daemon/page_ops.rs:117-203 | from every state a run reaches, and whichever way the engine and the store decide, every call can come to its return by its own steps and those of the call that has the lock |
| `ActProgress.FailedExactly` | crates/vs-daemon/src/daemon/page_ops.rs:117-203 | on a page nobody removes, a call answers a failure if and only if one of its own steps failed: the handle, the engine, the store or the audit row |
| `ActProgress.FailureChangesNothing` | crates/vs-daemon/src/daemon/page_ops.rs:176-197 | a step that fails leaves page, history and rows as they are, so an act whose token the store would not take stands although its caller is told that it failed |
| `ActProgress.ClockAndPresence` | crates/vs-daemon/src/daemon/page_ops.rs:131-139 | over every run, nothing but the clock takes time, and the page is there if and only if nobody has removed it |
| `ActProgress.StampedByTheClock` | crates/vs-daemon/src/daemon/mod.rs:177-196 | the row or decision a step adds to any run has the time the run has come to, and the decision has seen every row written by then |

## Left out

- Platform engines, foreign calls, injected scripts, run loops and window code: the engine is an arbitrary source of trees and errors.
- The store beyond the action rows the idempotency lookup reads: no transactions, no failures other than an unwritten row.
- Encryption, the key ring, sockets, process start, argument parsing, HTML pages and HTTP heads.
- Composite views with a layout or a text section in the same reply: they put two frames in one response.
- The 8-byte truncation of the hash: two states with the same truncated hash are not modelled.
- `Resampling.Resample`: does not model drawing the cursor or encoding the video, a frame is a decoded picture and a cursor value.
- `PendingQueues.PendingQueue.WaitFormPass`: is one look under the lock, parking on the condition variable and the wait budget are the choice when to look again.
- `WebEntries.WebEntry.Submit`: takes decoded pairs, the decoding of the request body is not modelled.
- `EngineRuntime.NoLostWakeup`: the signal is a flag that stays set until the host takes it, as the two platform loops behave.
- `EngineHandles.QuietEngine`: every close reaches the engine and succeeds there; a close the engine refuses, whose error the source drops, is not modelled.
- `PromptForms.ValuesReachEngine`: the fills of one form with arbitrary times; other callers' acts on the page enter through the audit rows it starts with.
- `TextMirror.WireDelivers`: takes snapshots whose printed lines do not end in a carriage return, because the reader drops one before a line break; `LineBreaks.TreeReadsBack` covers them for a whole tree.
- `DeltaBreaks.DeltaReadsBack`: is not exact for printed operations that end in a carriage return.
- `TextMirror.TextStepExact`: where a patch is sent, takes snapshots whose printed lines do not end in a carriage return.
- Live-view nonces, the ring buffers, viewport presets, duration parsing and human-like timing.
- `find`, `read`, `status` and the inspector primitives, which only read.
