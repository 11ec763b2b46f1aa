# torana-edge, verified core

A Dafny model of the parts of torana-edge that carry its hardest promises, with proofs of those
promises. The proxy lets untrusted plugins and foreign wire formats rewrite traffic; the model
covers what it keeps true while they do.

- `StreamDiscipline`, `StreamPipeline`, `StreamEnforcer`: the per-event discipline of a plugin
  stream and the verified pipeline around it, with journals, rollback and chaining of stages.
  Plugin replies are arbitrary functions. `StreamJournal` follows each journal over whole runs;
  `StreamReplies` says what becomes of every reply, and of a pipeline whose plugins behave.
- `StreamPolicy`, `StreamTransaction`: the field policy over message trees and the multiset
  matching of events that judges a finished scope. `StreamProvenance` carries it through the
  pipeline, from the host's input to the final output. `StreamEdits` and `StreamVerdicts` say
  exactly what is accepted, on paths into the messages.
- `JsonText`, `JsonScan`, `JsonSpans`, `JsonEdit`, `JsonLaws`, `JsonSweep`, `JsonSplice`: the
  byte-exact JSON object editor over the grammar of RFC 8259, sections 2 to 7.
- `BridgeJson`, `BridgeCompletion`, `BridgeCounts`, `BridgeChat`, `BridgeItems`,
  `BridgeMessages`, `BridgeGemini`, `BridgeTranslate`, `BridgeUsage`: five response contracts,
  their canonical completion, and usage arithmetic in 64 bits. `BridgeShape` says, as relations
  on JSON members, what a body of each contract says; `BridgeReads` and `BridgeMeaning` prove the
  readers and the translation against it.
- `StreamGuard`, `StreamParse`: the two automata of the bridge's canonical stream.
  `StreamAdmission` says exactly which streams they pass and finish.
- `MessageProjection`: regrouping a conversation for another protocol.
- `LocalCache`, `LocalStore`: the cache with expiry, recency order and bounds.
- `Correlation`, `Correlator`: binding out-of-band tool calls to the response calls that asked
  for them.
- `PinDrain`: pinning and draining a plugin pipeline under arbitrary interleaving.
- `ResponseChain`: rewriting a response through a chain of plugins.

Code that updates state in place is a class or a method with loops, proved equal to a function of
the old state; the laws are proved about the functions. `dafny verify dfyconfig.toml` checks the
whole project.

Where the code and its comments disagree the model follows the code. The comment beside
`setMember` promises that deleting a just-added member restores the original bytes; a value that
ends in whitespace breaks that. The comment on `deleteMembers` says a survivor contributes the
whitespace before its comma; the code drops it. The comment on `CommitFrom` says consumed staged
records are preserved; one that agrees with a held, unspent record is dropped. The comment on the
cache says the context is ignored; the code returns its error first. Each of the first three has
its exact condition and a failing case below. So has the payload family of a tool delta, which the
stream guard checks and the stream parser does not.

## Model

| member | source | states |
|---|---|---|
| StreamDiscipline.WalkerAcceptsExactlyLegal | internal/plugin/stream_enforce.go:131-319 | the incremental walker accepts a trace exactly when a whole-trace specification over positions holds: each block index opened once, non-tool blocks exclusive, deltas inside a matching block of the right family, nothing but usage or an error after MessageStop, nothing after an error |
| StreamDiscipline.CompleteMeans | internal/plugin/stream_enforce.go:309-319 | the end-of-stream check holds exactly when the trace ended in an error or left no block open |
| StreamDiscipline.SignatureHasScope | internal/plugin/stream_enforce.go:152-287 | an accepted signature is never inside a tool or provider block, and a text or thinking scope encloses or precedes it |
| StreamDiscipline.IndexOpenedOnce | internal/plugin/stream_enforce.go:152-287 | in an accepted trace a block index starts at most once |
| StreamDiscipline.DisciplineWalker.Walk | internal/plugin/stream_enforce.go:152-287 | walking one event in place gives exactly the specified next state and verdict, including the partial update of a refused start |
| StreamDiscipline.DisciplineWalker.WalkAll | internal/plugin/stream_enforce.go:677-692 | the loop over a batch stops at the first refusal with the state of the specified fold |
| StreamDiscipline.DisciplineWalker.Clone | internal/plugin/stream_enforce.go:289-307 | a clone is a fresh walker with the same state |
| StreamDiscipline.DisciplineWalker.End | internal/plugin/stream_enforce.go:309-319 | the end check is the specified one and changes nothing |
| StreamPipeline.EveryRunIsSafe | internal/plugin/stream_enforce.go:631-827 | for any plugins, replies and input: with no stream plugin the output is the input unread; with any, what leaves the last stage is always a legal trace, and until the stream terminates every stage invariant holds, each stage is handed exactly what the one before it published, and published plus held output is what it returned |
| StreamPipeline.EndReleasesEverything | internal/plugin/stream_enforce.go:576-629 | when the end is accepted no journal holds anything, every stage was verified over all it was handed and returned, and the output leaves no block open unless an error abandoned it; with no stream plugin the end is accepted and the output is the input |
| StreamPipeline.BatchKeeps | internal/plugin/stream_enforce.go:631-827 | any batch through any plugin keeps the stage invariant: the walker is the fold over the returned events, the journal originals are exactly the events since it opened, pending indices are open tool blocks, and after a batch that closed a scope on either side, with no journal left open, everything handed over and returned has been verified |
| StreamPipeline.PublishedAccepted | internal/plugin/stream_enforce.go:631-827 | what a stage has published is at every moment an accepted trace |
| StreamPipeline.NothingHeldAfterEnd | internal/plugin/stream_enforce.go:664-755 | after a MessageStop or StreamError, or a complete input, no journal remains and everything returned is published |
| StreamPipeline.EndedIsComplete | internal/plugin/stream_enforce.go:309-319 | an accepted trace that reached a MessageStop or StreamError leaves nothing open |
| StreamPipeline.RollbackRestores | internal/plugin/stream_enforce.go:877-900 | a rollback leaves what was published before the journal opened followed by every event handed over since, in order, and disables the plugin |
| StreamPipeline.FailureRestores | internal/plugin/stream_enforce.go:664-755 | whatever the reply while a journal is open - a trap, a refused edit, a refused walk, output over the byte limit - the stage still holds the same transaction or has restored the original events, the last one included |
| StreamPipeline.DisabledIsIdentity | internal/plugin/stream_enforce.go:659-676 | a rolled-back stage is the identity on a batch |
| StreamJournal.DisabledRestores | internal/plugin/stream_enforce.go:664-755 | over any run, a disabled stage has published what it had published when its journal opened followed by every event handed to it since, in order, up to now |
| StreamJournal.EveryStageTraced | internal/plugin/stream_enforce.go:664-900 | over any run, every stage is at rest, or is held by or was restored from a journal that opened at a definite event while it was at rest |
| StreamProvenance.HostFactsReachTheOutput | internal/plugin/stream_enforce.go:489-629 | with any plugins judged by the field policy, when the end of the stream is accepted the output carries exactly the facts of the host input that no grant covers, through the whole chain |
| StreamEnforcer.PluginStage.Process | internal/plugin/stream_enforce.go:640-786 | one event through a stage, with its journal, clone and rollback, does what the specified transition does; what that transition makes of the plugin reply is stated by the laws of `StreamReplies` |
| StreamEnforcer.PluginStage.RollBack | internal/plugin/stream_enforce.go:877-900 | the in-place rollback gives the specified stage or fails where it fails |
| StreamEnforcer.PluginStage.Batch | internal/plugin/stream_enforce.go:631-827 | the loop over a batch and the scope check after it give the specified outcome |
| StreamEnforcer.PluginStage.CloseScope | internal/plugin/stream_enforce.go:788-825 | the scope check after a batch gives the specified outcome, flushing or rolling back the journal |
| StreamEnforcer.StreamVerifier.RunChunk | internal/plugin/stream_enforce.go:631-847 | a chunk through every stage in order gives the specified state and output |
| StreamEnforcer.StreamVerifier.Finish | internal/plugin/stream_enforce.go:582-629 | the end of the stream is accepted exactly when the specification accepts it |
| StreamReplies.ReplyIsPublished | internal/plugin/stream_enforce.go:668-752 | with no transaction open, a reply that edits only what it may and walks legally is exactly what the stage returns and publishes |
| StreamReplies.FailureForwards | internal/plugin/stream_enforce.go:710-752 | with no transaction open, a trap, a refused edit or an illegal reply ends the stream of a blocking plugin; for any other the event itself passes in its place, or ends the stream if it is illegal |
| StreamReplies.DisabledPasses | internal/plugin/stream_enforce.go:670-752 | a disabled stage publishes the event it is handed whatever the plugin would say |
| StreamReplies.SuppressedStartHolds | internal/plugin/stream_enforce.go:691-754 | suppressing a tool start within the byte limit opens a transaction with that start pending and publishes nothing |
| StreamReplies.ReplyIsHeld | internal/plugin/stream_enforce.go:664-754 | with a transaction open, an accepted reply within the limit is returned and kept back with its event, and nothing is published |
| StreamReplies.TransactionFails | internal/plugin/stream_enforce.go:702-726 | a failed transaction ends the stream of a blocking plugin; any other is undone where it can be, publishing every event handed over since it opened, and its plugin is disabled |
| StreamReplies.RollbackExactly | internal/plugin/stream_enforce.go:877-900 | a rollback succeeds exactly when the original events are legal after what was already published, and gives exactly those |
| StreamReplies.SettleExactly | internal/plugin/stream_enforce.go:767-826 | the end of a batch in every case: held while a start is undecided, released, released after the scope passes, undone, or the stream ended |
| StreamReplies.EndsExactly | internal/plugin/stream_enforce.go:576-629 | the end of the stream is accepted exactly when no block is open on either side of any stage, unless an error abandoned it, and every pending scope passes both verifiers |
| StreamReplies.BehavedRun | internal/plugin/stream_enforce.go:631-827 | any pipeline of plugins that behave, on any legal input, never ends early and outputs exactly the composition of their replies |
| StreamTransaction.PairingIsIntersection | internal/plugin/stream_policy.go:134-174 | the exact pairing reserves, in every equality class, the minimum of the two multiplicities: what is kept is the multiset intersection |
| StreamTransaction.PairingIsInjective | internal/plugin/stream_policy.go:134-174 | paired positions hold equal events and no position is used twice on either side |
| StreamTransaction.MatchedMeans | internal/plugin/stream_policy.go:134-174 | after any number of accepted events the two-phase matching is a pairing in which no later match was missed |
| StreamTransaction.TransactionKeepsFacts | internal/plugin/stream_policy.go:65-448 | an accepted transaction carries the same multiset of ungranted facts as the events it replaces: none added, removed or altered at any depth |
| StreamTransaction.TransactionMonotone | internal/plugin/stream_policy.go:65-448 | more grants never turn an accepted transaction into a refused one |
| StreamTransaction.ReorderingNeedsTopologyAlone | internal/plugin/stream_policy.go:65-123 | a permutation is accepted exactly when nothing moved or the topology grant is held |
| StreamTransaction.IdentityNeedsNoGrant | internal/plugin/stream_policy.go:65-123 | passing everything through needs no grant |
| StreamTransaction.WithoutTopologyShapeIsFixed | internal/plugin/stream_policy.go:65-123 | without topology an accepted transaction has the same length and the same arm at every position |
| StreamTransaction.ExactEventMatches | internal/plugin/stream_policy.go:134-174 | the two loops with their reservation tables and wire buckets compute the specified pairing |
| StreamTransaction.FindInBucket | internal/plugin/stream_policy.go:150-172 | the bucket scan finds the first unreserved equal event |
| StreamTransaction.CompareResidue | internal/plugin/stream_policy.go:89-123 | the loop over the leftovers decides the residue as specified |
| StreamTransaction.VerifyPolicy | internal/plugin/stream_policy.go:34-123 | the whole check decides exactly the specified transaction verdict, whose acceptance is stated on differences by `StreamVerdicts` |
| StreamPolicy.MessageKeepsFacts | internal/plugin/stream_policy.go:235-264 | two messages judged compatible carry the same ungranted facts, by recursion over fields, containers and nested messages |
| StreamPolicy.PresentCarriesNothing | internal/plugin/stream_policy.go:266-292 | a message allowed to appear or vanish carries no ungranted fact |
| StreamPolicy.MessageMonotone | internal/plugin/stream_policy.go:235-448 | compatibility of two messages is monotone in the grants |
| StreamPolicy.PresentMonotone | internal/plugin/stream_policy.go:266-389 | permission to appear or vanish is monotone in the grants |
| StreamEdits.PresentExactly | internal/plugin/stream_policy.go:266-389 | a message may appear or vanish exactly when everything it carries, at every path in it, may: nothing unknown or host-owned, each section granted |
| StreamEdits.AcceptedExactly | internal/plugin/stream_policy.go:235-448 | one message may replace another exactly when every difference between them, at any depth, is allowed by the policies on its path and the grants |
| StreamEdits.EditExactly | internal/plugin/stream_policy.go:235-448 | one value changed at any path, all else equal, is accepted exactly when the containers on the way leave it open and the change is granted: a kept scalar by its section or as a bound signature, a value that comes or goes by the sections of all in it |
| StreamVerdicts.EventExactly | internal/plugin/stream_policy.go:194-233 | one event in place of another: by their differences when the arm is the same, by topology and both contents when it is not |
| StreamVerdicts.InPlaceExactly | internal/plugin/stream_policy.go:65-123 | any number of events changed in place are accepted exactly when each can be marshalled and each change is allowed |
| StreamVerdicts.ReplacementExactly | internal/plugin/stream_policy.go:65-233 | one event replaced by any other is accepted exactly by their differences, or by topology and both contents when the arm changes |
| StreamVerdicts.EditAccepted | internal/plugin/stream_policy.go:65-448 | one value changed in one event of a transaction is accepted exactly when both events marshal, the way to it is open and the change is granted |
| StreamVerdicts.AppendedExactly | internal/plugin/stream_policy.go:65-123 | events added at the end are accepted exactly when topology is granted and all they carry may come |
| StreamVerdicts.RemovedExactly | internal/plugin/stream_policy.go:65-123 | events removed from the end are accepted exactly when topology is granted and all they carry may go |
| JsonScan.StringScanned | internal/engine/rawjson.go:575-588 | on a string of the grammar the scanner stops right after its closing quote |
| JsonScan.ValueScanned | internal/engine/rawjson.go:590-623 | on a value of the grammar, however nested, the scanner stops right after it |
| JsonScan.ScanStringEnd | internal/engine/rawjson.go:575-588 | the index loop computes the specified end or failure on any bytes |
| JsonScan.ScanValueEnd | internal/engine/rawjson.go:590-623 | the depth loop computes the specified end or failure on any bytes |
| JsonSpans.ObjectRead | internal/engine/rawjson.go:503-573 | every object text of RFC 8259 sections 2 to 7 parses to one span per member in order and the index of its own closing brace |
| JsonSpans.SpansCover | internal/engine/rawjson.go:503-573 | each span covers exactly the bytes of its member name and value, and the spans follow one another |
| JsonSpans.ViewRead | internal/engine/rawjson.go:452-463 | the decoded view is the names in order, each with the exact bytes of its value |
| JsonSpans.ParseObjectSpans | internal/engine/rawjson.go:503-573 | the member loop computes the specified spans or failure on any bytes |
| JsonSpans.ReadMember | internal/engine/rawjson.go:519-570 | one turn of the member loop reads the specified member or fails |
| JsonEdit.SetPresent | internal/engine/rawjson.go:652-655 | setting a present member gives the object with that value replaced and every other byte kept |
| JsonEdit.SetAbsent | internal/engine/rawjson.go:656-676 | setting an absent member gives the object with it appended and the whitespace before the brace kept |
| JsonEdit.DeletePresent | internal/engine/rawjson.go:683-726 | deleting a member gives the object without it and without one separator |
| JsonEdit.DeleteAbsent | internal/engine/rawjson.go:698-702 | deleting a missing name changes no byte |
| JsonEdit.CheckedObject | internal/engine/rawjson.go:101-112 | a strict object text passes the validation every edit ends with |
| JsonLaws.SetUpdatesView | internal/engine/rawjson.go:634-681 | for every valid object, key and value, the set succeeds and the view changes by the map update, order kept and a new name last |
| JsonLaws.SetSucceedsExactly | internal/engine/rawjson.go:634-681 | on any bytes a set succeeds only for a valid key and a value that is one strict text, and gives a strict object; on a valid object it succeeds exactly for those |
| JsonLaws.DeleteSucceedsExactly | internal/engine/rawjson.go:683-722 | on a valid object a delete succeeds exactly for a valid key |
| JsonLaws.DeleteUpdatesView | internal/engine/rawjson.go:683-726 | for every valid object and key the delete succeeds and the view loses exactly that name |
| JsonLaws.SetThenDelete | internal/engine/rawjson.go:634-726 | adding a member and deleting it restores the original bytes exactly when the value does not end in whitespace |
| JsonLaws.TrailingSpaceSurvives | internal/engine/rawjson.go:656-676 | the failing case: `1` with a trailing space added to `{}` and deleted leaves `{ }` |
| JsonSweep.BothDeletesAgree | internal/engine/rawjson.go:683-767 | one pass and one by one both succeed and leave the same view: the named members gone, the others in order with their value bytes |
| JsonSweep.SweepKeeps | internal/engine/rawjson.go:724-767 | either way every survivor keeps its order and all bytes from key to value |
| JsonSweep.EachIgnoresOrder | internal/engine/rawjson.go:683-726 | deleting names one by one gives the same bytes in any order |
| JsonSweep.SameBytesIff | internal/engine/rawjson.go:683-767 | one pass and one by one give the same bytes exactly when nothing is dropped or no whitespace stands before the comma of a survivor other than the first |
| JsonSweep.SpaceBeforeCommaIsLost | internal/engine/rawjson.go:754-761 | the failing case: `{"a":1 ,"b":2,"c":3}` without `c` |
| JsonSweep.OnceIs | internal/engine/rawjson.go:729-767 | the bytes of the one pass are the rendering of the swept members, or the input when no name is present |
| JsonSweep.EachIs | internal/engine/rawjson.go:683-726 | the bytes of deleting one by one are the rendering of the swept members, a function of the set of names |
| JsonSplice.SpliceSet | internal/engine/rawjson.go:634-681 | the splicing procedure computes the set |
| JsonSplice.SpliceDelete | internal/engine/rawjson.go:683-722 | the splicing procedure computes the delete |
| JsonSplice.SpliceDeleteAll | internal/engine/rawjson.go:729-767 | the splicing procedure computes the one-pass delete |
| JsonSplice.CopyMembers | internal/engine/rawjson.go:755-761 | the copy loop writes the retained members, each after the first behind its own comma |
| BridgeUsage.NormalizeAccepts | internal/bridge/stream.go:511-537 | the streaming conversion accepts exactly the reports that are not negative, whose cache is within the input and whose sums it forms fit in 64 bits |
| BridgeUsage.NormalizeConserves | internal/bridge/stream.go:511-537 | a conversion keeps uncached, read, write and output counts and yields 64-bit naturals |
| BridgeUsage.RoundTrip | internal/bridge/stream.go:511-537 | there and back is the identity exactly when the source is Anthropic or whole input plus output fits |
| BridgeUsage.SensibleRoundTrips | internal/bridge/stream.go:511-537 | for sensible counters the conversion succeeds and round-trips between every two protocols |
| BridgeUsage.PathsAgree | internal/bridge/response.go:385-403 | wherever parse-then-marshal reports a usage the streaming conversion reports the same; it refuses more only for a whole total that overflows or a cache write the destination cannot express |
| BridgeUsage.OverflowingTotal | internal/bridge/stream.go:527-535 | a report carried to Anthropic whose whole total overflows, so that it cannot come back |
| BridgeUsage.ParseMeans | internal/bridge/response.go:1356-1389 | a report parses exactly when it is sensible, to counters whose input includes the cache |
| BridgeCounts.StreamedAlike | internal/bridge/response.go:1234-1426 | a usage member read from JSON and marshalled to another contract has the counters the streaming conversion gives |
| BridgeCounts.ChatUsageBack | internal/bridge/response.go:1498-1506 | written Chat usage reads back as itself |
| BridgeCounts.ResponsesUsageBack | internal/bridge/response.go:1579-1588 | written Responses usage reads back as itself |
| BridgeCounts.AnthropicUsageBack | internal/bridge/response.go:1611-1617 | written Anthropic usage, cache subtracted, reads back with the cache added |
| BridgeCounts.GeminiUsageBack | internal/bridge/response.go:1645-1651 | written Gemini usage reads back as itself |
| BridgeTranslate.MeaningPreserved | internal/bridge/response.go:30-59 | for every two different protocols, a translation read back in the destination contract has the source model (or the fallback), ordered texts and calls, termination and usage exactly when the source did not stop with tool calls in it; and all call identities are present and distinct |
| BridgeTranslate.StopHidesToolsOnlyFromAnthropic | internal/bridge/response.go:543-1230 | only an Anthropic response can be read as a stop with tool calls in it |
| BridgeTranslate.StopBecomesToolCall | internal/bridge/response.go:1620-1641 | the failing case: an Anthropic end of turn with a tool call in it reads back from Gemini as a tool-call termination |
| BridgeTranslate.Back | internal/bridge/response.go:308-332 | reading back what any writer wrote, for each protocol: refused only by Chat Completions for a tool call under a stop |
| BridgeReads.MessagesExactly | internal/bridge/response.go:963-1075 | an Anthropic body is read as a completion exactly when its JSON members say that completion: identity, model, texts and tool uses in order, stop reason and usage |
| BridgeReads.ChatExactly | internal/bridge/response.go:543-717 | a Chat Completions body is read as a completion exactly when its members and first choice say it and it does not call tools under a stop |
| BridgeReads.ResponsesExactly | internal/bridge/response.go:753-961 | a Responses body is read as a completion exactly when its members and output items say it, each text with its item and status |
| BridgeReads.GeminiExactly | internal/bridge/response.go:1077-1232 | a Gemini body, wrapped or not, is read as a completion exactly when its candidate and parts say it |
| BridgeReads.BlocksExactly | internal/bridge/response.go:345-373 | the validation of blocks holds exactly when each block is whole and no two calls share an identity |
| BridgeReads.AnthropicExactly | internal/bridge/response.go:1356-1389 | an Anthropic usage member is read exactly as its counters say, the cache added to the input |
| BridgeReads.ChatUsageExactly | internal/bridge/response.go:1234-1338 | a Chat usage member is read exactly as its counters and details say |
| BridgeReads.ResponsesUsageExactly | internal/bridge/response.go:1234-1338 | a Responses usage member is read exactly as its counters and details say |
| BridgeReads.GeminiUsageExactly | internal/bridge/response.go:1391-1426 | a Gemini usage member is read exactly as its counters say |
| BridgeMeaning.ReadsExactly | internal/bridge/response.go:291-306 | for every protocol the reader gives a completion exactly when the body says it |
| BridgeMeaning.TranslationSays | internal/bridge/response.go:30-59 | body against body: a translated body says a completion in its own contract, and the translation shows in the destination contract the same texts and calls in order, usage and finish, under the source model or the fallback |
| BridgeMeaning.TranslatesExactly | internal/bridge/response.go:30-59 | a body is translated exactly when it says a completion in its own contract for which the destination has a place |
| BridgeChat.Back | internal/bridge/response.go:1465-1509 | a written Chat completion reads back as itself, or is refused for a stop with tool calls |
| BridgeItems.Back | internal/bridge/response.go:1511-1589 | a written Responses response reads back with the same texts and calls, through grouping of texts by item and generated item identities |
| BridgeMessages.Back | internal/bridge/response.go:1591-1618 | a written Anthropic message reads back as itself |
| BridgeGemini.Back | internal/bridge/response.go:1620-1656 | a written Gemini response, wrapped or not, reads back as itself but for a stop that hides a tool call |
| BridgeChat.ReadCalls | internal/bridge/response.go:634-646 | the loop over the tool calls reads them as specified or refuses |
| BridgeChat.Arrange | internal/bridge/response.go:1465-1495 | the loop that separates the text from the calls refuses exactly when a text is not first, and otherwise writes the specified message |
| BridgeItems.EmitItems | internal/bridge/response.go:1519-1568 | the loop over the blocks, with its inner run of texts of one item, writes the specified items or refuses a repeated identity |
| BridgeCompletion.IdentitiesComplete | internal/bridge/response.go:1667-1696 | filling in identities changes nothing else, and then every tool call has one and no two share one |
| BridgeCompletion.FillInPlace | internal/bridge/response.go:1679-1695 | the in-place loop fills the specified identities or refuses a collision |
| BridgeCompletion.CheckBlocks | internal/bridge/response.go:345-373 | the validation loop decides the specified validity of the blocks |
| BridgeCompletion.ValidDistinct | internal/bridge/response.go:345-373 | validity forbids repeated call identities |
| StreamGuard.GuardedStream | internal/bridge/stream.go:302-419 | a stream that passes has no error, one finish with only usage after it and a message start only first; what is sent, read off the stream itself, is the content in order with at most the start model filled, then finish and the last report converted, in the order each destination needs |
| StreamGuard.GuardedTools | internal/bridge/stream.go:435-509 | in a stream that passes every tool index starts once, its events fall between its start and end, every delta carries the payload family of its call, every call ends, function arguments are one JSON object, at most 128 calls, argument bytes within the limit |
| StreamGuard.TracksExactly | internal/bridge/stream.go:452-507 | the framing of tool calls is accepted exactly on the traces with that discipline |
| StreamGuard.GuardTracks | internal/bridge/stream.go:435-509 | an event passes exactly when the protocols can carry it, its framing is right and it carries its call payload family; the framing is blamed only for the last two, and always for them when the event can be carried |
| StreamGuard.GuardEvents | internal/bridge/stream.go:302-419 | the loop with its maps and counters computes the specified guard |
| StreamAdmission.PassesExactly | internal/bridge/stream.go:302-509 | the guard passes a stream exactly when it has no error, one finish with only usage after it, convertible reports, a start only first, events both protocols can carry, disciplined and ended calls of the right family within bounds, and usage where Anthropic needs it |
| StreamAdmission.FinishesExactly | internal/bridge/stream.go:43-211 | the parser finishes a source exactly when nothing in it was faulty, it ended on its own with one finish and only usage after it, a start is only first, and its calls, missing identities filled in, have legal and distinct identities, are disciplined, within bounds and ended |
| StreamAdmission.FinishedIs | internal/bridge/stream.go:43-211 | what the parser gives, as a value of the source: the content with missing identities and a missing start filled in, the last usage report and the finish |
| StreamParse.ParsedIsWellFramed | internal/bridge/stream.go:43-211 | a stream the parser finished without error is refused by the guard for its framing exactly when some delta has the wrong payload family and every event before it can be carried, whatever the destination |
| StreamParse.MixedCallIsRefused | internal/bridge/stream.go:145-160 | the failing case: a function call with a free-form delta parses without error and is then refused, even with one protocol on both sides |
| StreamParse.ParsedShape | internal/bridge/stream.go:43-211 | what the parser finishes is one message start first, disciplined tool calls with distinct identities all ended, at most one usage and the finish |
| StreamParse.ParsedContent | internal/bridge/stream.go:43-211 | what the parser lets out is the adapter content in order with only missing identities and a missing start filled in, then the last usage report and the one finish, turned into a tool-call finish for Responses and Gemini sources that called tools |
| StreamParse.ParseEvents | internal/bridge/stream.go:43-211 | the event loop computes the specified parse |
| MessageProjection.NothingDroppedOrMoved | internal/bridge/request.go:191-333 | a projected conversation is the original turn by turn: same blocks in the same order, each rewritten alone and under the role the destination gives it, even with system turns merged to the front |
| MessageProjection.TurnsMatch | internal/bridge/request.go:217-286 | each rewritten turn is the same block: texts and calls unchanged, results with their call and text, under the name of that earlier call for Gemini, without a name for Anthropic and with their own for OpenAI, media as converted |
| MessageProjection.RolesAre | internal/bridge/request.go:288-331 | in a projected conversation each block stands, for OpenAI, under `Tool` if it is a tool result and its own role otherwise; elsewhere a tool result and every block of a tool message stand under `User` |
| MessageProjection.ProjectsExactly | internal/bridge/request.go:191-333 | projection succeeds exactly on conversations with legal roles, leading system turns where required, plain blocks, unique calls and each result answering an earlier call once |
| MessageProjection.ResultsAnswerEarlierCalls | internal/bridge/request.go:239-251 | in the projection every tool result answers one earlier call and no call is answered twice |
| MessageProjection.OpenAIResultsStandAlone | internal/bridge/request.go:292-310 | OpenAI destinations get each tool result alone in a tool message and no empty message |
| MessageProjection.OthersAlternate | internal/bridge/request.go:288-331 | other destinations get at most one system message, first, and no two neighbours of one role |
| MessageProjection.ProjectMessages | internal/bridge/request.go:191-333 | the nested loops compute the specified projection or refusal |
| MessageProjection.SplitResults | internal/bridge/request.go:292-310 | the pending-and-flush loop computes the specified split |
| MessageProjection.MergeRoles | internal/bridge/request.go:311-326 | the merging loop computes the specified regrouping |
| MessageProjection.RewriteInOrder | internal/bridge/request.go:217-286 | the block loop rewrites as specified or refuses |
| LocalCache.RunKeeps | internal/cache/cache.go:109-235 | after any operations keys are unique and both bounds hold |
| LocalCache.RunIsBounded | internal/cache/cache.go:109-235 | after any operations the entries are within the entry bound and their keys and values together within the byte bound, and no key is held twice |
| LocalCache.OthersLeave | internal/cache/cache.go:145-218 | a Delete leaves all but its key, a sweep exactly what has not run out, a Get all but an entry it finds run out |
| LocalCache.SetKeepsLongestPrefix | internal/cache/cache.go:109-143 | a refused Set changes nothing; any other puts its entry first with its own expiry and keeps the longest prefix of the others in recency order that fits in entries and bytes, the new entry always included |
| LocalCache.HitIsLatest | internal/cache/cache.go:145-161 | a hit is the value of an operation of the run: a Set that was not refused, that no later Set or Delete of the key followed, and whose time has not run out, whatever the clock readings |
| LocalCache.UnboundedHit | internal/cache/cache.go:109-173 | without bounds and with a clock that does not run back a Get hits exactly when such a Set stands, and answers its value |
| LocalCache.RunByRecency | internal/cache/cache.go:109-161 | the entries stand in the order of their last use, an admitted Set or a hit, the latest first |
| LocalCache.LargerHoldsMore | internal/cache/cache.go:220-229 | with only the entry bound, the same operations leave a larger cache holding every entry, and giving every hit, of a smaller one |
| LocalStore.Store.constructor | internal/cache/cache.go:92-105 | a new cache is empty and valid |
| LocalStore.Store.Set | internal/cache/cache.go:109-143 | Set on map, list and counter does what the specification does to the entry sequence and keeps them in agreement; that specification is pinned by `SetKeepsLongestPrefix`, `HitIsLatest` and `UnboundedHit` |
| LocalStore.Store.Get | internal/cache/cache.go:145-161 | Get answers and moves or removes the entry as specified |
| LocalStore.Store.Delete | internal/cache/cache.go:163-173 | Delete removes the entry as specified |
| LocalStore.Store.EvictExpired | internal/cache/cache.go:209-218 | the sweep removes exactly the expired entries, in whatever order the map is walked |
| LocalStore.Store.EvictBounds | internal/cache/cache.go:220-229 | the eviction loop leaves the longest prefix that fits |
| LocalStore.Store.Remove | internal/cache/cache.go:231-235 | removal keeps map, list and byte counter in agreement |
| Correlation.BindsOncePerLife | internal/mcpserver/correlation.go:124-218 | in any run with times in order, two calls bound to the same response call are separated by the expiry of the record the first one bound, replays included |
| Correlation.DisputedNeverBinds | internal/mcpserver/correlation.go:136-190 | after evidence, observed or committed, that contradicts a live record, that record binds nothing for the rest of its life |
| Correlation.NothingBindsAfterRefusal | internal/mcpserver/correlation.go:136-190 | for 120 seconds after a record is refused for lack of room, observed or inside a commit, nothing binds |
| Correlation.NothingBindsAfterOverflow | internal/mcpserver/observe_stream.go:106-119 | for 120 seconds after a tool overflowed its stream observation no call of that tool binds |
| Correlation.AmbiguityIsNeverHidden | internal/mcpserver/correlation.go:136-218 | a call bound to one response call while another, left recorded and unspent by an observation or a commit and still live, asks for the same tool and arguments implies that one was itself bound or contradicted in between |
| Correlation.ObservedIsNeverPassedOver | internal/mcpserver/correlation.go:124-218 | a call bound to one response call within 120 seconds of an observation that recorded another with the same tool and arguments implies that one was bound or contradicted in between |
| Correlation.CommittedIsNeverPassedOver | internal/mcpserver/correlation.go:156-218 | the same for a response call that a commit recorded, while its staged record is live |
| Correlation.StagedIsArmed | internal/mcpserver/correlation.go:156-190 | a live, unspent staged record for a response call not yet known is recorded by the commit and can bind, unless there was no room for it |
| Correlation.CommitSpendsExactly | internal/mcpserver/correlation.go:153-190 | a consumed staged record leaves its response call bindable exactly when a live, unspent record with the same tool and arguments was already held |
| Correlation.StagedConsumptionIsDropped | internal/mcpserver/correlation.go:153-190 | the failing case: a consumed staged record over a held one that agrees with it, which still binds afterwards |
| Correlation.BindsExactlyTheOnlyMatch | internal/mcpserver/correlation.go:192-218 | a call is bound exactly when it is recognised, not held back by saturation, and one unspent live record matches tool and arguments |
| Correlation.BoundHasEvidence | internal/mcpserver/correlation.go:124-218 | every bound call rests on earlier, still live evidence with its response call, tool and arguments |
| Correlation.RunFits | internal/mcpserver/correlation.go:136-150 | at most 4096 records are ever kept |
| Correlation.ToolExactly | internal/mcpserver/correlation.go:80-87 | each of the four tool names, bare or after any prefix and two underscores, is that tool, and nothing else is one |
| Correlation.ObservationExactly | internal/mcpserver/correlation.go:124-151 | a recognised observation of a response call with no live record is recorded for 120 seconds, able to bind, exactly when fewer than 4096 records are live, and otherwise holds everything back for 120 seconds; an unrecognised one changes nothing |
| Correlator.Correlator.constructor | internal/mcpserver/correlation.go:42-44 | a new correlator is empty |
| Correlator.Correlator.Observe | internal/mcpserver/correlation.go:124-134 | recording does what the specified step does |
| Correlator.Correlator.Keep | internal/mcpserver/correlation.go:136-151 | inserting a record, marking a contradiction or refusing for room is as specified |
| Correlator.Correlator.PruneExpired | internal/mcpserver/correlation.go:109-120 | pruning drops exactly the expired records and marks, in whatever order the maps are walked |
| Correlator.Correlator.Commit | internal/mcpserver/correlation.go:156-190 | committing staged evidence carries saturation and inserts live records as specified |
| Correlator.Correlator.Call | internal/mcpserver/correlation.go:192-218 | consuming does what the specified step does |
| Correlator.Correlator.CountMatches | internal/mcpserver/correlation.go:204-211 | the loop counts the matching records and returns one of them |
| PinDrain.EveryRunIsSafe | internal/plugin/discovery.go:1445-1471 | in every interleaving where Acquire is nested: active is the number of pins, drained is closed exactly once and precisely when draining with no pin, the runtime is closed at most once and only then |
| PinDrain.NoPinAfterClose | internal/plugin/discovery.go:1632-1649 | once the runtime is closed no pin exists and no step grants one |
| PinDrain.ReturnMeansClosed | internal/plugin/discovery.go:1632-1649 | a drain caller, first or not, returns only after the runtime is closed |
| PinDrain.DrainProgresses | internal/plugin/discovery.go:1632-1649 | with every pin released a waiting drain caller always has a step that brings it closer to returning |
| PinDrain.DrainFinishes | internal/plugin/discovery.go:1632-1649 | and it returns within a bounded number of such steps |
| PinDrain.SafeExactlyInTime | internal/plugin/discovery.go:1457-1471 | an Acquire and its Release keep the protocol safe exactly when the pipeline had not already drained |
| PinDrain.LateAcquirePanics | internal/plugin/discovery.go:1457-1471 | an Acquire after draining closes the drained channel a second time on its Release |
| PinDrain.UnpinnedAcquireBreaks | internal/plugin/discovery.go:1457-1471 | the failing case: drain an idle pipeline, acquire without a pin, release |
| PinDrain.Pipeline.TryAcquire | internal/plugin/discovery.go:1445-1453 | the locked section grants a pin exactly when not draining |
| PinDrain.Pipeline.Release | internal/plugin/discovery.go:1464-1471 | the locked section drops a pin and closes the channel when the last one goes while draining |
| PinDrain.Pipeline.BeginDrain | internal/plugin/discovery.go:1634-1638 | the locked section starts draining and closes the channel when no pin is held |
| ResponseChain.ChainIsFaithful | internal/plugin/discovery.go:1901-1976 | over any plugins and replies the response that leaves the chain keeps every host-owned fact, block count, arm and call identity, and a token on it is the provider token over the provider name and arguments |
| ResponseChain.BlocksExactly | internal/plugin/discovery.go:1901-1976 | the chain blocks exactly when some blocking plugin, on what it is shown, fails or on a mutable path replaces what it may not |
| ResponseChain.NextIsShown | internal/plugin/discovery.go:1901-1976 | until it blocks, a permitted replacement on a mutable path, without the tokens it left over changed content, is what the next plugin is shown; any other reply leaves it unchanged |
| ResponseChain.EndsExactly | internal/plugin/discovery.go:1901-1976 | a chain that does not block ends with the last response shown, modified exactly when some permitted replacement was made |
| ResponseChain.UnsignedStays | internal/plugin/discovery.go:1901-1976 | a position once without a token is never signed again, even when later plugins edit its content back |
| ResponseChain.EditClears | internal/plugin/response_validate.go:122-147 | changing what a token covers clears it, whatever the plugin did with the token |
| ResponseChain.AcceptsExactlyAllowedEdits | internal/plugin/response_validate.go:16-108 | a replacement is accepted exactly when it keeps facts and shape and edits only text, names and arguments, with the token kept or, over a change, cleared |
| ResponseChain.ValidateReplacement | internal/plugin/response_validate.go:16-108 | the validation loop decides the specified validity |
| ResponseChain.ClearStale | internal/plugin/response_validate.go:122-147 | the in-place loop clears exactly the stale tokens |
| ResponseChain.RunAfterResponse | internal/plugin/discovery.go:1901-1976 | the plugin loop computes the specified chain, blocking where a blocking plugin fails |

## Left out

- Plugin execution, protobuf encoding and the SDK policy tables: a plugin is an arbitrary function, the table and the prefix verifier are parameters.
- Scope ordinals and close counts of the stream pipeline (`recordScopeCloses`, `recountCloses`) and event positions in error texts: diagnostics only.
- The final conversion of verified events to engine events: its tracker is not part of this model.
- StreamPolicy.MessageKeepsFacts: a list of messages under a charged policy, where the code would dereference a missing message, counts as a refusal.
- JsonEdit.SetPresent: the string codec, the key check and the validator's rules for single lexemes (which numbers, literals and strings are good) are parameters; the validator accepts exactly the texts of the grammar whose lexemes are good and whose names are distinct at every depth. The validator itself is not in the repository: it is taken at the rules stated beside its use, and any nesting limit it has is not modelled.
- The end-of-separator position kept in a member span: nothing reads it.
- BridgeTranslate.MeaningPreserved: JSON is modelled as trees, so argument texts are compared as values; a whitespace-only difference such as `[ ]` for `[]` in a field that must be empty is not distinguished, and the error messages are one refusal.
- The client request echo of a Responses response and the completion of host-generated envelopes: the echo is a parameter, the rest only adds flat checks.
- Hashes and random identities of the bridge: arbitrary functions whose results are not empty.
- StreamGuard.GuardedStream: cancellation and the channels themselves; streams are sequences.
- StreamGuard.GuardedTools: the size limit on streamed arguments counts characters of the model's strings where the code counts bytes.
- StreamParse.ParseEvents: the frame observer is a verdict per event, the native adapters an arbitrary event sequence.
- MessageProjection.ProjectMessages: blocks have one arm, and the partial rewriting left in the request after a refusal is not described.
- LocalStore.Store.Set: the context check, and the eviction goroutine as a schedule; any interleaving of its sweeps with the other operations is covered by the operation sequences.
- The overflow mark of a stream observer is one operation of the correlator's runs, without the observer around it; connection bookkeeping is left out.
- ResponseChain.RunAfterResponse: conversion between the engine's and the wire response, logging, and the early return when a plugin's hook input cannot be encoded.
- Manifest validation, approvals, hook order, header filtering, effort clamping, the request feed, economics, CLI, control plane, TLS interception, Redis and telemetry: flat checks or I/O.
