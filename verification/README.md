# Verification of Sympozium's agent runner, Slack gate and authorisation fixture

A Dafny model of the parts of Sympozium whose behaviour spans many steps, and proofs about it. Each
imperative source routine is a method or class over the same state, proved against a specification
function; what the source promises is then proved about that function, over every input and every run.

## What is modelled

- **Canonical JSON** (`ByteText`, `Decimals`, `Utf16Order`, `CanonicalJson`, `JsonParser`, `CanonicalForm`,
  `StrictJson`, `CanonicalizeJson`). Values, listings of them, the printer into a shared buffer, the UTF-16 key order, the
  surrogate scan over raw bytes, the strict walk over a token stream, and an inverse parser. Strings are
  sequences of Unicode scalar values: what `json.Decoder` returns once the surrogate scan has passed.
- **Agent loop, tool-result ledger and gate chain** (`Conversation`, `Providers`, `ToolResultLedger`, `Elision`,
  `StubLengths`, `GreedyPass`, `AgentLoop`, `LoopSafety`, `SentFirst`, `RepeatedIds`, `RunPasses`, `RunAnswers`, `GateChain`,
  `ChainSafety`, `ChainAnswers`, `ChainSpill`). The two providers' histories and the
  one conversation both present; the ledger and the spill files; the loop that chats, runs tools, records,
  elides and chats again; and the chain of attempts on one live provider. The environment (replies, tool
  outputs, the outcome of each write, verdict files, publication failures) is arbitrary: functions of the
  round, call or attempt. A failed write may leave any content, or none, at its path.
- **Reading back** (`ReadFile`, `Recovery`). Line pagination under a byte cap, and the way from a placeholder
  in the conversation to the result it stands for.
- **Batch editor** (`Search`, `Pieces`, `EditTool`). Counting, first index, replace-all and line reporting
  over one left-to-right scan; batches as a fold; the file all or nothing.
- **Slack sticky-thread gate** (`SlashKeys`, `SlackGate`, `SlackThreads`, `SlackInterleaving`). The handler over thread
  objects; thread state as a function of the message trace; and concurrent handlers as a state machine in
  which each locked section and each unlocked read of a thread's field is one step.
- **Reservation ledger** (`ReservationLedger`), with 64-bit additions that wrap around.
- **Text cutters** (`TextCut`). Byte caps that respect UTF-8, and removal of memory markers.

## Where the code and its promises part

- Replacement in history is by call ID, and IDs recovered from reasoning text restart at zero each reply.
  `RepeatedIds.RepeatedIdsLoseAResult` shows the loss. No unsent result is lost when IDs repeat at most within
  a round (`SentFirst.ElidedOnlyAfterSent`), and `SentFirst.UnsentOverwrittenExactly` says which are lost
  otherwise. The agreement of history, ledger and files asks for distinct call IDs.
- A comment in the Anthropic provider takes an assistant turn to be the last one when a retry card is added.
  `Chat` records an assistant turn only when it calls tools, so it is there only if the seed put it there
  (`ChainSafety.CardFollowsInput`); `ChainSafety.CardMakesTwoUserTurns` says exactly when a card makes two user
  turns in a row, and `ChainSafety.AnthropicMessageThenCard` is a chain in which it does.
- A pass over an unchanged history is said to return nothing. After a failed write another pass can rewrite
  history (`GreedyPass.SecondPassCanRewrite`), the default directory without a run ID included;
  `GreedyPass.SecondPassExactly` says when, and under longer directories it never does (`GreedyPass.LongDirsSettle`).
- Spill files are named by ledger index and each loop call starts a new ledger, so a later attempt of a chain
  can overwrite the file an earlier placeholder names (`ChainSpill.LaterAttemptOverwritesFile`).
  `GreedyPass.PassWritesExactly` says when a pass touches a file, and `RunPasses.PlaceholderHoldsExactly` how long
  a placeholder's file holds its result along a chain.
- The first other sender in a thread is meant to interrupt it. Two concurrent handlers can both be let through
  as claiming a new thread and leave it uninterrupted (`SlackInterleaving.RaceGoesUnnoticed`);
  `SlackInterleaving.InterruptedExactlyWhenNoticed` says when an interruption is noticed.
- The reservation ledger keeps its caps for outputs that fit (`ReservationLedger.Fits`); an output near the
  largest 64-bit integer wraps the sum (`ReservationLedger.OverflowIsAccepted`), and
  `ReservationLedger.BreaksCapExactly` says exactly when.
- The token budget counts one loop call, so nothing is claimed about the tokens of a chain.

## Model

| member | source | states |
|---|---|---|
| CanonicalJson.IsCanonicalInteger | cmd/celln-authorisation-fixture/canonical.go:91-111 | the index loop accepts exactly the texts that are the decimal printing of some integer |
| CanonicalJson.IntegerShapeIsDecimal | cmd/celln-authorisation-fixture/canonical.go:91-111 | an accepted text is the printing of the value read from it, so no integer has a second accepted text |
| CanonicalJson.IntegerRoundTrip | cmd/celln-authorisation-fixture/canonical.go:47-56 | reading the printing of an integer gives the integer back, for every integer |
| CanonicalJson.ProfileExactly | cmd/celln-authorisation-fixture/canonical.go:47-56 | the numbers in the profile are exactly the decimal printings of the integers between minus and plus 9007199254740991 |
| CanonicalJson.EscapeExactly | cmd/celln-authorisation-fixture/canonical.go:112-139 | short escapes for the seven characters that have one, lower-case hexadecimal escapes for the other control characters, every other character as it is (section 3.2.2.2 of RFC 8785) |
| CanonicalJson.Buffer.AppendCanonicalString | cmd/celln-authorisation-fixture/canonical.go:112-139 | the string printer appends the quoted, escaped string (section 3.2.2.2 of RFC 8785) and nothing else |
| CanonicalJson.Buffer.AppendCanonical | cmd/celln-authorisation-fixture/canonical.go:35-90 | printing into the shared buffer fails exactly when the value leaves the integer profile at some depth; otherwise it appends the print of the canonical listing |
| CanonicalJson.Buffer.AppendArray | cmd/celln-authorisation-fixture/canonical.go:57-67 | the array loop appends the elements in order with commas between, or fails exactly when one is out of profile |
| CanonicalJson.Buffer.AppendMembers | cmd/celln-authorisation-fixture/canonical.go:74-85 | the object loop appends each key and value in the sorted order, or fails exactly when a value is out of profile |
| CanonicalJson.SortedFields | cmd/celln-authorisation-fixture/canonical.go:69-73 | whatever order the map is ranged over in, the sorted keys are the one ascending listing |
| Utf16Order.LessUtf16 | cmd/celln-authorisation-fixture/canonical.go:140-149 | the comparison loop decides the lexicographic order of UTF-16 code units |
| Utf16Order.LessIsRankLess | cmd/celln-authorisation-fixture/canonical.go:140-149 | comparing UTF-16 encodings is comparing strings by a renumbering of whole scalar values, so surrogate halves never mislead the order |
| Utf16Order.LessIsStrictTotalOrder | cmd/celln-authorisation-fixture/canonical.go:140-149 | the comparison is irreflexive, asymmetric, total and transitive on all strings of scalar values |
| Utf16Order.DiffersFromCodePointOrder | cmd/celln-authorisation-fixture/canonical.go:140-149 | at a first difference the order agrees with code-point order exactly unless one side is supplementary and the other lies between U+E000 and U+FFFF |
| Utf16Order.OneListing | cmd/celln-authorisation-fixture/canonical.go:69-73 | a set of keys has one ascending listing, so any correct sort gives the same result |
| Utf16Order.SortKeys | cmd/celln-authorisation-fixture/canonical.go:69-73 | sorting with the comparison gives an ascending listing of the same keys |
| JsonParser.ParsePrinted | cmd/celln-authorisation-fixture/canonical.go:35-139 | the inverse parser reads every printed document back, whatever may follow it |
| JsonParser.PrintParsed | cmd/celln-authorisation-fixture/canonical.go:35-139 | whatever the parser accepts is byte for byte the print of what it returns: the printed language is parsed and nothing else |
| CanonicalForm.CanonicalDenotes | cmd/celln-authorisation-fixture/canonical.go:35-90 | the canonical listing denotes the value it was made from, lists keys in order at every depth, and prints exactly for values in the profile |
| CanonicalForm.RecoverExactly | cmd/celln-authorisation-fixture/canonical.go:35-139 | recovery from bytes gives a value exactly when the bytes are the canonical bytes of that value in the profile: one value, one byte string, and back |
| CanonicalForm.EqualBytesMeanEqualValues | cmd/celln-authorisation-fixture/canonical.go:35-139 | two values in the profile have equal canonical bytes exactly when they are equal |
| CanonicalForm.SameValueIsReordered | cmd/celln-authorisation-fixture/canonical.go:68-85 | two listings without repeated keys denote one value exactly when they differ only in the order of object entries, at any depth |
| CanonicalForm.BytesIgnoreEntryOrder | cmd/celln-authorisation-fixture/canonical.go:68-85 | two listings get equal canonical bytes exactly when they differ only in entry order |
| CanonicalForm.CanonicalTwice | cmd/celln-authorisation-fixture/canonical.go:19-34 | the canonical bytes decode, repeat no key, and canonicalizing what they decode to gives the same bytes |
| StrictJson.RejectLoneSurrogates | cmd/celln-authorisation-fixture/canonical.go:219-266 | the index-juggling loop, never out of bounds, gives the verdict of a scan of what remains, the kind of failure included |
| StrictJson.AcceptedIsWellFormed | cmd/celln-authorisation-fixture/canonical.go:219-266 | the scan accepts exactly the byte strings of non-quote bytes and closed strings whose Unicode escapes have four hex digits and whose surrogate escapes come only in adjacent high-low pairs (section 7 of RFC 8259, section 2.1 of RFC 7493) |
| StrictJson.Decoder.WalkStrict | cmd/celln-authorisation-fixture/canonical.go:176-218 | the recursive walk consumes the token stream as its specification does, the repeated key named |
| StrictJson.WalkDocument | cmd/celln-authorisation-fixture/canonical.go:176-218 | on the tokens of a document the walk consumes exactly that document, and reports a repeated key exactly when some object at some depth repeats one; the key it names is one that some object repeats |
| CanonicalizeJson.Canonicalize | cmd/celln-authorisation-fixture/canonical.go:19-34 | on raw bytes and any decoder, canonicalization succeeds exactly on the UTF-8 encodings of texts whose strings are well formed with surrogate escapes paired, which decode to one document without repeated keys and in the profile, and gives the canonical bytes of what it denotes |
| CanonicalizeJson.CanonicalizedExactly | cmd/celln-authorisation-fixture/canonical.go:152-175 | the same of the specification, told by the encoding and the grammar and not by the checks |
| CanonicalizeJson.CanonicalBytesAccepted | cmd/celln-authorisation-fixture/canonical.go:112-139 | the canonical bytes of every value in the profile are valid UTF-8 and pass the surrogate scan |
| CanonicalizeJson.CanonicalizeTwice | cmd/celln-authorisation-fixture/canonical.go:19-34 | what comes out, given back in with a decoder that reads canonical bytes as the listing they print, comes out unchanged |
| CanonicalizeJson.SameBytesExactly | cmd/celln-authorisation-fixture/canonical.go:19-34 | two accepted inputs canonicalize to the same bytes exactly when what they decode to differs only in the order of object entries |
| ToolResultLedger.LoadPolicy | cmd/agent-runner/context_policy.go:85-117 | whatever integers the environment holds, negative ones count as zero, an enabled policy drains strictly below its budget, a low mark inside the budget is kept, and any other becomes half the budget |
| ToolResultLedger.StubsDiffer | cmd/agent-runner/context_policy.go:180-193 | a bare placeholder never reads as one that names a file |
| ToolResultLedger.SpillPathInjective | cmd/agent-runner/context_policy.go:265-267 | two ledger entries never share a spill file |
| ToolResultLedger.NewestRoundProtected | cmd/agent-runner/context_policy.go:337-354 | with rounds in insertion order, no entry of the newest round is below the cutoff, whatever the keep-recent window |
| ToolResultLedger.Ledger.Add | cmd/agent-runner/context_policy.go:310-319 | records the entry and adds its size to the live count, nothing else |
| ToolResultLedger.Ledger.Cutoff | cmd/agent-runner/context_policy.go:337-354 | the backward loop finds the cutoff below which exactly those entries are that are older than the newest keep-recent ones and than the newest round |
| ToolResultLedger.CutoffExactly | cmd/agent-runner/context_policy.go:337-354 | an entry is below the cutoff exactly when at least keep-recent entries come after it and, from it on, some entry is of another round than the last, whatever the order of rounds |
| ToolResultLedger.EligibleInOrder | cmd/agent-runner/context_policy.go:343-352 | with rounds in insertion order: exactly when at least keep-recent entries come after it and its round is not the newest |
| ToolResultLedger.Ledger.SelectForElision | cmd/agent-runner/context_policy.go:369-431 | the loop leaves the ledger, the files, the replacements and the reclaimed total of one greedy pass, with writes that succeed, fail or leave anything behind |
| Elision.SelectProgress | cmd/agent-runner/context_policy.go:369-431 | one pass over distinct calls changes an entry only by a strictly shorter placeholder, below the cutoff, with the replacement recorded for its call; a placeholder that names a file names one that holds the full content; files of results elided before are untouched |
| Elision.SelectAccounts | cmd/agent-runner/context_policy.go:417-431 | whatever the call IDs, the reclaimed total is exactly the fall in live bytes, and live keeps tracking the sum of the sizes |
| Elision.PassRewritesWhen | cmd/agent-runner/context_policy.go:369-431 | a pass rewrites history exactly when live bytes are over an enabled budget and some entry older than the newest kept ones and than the newest round can shrink |
| GreedyPass.PassTakesExactly | cmd/agent-runner/context_policy.go:381-425 | whatever the call IDs and the write outcomes, a pass takes, oldest first, exactly the entries below the cutoff that can shrink and at which live bytes less all savings below are still over the low mark; nothing else changes, and each call gets the placeholder of the newest entry taken for it |
| GreedyPass.ReachesInOrder | cmd/agent-runner/context_policy.go:381-381 | a pass gets to every entry older than one it gets to |
| GreedyPass.TakesWhen | cmd/agent-runner/context_policy.go:369-384 | an entry is taken exactly when live bytes are over an enabled budget, it is older than the newest kept ones and than the newest round, it can shrink, and live bytes less all savings below it are over the low mark |
| GreedyPass.ShrinksToExactly | cmd/agent-runner/context_policy.go:386-412 | to the placeholder that names the file when there is a directory, that placeholder is shorter and the write succeeds; to the bare one, if that is shorter, after a failed write or without a directory; otherwise it cannot shrink |
| GreedyPass.PassWritesExactly | cmd/agent-runner/context_policy.go:395-412 | a file under the spill directory, whoever wrote it, is touched by a pass only when the pass gets to the unelided entry of the file's own index and that entry has a shorter placeholder; it is then what the write leaves, and otherwise as it was |
| Elision.PassSettles | cmd/agent-runner/context_policy.go:356-431 | a pass over the budget leaves live bytes at or below the low mark, or every entry older than the newest kept ones and than the newest round elided or not shrinkable |
| GreedyPass.SecondPassExactly | cmd/agent-runner/context_policy.go:359-368 | a second pass on the unchanged ledger rewrites history exactly when live bytes are still over the budget and some unelided entry, older than the newest kept ones and than the newest round, had a failed write, has a write that now succeeds, and has a size above its spilled and not above its bare placeholder |
| GreedyPass.SecondPassCanRewrite | cmd/agent-runner/context_policy.go:386-407 | under every directory of less than 26 bytes and for every tool, a ledger of two results, the older as long as its bare placeholder, that a pass with a failed write leaves as it is and a second pass rewrites |
| GreedyPass.LongDirsSettle | cmd/agent-runner/context_policy.go:359-368 | under every directory of 26 bytes or more, a second pass on the unchanged ledger rewrites nothing, whatever the writes did before or do now |
| StubLengths.BareIsLongerExactly | cmd/agent-runner/context_policy.go:180-193 | the bare placeholder is longer than the one that names a file exactly when the path is shorter than 34 bytes, whatever the tool and the size |
| StubLengths.DefaultDirLength | cmd/agent-runner/context_policy.go:24-30 | the default spill directory has 22 bytes, so without a subdirectory for the run it is one of the short ones |
| RunPasses.EveryRequestSettled | cmd/agent-runner/provider.go:340-352 | over whole runs, whatever the call IDs and the write outcomes, when another request goes out live bytes are within the budget, or every result with at least keep-recent results after it and of an older round than the newest is elided or could not have been shrunk in that round |
| RunPasses.RunKeepsFileExactly | cmd/agent-runner/context_policy.go:381-412 | over a run, a spill file with some content keeps it after every round exactly when no pass got to the unelided entry of the file's index, with a shorter placeholder, and left anything else |
| TextCut.TruncateAtUtf8Boundary | cmd/agent-runner/output_limits.go:20-29 | the back-off loop gives the same prefix as the back-off specification the result clamp shares |
| TextCut.TruncateToolOutput | cmd/agent-runner/output_limits.go:31-37 | output over the cap becomes a prefix at most three bytes short of it and a notice naming the cap; other output is untouched |
| TextCut.ClampToolResult | cmd/agent-runner/context_policy.go:156-174 | for any bytes, the kept prefix is at most three bytes under the cap, and kept plus dropped is the input length |
| TextCut.BackOffKeepsPrefix | cmd/agent-runner/context_policy.go:164-169 | for any bytes, the back-off keeps a prefix and drops at most as many bytes as it has steps |
| TextCut.CutKeepsLongestPrefix | cmd/agent-runner/context_policy.go:148-169 | on valid UTF-8 the kept bytes are the longest prefix of whole characters within the cap (sections 3 and 4 of RFC 3629) |
| TextCut.StripMemoryMarkers | cmd/agent-runner/main.go:1013-1032 | the loop terminates on every input and gives the stripped text of its specification |
| TextCut.TrimExactly | cmd/agent-runner/main.go:1024-1031 | trimming takes off white space at both ends, nothing else, and all of it |
| TextCut.StrippedKeepsText | cmd/agent-runner/main.go:1017-1031 | a text without a start marker loses nothing but the white space around it |
| TextCut.StrippedCutsUnclosed | cmd/agent-runner/main.go:1022-1026 | from a start marker that nothing closes, the text is cut; what is before it stays, less white space around |
| TextCut.StrippedHasNoMarker | cmd/agent-runner/main.go:1013-1032 | what is left contains no start marker, even when deleting a block joins its sides into a new one or a marker is unclosed |
| TextCut.StrippedRemovesBlock | cmd/agent-runner/main.go:1028-1030 | removing the first block keeps the text before and after it |
| Providers.OpenAIProvider.Chat | cmd/agent-runner/provider_openai.go:216-328 | a reply adds an assistant message exactly when it has calls, structured or recovered; the conversation changes as the abstract chat says |
| Providers.OpenAIProvider.AddToolResults | cmd/agent-runner/provider_openai.go:330-334 | one tool message for each result, in order |
| Providers.OpenAIProvider.ReplaceToolResults | cmd/agent-runner/provider_openai.go:341-356 | the loop over flat tool messages is the abstract replacement: order, call IDs and all other messages stay |
| Providers.OpenAIProvider.AddUserMessage | cmd/agent-runner/provider_openai.go:360-365 | one user message, or none for an empty text |
| Providers.AnthropicProvider.Chat | cmd/agent-runner/provider_anthropic.go:205-299 | the assistant turn is recorded exactly when the reply stopped for tools and calls some |
| Providers.AnthropicProvider.AddToolResults | cmd/agent-runner/provider_anthropic.go:301-307 | one user message with one block for each result, in order, error flags kept |
| Providers.AnthropicProvider.ReplaceToolResults | cmd/agent-runner/provider_anthropic.go:318-336 | the nested loops rewrite block contents only: messages, block order, call IDs and error flags stay |
| Providers.NestedReplacementRefines | cmd/agent-runner/provider_anthropic.go:318-336 | replacing nested blocks is the same abstract replacement the flat provider makes |
| Providers.AnthropicProvider.AddUserMessage | cmd/agent-runner/provider_anthropic.go:342-347 | one user message, or none for an empty text |
| Providers.BlocksInOrder | cmd/agent-runner/provider_anthropic.go:239-247 | text and calls are read off the blocks of a reply one after the other, and off text and tool-use blocks only |
| RunAnswers.ReplyTold | cmd/agent-runner/provider_openai.go:254-327 | what a reply counts as: the content, or the reasoning when there is none; the structured calls, or the recovered ones only when there is no content either; and its two token counts |
| AgentLoop.RunTools | cmd/agent-runner/provider.go:315-336 | the calls of a round run in order, each output clamped and recorded in results and ledger alike, and flagged exactly when it starts with the error prefix |
| AgentLoop.ChatRound | cmd/agent-runner/provider.go:218-310 | one request: totals, the budget check, the text so far and the answer of a stopped run |
| AgentLoop.PlayRound | cmd/agent-runner/provider.go:204-356 | one turn of the loop leaves provider, ledger, files and totals as one round of the specification |
| AgentLoop.RunAgentLoop | cmd/agent-runner/provider.go:164-360 | the program, on one live provider and the files, ends in the state and with the answer of the specification run, fails exactly when that had no reply or ran out of rounds, and what that run comes to is told by `RunAnswers.LoopIsTold` |
| RunAnswers.RunIsTold | cmd/agent-runner/provider.go:204-356 | after any number of rounds, told by the replies and the outputs alone: a run went on exactly from the replies that came, asked for calls and left budget; its tokens are the sums of those replies' token counts, its tool calls the number of their calls, its rounds those calls, and its recorded results their outputs, clamped, each under its call, tool and round |
| RunAnswers.LoopIsTold | cmd/agent-runner/provider.go:204-360 | the loop runs out of rounds exactly when it goes on from every reply it is allowed; otherwise it stops on the first other one, with its tokens counted, as an error without a reply, a halt when the sum has reached the maximum, and an end when it asks for no calls |
| RunAnswers.AnswerIsTold | cmd/agent-runner/provider.go:265-310 | a halted run answers with the last reply, trimmed, or all that was said before, or the budget message; a finished one with the last reply as it is, or a note that there was none when something was said before, or nothing |
| RunAnswers.RequestsWithinBudget | cmd/agent-runner/provider.go:263-285 | under a budget that halts, every request but the first is made when the replies before it have used less than the maximum |
| LoopSafety.RunKeepsShape | cmd/agent-runner/provider.go:204-356 | at every request the history is exactly the seed followed by call rounds, each call answered by one result in order |
| LoopSafety.HaltedExactlyOnBudget | cmd/agent-runner/provider.go:160-162 | for a run that returns without error, the budget test on its returned totals holds exactly when it stopped on a budget halt |
| LoopSafety.LedgerCounts | cmd/agent-runner/context_policy.go:310-319 | in every reachable state, whatever the call IDs, the live count is the sum of the entry sizes |
| LoopSafety.LiveIsContentInHistory | cmd/agent-runner/provider.go:315-344 | with distinct call IDs, the live count is also the total length of this loop's results in the conversation |
| SentFirst.ElidedOnlyAfterSent | cmd/agent-runner/provider.go:315-344 | with call IDs that repeat at most within a round, a result that reads in the conversation as anything but what was inserted, or that the ledger has as elided, was carried verbatim by some request, however many parallel calls a round makes and whatever the policy |
| LoopSafety.ElisionIsRecoverable | cmd/agent-runner/context_policy.go:381-425 | with distinct call IDs, whatever writes failed before or after, an elided result reads as a bare placeholder or as one that names its own file, and that file holds the result as it was inserted |
| SentFirst.UnsentOverwrittenExactly | cmd/agent-runner/provider_openai.go:341-356 | whatever the IDs, no result of a round just run has been sent, and the round's pass overwrites it exactly when the ledger before the pass has an older entry of the same ID that the pass gets to and can shrink |
| RepeatedIds.RepeatedIdsLoseAResult | cmd/agent-runner/provider_openai.go:527-552 | recovered call IDs restart at zero each reply: two rounds with such a call end with the second result overwritten before any request carried it |
| Recovery.PlaceholderReadsBack | cmd/agent-runner/context_policy.go:381-425 | an elided result whose placeholder is not the bare one names its own file, and reading that file by following the page hints gives back the inserted result, less one final newline when it takes several requests, for results of lines shorter than the read cap |
| GateChain.WaitForGateVerdict | cmd/agent-runner/gate_park.go:234-271 | the polling loop gives the verdict, or gives up, as the specification over its wake-ups says |
| GateChain.WaitMeaning | cmd/agent-runner/gate_park.go:234-271 | a verdict comes out exactly when some poll finds it, signed for this run and for this attempt, before the context, the sentinel, the deadline or another verdict ends the wait |
| GateChain.DriveInPlaceGate | cmd/agent-runner/gate_park.go:131-204 | the program ends in the state of the chain specification that is the same for every larger number of attempts, with its totals, text and error, which are told by `ChainAnswers.ChainIsTold` and `ChainSafety.ChainIsSound` |
| ChainAnswers.ChainIsTold | cmd/agent-runner/gate_park.go:138-203 | in every reachable chain the text is what the last attempt that returned any returned, or empty when none did; every attempt but the last had its last word within budget and bound, was published and continued by a verdict; the last one failed, was halted, was the last permitted, could not be published, got no verdict or one that does not continue, exactly as the chain says; the published results are those attempts', with their numbers, texts and totals; and each attempt is the loop run on what those before it left |
| ChainAnswers.ReturnedIsTold | cmd/agent-runner/gate_park.go:142-152 | the text an attempt returns is empty when it ran out of rounds, and otherwise told by the reply it stopped on |
| ChainSafety.ChainKeepsShape | cmd/agent-runner/gate_park.go:131-204 | over a whole chain, with any replies, outputs, failed writes and verdicts, every request's history is exactly the seed followed by the answered call rounds and retry cards that had happened |
| ChainSafety.RequestsOfAttempts | cmd/agent-runner/gate_park.go:142-203 | a request of attempt i has seen exactly the first i cards, in order, and only non-empty rounds, and what the chain did later comes after |
| ChainSafety.ChainIsSound | cmd/agent-runner/gate_park.go:142-203 | attempts are published with consecutive numbers, once each; each attempt but the first follows a signed continue verdict for the one before, and its card; the totals are the sums over the attempts |
| ChainSafety.AttemptsBounded | cmd/agent-runner/gate_park.go:172-175 | with a positive bound a chain makes at most max(1, bound - first + 1) attempts, whatever the verdict files hold |
| ChainSafety.CardFollowsInput | cmd/agent-runner/provider_anthropic.go:338-347 | the history a retry card is added to ends with input to the model, or with a user turn, exactly when the seed does or calls were answered or a card with text was added since; the card is all that is added, so there is no assistant turn before it unless the seed ends with one |
| ChainSafety.CardMakesTwoUserTurns | cmd/agent-runner/provider_anthropic.go:338-347 | for any seed, a retry card comes right after another user turn or tool result exactly when it has text, and the seed ends with a user turn or calls were answered or a card with text was added since |
| ChainSafety.AnthropicMessageThenCard | cmd/agent-runner/provider_anthropic.go:338-347 | an Anthropic chain that goes on: any first message answered at once and a continue verdict leave a history of the message and the card, two user turns in a row |
| ChainSpill.LaterAttemptOverwritesFile | cmd/agent-runner/provider.go:173-190 | under any directory, a chain of two attempts with distinct call IDs and no failed write after which the placeholder of the first attempt's result names a file that holds the second attempt's result |
| RunPasses.PlaceholderHoldsExactly | cmd/agent-runner/provider.go:173-190 | along a chain, the file a placeholder of one attempt names holds the whole result when that attempt is over, and from then on exactly as long as no later attempt's pass gets to its own entry of the same index and leaves anything else |
| ReadFile.ReadFileTool | cmd/agent-runner/tools.go:497-543 | the byte-level cut at the last newline under the cap is the page told by whole lines: the most lines that fit, the offset to continue with, or the line that is too long |
| ReadFile.LinesExactly | cmd/agent-runner/tools.go:512-516 | the lines of a file are the only texts without newlines that make it up when joined, one final newline left out |
| ReadFile.PageExactly | cmd/agent-runner/tools.go:508-542 | the file as it is when no page was asked for and it fits; an error past its last line; all lines asked for when they fit under the cap, with a hint exactly when more follow; otherwise as many whole lines as fit, or the start of a line that does not |
| ReadFile.HintIsPrinted | cmd/agent-runner/tools.go:530-541 | what is printed starts with the page's text and, when more is to come, ends with the offset to continue with |
| ReadFile.CutKeepsLinesThatFit | cmd/agent-runner/tools.go:526-536 | cutting joined lines at the last newline under the cap keeps exactly the lines that fit, and counting newlines numbers the last of them |
| ReadFile.HintAdvances | cmd/agent-runner/tools.go:534-541 | a continuation hint names a later line that exists, so following hints terminates on every file |
| ReadFile.FollowCovers | cmd/agent-runner/tools.go:497-543 | the pages of a reader who follows the hints, with any limits, are consecutive runs of whole lines: none lost, repeated or split |
| ReadFile.PagesJoinToFile | cmd/agent-runner/tools.go:497-543 | unless a line sticks, the pages' lines joined are the file, less one final newline when it took more than one request |
| ReadFile.SticksExactlyOnLongLines | cmd/agent-runner/tools.go:526-532 | without limits, reading gets stuck exactly when some line is longer than the cap, or as long as the cap and not the last |
| ReadFile.PagesOfShortLines | cmd/agent-runner/tools.go:497-543 | a file whose lines are all shorter than the cap comes back from its pages, whatever the limits |
| Pieces.ScanClaims | cmd/agent-runner/edit_tool.go:249-264 | the left-to-right scan gives disjoint occurrences in order, and every occurrence starts inside one of them |
| Pieces.ScanIsUnique | cmd/agent-runner/edit_tool.go:249-264 | no other list does |
| EditTool.LineHits | cmd/agent-runner/edit_tool.go:249-264 | the loop that looks on after each match reports the lines of the scan that is counted |
| EditTool.HitLinesOfScan | cmd/agent-runner/edit_tool.go:249-264 | the reported lines are, one for one, those of the occurrences counted and replaced |
| EditTool.LineHoldsOffset | cmd/agent-runner/edit_tool.go:241-246 | the line number reported for an offset is that of the line of the text that holds it |
| EditTool.SingleEdit | cmd/agent-runner/edit_tool.go:145-166 | a single edit is accepted exactly when its text occurs, with every occurrence starting inside one of them; it changes that match only |
| EditTool.RefusedExactly | cmd/agent-runner/edit_tool.go:136-154 | an edit is refused as empty, as identical, as not found exactly when its text occurs nowhere, and as ambiguous exactly when not every occurrence was meant and there are two that do not overlap; the refusal then counts and lists the lines of the disjoint occurrences that cover all others |
| EditTool.ReplaceAllExactly | cmd/agent-runner/edit_tool.go:156-161 | an edit of every occurrence is accepted exactly when there is one; its record has the line of the first and counts the disjoint occurrences that cover all others |
| EditTool.EditKeepsPieces | cmd/agent-runner/edit_tool.go:156-161 | an accepted edit keeps the pieces between the old texts and joins them with the new one; there is one more piece than replacements reported |
| EditTool.ApplyEdits | cmd/agent-runner/edit_tool.go:123-170 | the loop is the left fold of the one-edit specification |
| EditTool.BatchFailsExactly | cmd/agent-runner/edit_tool.go:123-170 | a batch fails at an edit, with a reason, exactly when the edits before it went through and it fails so on the text they left |
| EditTool.BatchLength | cmd/agent-runner/edit_tool.go:156-166 | the result is longer by count times the difference in length, summed over the edits |
| EditTool.BatchRecords | cmd/agent-runner/edit_tool.go:123-170 | a batch that is done records every edit in order as it was asked |
| EditTool.RunEdits | cmd/agent-runner/edit_tool.go:69-113 | the file holds the batch's result, or what it held before: all or nothing |
| SlackGate.ThreadEngagement.Update | channels/slack/gating.go:160-171 | one locked update changes the state under its key, made if missing, and no other thread's |
| SlackGate.EvaluateInbound | channels/slack/gating.go:222-303 | the handler on the shared map of thread objects does and decides what the specification says of the threads as values |
| SlashKeys.SharedExactly | channels/slack/gating.go:146-148 | two pairs of a chat and a timestamp share a key exactly when they are the same, or one chat is the other, a slash and some x, and the other timestamp is x, a slash and the one's |
| SlackThreads.OwnerFollowsTrace | channels/slack/gating.go:222-303 | a thread's owner is the sender of the first message related to it with access, trigger and a non-empty sender, and of no other |
| SlackThreads.OwnerStays | channels/slack/gating.go:116-123 | an owner never changes and an interruption never clears |
| SlackThreads.InterruptedExactly | channels/slack/gating.go:241-252 | a thread is interrupted exactly when some message in it came from another sender after it was opened, even one that access control dropped |
| SlackThreads.AcceptedExactly | channels/slack/gating.go:222-303 | told by the trace alone: a message passes exactly when its sender has access and either the trigger rules are met or, in a thread, its sender opened it and nobody else came in since |
| SlackThreads.ReasonExactly | channels/slack/gating.go:222-303 | told by the trace alone, each of the seven reasons a message passes or is dropped for |
| SlackThreads.GateRules | channels/slack/gating.go:78-112 | access and trigger rules, told by the lists, the kind of channel and whether the text mentions the bot somewhere |
| SlackThreads.ThreadsIndependent | channels/slack/gating.go:222-303 | a thread's state is what it would be had only its own messages come in |
| SlackInterleaving.AloneIsEvaluate | channels/slack/gating.go:222-303 | the step-by-step handler, run alone, does what the sequential gate does |
| SlackInterleaving.NeverOverwritten | channels/slack/gating.go:150-171 | under every interleaving an owner once written is never overwritten and an interruption never clears |
| SlackInterleaving.AlwaysSound | channels/slack/gating.go:222-303 | under every interleaving a decided message is accepted exactly when it has access and meets the trigger rules or is let through as coming from the owner of its thread, and only from the owner is it let through so |
| SlackInterleaving.InterruptedNeedsTrigger | channels/slack/gating.go:116-123 | under every interleaving, once a thread is interrupted, a message whose handler has not yet found it uninterrupted is accepted exactly when it has access and meets the trigger rules, the owner's included |
| SlackInterleaving.AlwaysExplained | channels/slack/gating.go:236-302 | under every interleaving an owner is the sender of an accepted message that met access and trigger rules |
| SlackInterleaving.AlwaysAccounted | channels/slack/gating.go:236-252 | under every interleaving, at any time, an interrupted thread has an owner, and a handler of another sender looked for the owner after the claim |
| SlackInterleaving.InterruptedExactlyWhenNoticed | channels/slack/gating.go:236-252 | under every interleaving, once all handlers have finished, a thread is interrupted exactly when a handler of another sender than its owner looked for the owner after the claim |
| SlackInterleaving.RaceGoesUnnoticed | channels/slack/gating.go:236-279 | two handlers that look at a new thread before either claims it are both let through as claims and leave it uninterrupted, which neither order one after the other does |
| SlackInterleaving.IntruderLatches | channels/slack/gating.go:236-252 | under every interleaving a message from another sender that has not been past the first look at the owner when the thread is owned has interrupted it by the time it is decided |
| ReservationLedger.ModelLedger.Reserve | cmd/celln-authorisation-fixture/ledger.go:14-33 | the call answers and changes the ledger as its specification says, 64-bit sums wrapping around |
| ReservationLedger.AlwaysBalanced | cmd/celln-authorisation-fixture/ledger.go:14-33 | over any calls whose outputs fit, the caps stay as given and neither is ever exceeded, the run has used the sum of its turns, and requests used are the reservations |
| ReservationLedger.UsageIsAccepted | cmd/celln-authorisation-fixture/ledger.go:20-31 | run usage is the total of the accepted calls, and each turn's the total of its own |
| ReservationLedger.OnlyAcceptedMatter | cmd/celln-authorisation-fixture/ledger.go:14-33 | leaving out every call that was not accepted gives the same final state |
| ReservationLedger.RepeatsExactly | cmd/celln-authorisation-fixture/ledger.go:15-21 | a repeat is recovered exactly when an earlier call was accepted under its key with its digest, and a conflict exactly when with another |
| ReservationLedger.DigestFixed | cmd/celln-authorisation-fixture/ledger.go:15-27 | the digest of a reserved key never changes |
| ReservationLedger.ExhaustedIsFinal | cmd/celln-authorisation-fixture/ledger.go:23-25 | after a refusal for the budget, no later call of the turn that asks for as much is accepted |
| ReservationLedger.RefusalExactly | cmd/celln-authorisation-fixture/ledger.go:23-25 | from a balanced state a new call is refused exactly when it would break a cap |
| SlashKeys.SlashFreeInjective | cmd/celln-authorisation-fixture/ledger.go:15-15 | keys tell (turn, request) pairs apart when turn IDs have no slash, and (chat, thread) pairs when chat IDs have none, or timestamps have none |
| ReservationLedger.BreaksCapExactly | cmd/celln-authorisation-fixture/ledger.go:23-25 | for any output up to the largest 64-bit integer, a call that breaks a cap is accepted exactly when its key is new, requests are left, a sum overflows and the other does not show an excess |
| ReservationLedger.OverflowIsAccepted | cmd/celln-authorisation-fixture/ledger.go:23-25 | two calls are enough: after one token, an output of the largest 64-bit integer is accepted |

## Left out

- CanonicalizeJson.Canonicalize: `json.Decoder` is an arbitrary function from bytes to a listing, because its lexing (white space, escapes, number syntax, the depth limit) is not part of this model.
- CanonicalJson.Buffer.AppendCanonical: the buffer holds scalar values that are encoded when the bytes are read; `ByteText.Utf8Append` is the reason this is the same as encoding each as it is written.
- CanonicalizeJson.CanonicalizeTwice: asks that the decoder read canonical bytes as the listing they print, because the decoder is arbitrary; that the bytes pass every other check is proved (`CanonicalizeJson.CanonicalBytesAccepted`).
- GateChain.DriveInPlaceGate: the script of wake-ups is finite and a cancelled context follows it, because a wait that is never ended does not return; attempt timeouts are part of the arbitrary outcome of a loop.
- GateChain.WaitForGateVerdict: verdict decoding and signature checking are one arbitrary partial function of the file's bytes, because `internal/ipc` is not part of this model; the retry card's text is an arbitrary function too.
- ReadFile.ReadFileTool: starts from the file's contents; path resolution and read errors are not modelled, and an offset too large for an integer is not either.
- SlackGate.EvaluateInbound: the last-seen time and eviction are not modelled, so "never" means until the entry is evicted.
- SlackInterleaving.NeverOverwritten: a read of a field is one step; the torn reads Go allows a data race are not modelled.
- LoopSafety.ElisionIsRecoverable: nothing but the loop's own passes writes under the spill directory in the model, though a tool could.
- Recovery.PlaceholderReadsBack: the same, and for one loop call only, because a later attempt can overwrite the file (`RunPasses.PlaceholderHoldsExactly` says when it does).
- SentFirst.ElidedOnlyAfterSent: asks that call IDs repeat at most within a round, because otherwise a result can be lost (`RepeatedIds.RepeatedIdsLoseAResult`).
- EditTool.RunEdits: the temporary file and the rename are one write that succeeds or changes nothing; the texts of the error messages and of the rendered diff are not modelled.
- ReservationLedger.AlwaysBalanced: asks for outputs that fit, because sums wrap around otherwise (`ReservationLedger.BreaksCapExactly`).
- Token totals and byte counts of the agent loop are unbounded integers.
- Recovery of calls from reasoning text by regular expressions: its result is arbitrary; only the repetition of IDs is kept.
- `Prompt`, `ResetContext`, request parameters and sampling, the Bedrock provider, telemetry, logging and clocks.
- Which tools a run has, and hence whether spilling is configured: a parameter.
- SHA-256 of canonical bytes, and strict decoding into Go structures.
- Kubernetes types, controllers, origin matching, the other channels and the web and installation code: they would add only easy members or rest on libraries outside the model.
