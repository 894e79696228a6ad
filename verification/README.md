# CodeSage: machine-checked models of its protocols and measuring tools

Dafny models of the parts of CodeSage in which state, ordering or arithmetic decide correctness, with
proofs of what those parts promise. `dafny verify dfyconfig.toml` checks everything in a minute or two.

| file | what it models |
|---|---|
| `Prelude.dfy` | definitions the models share |
| `BatchPlanner.dfy` | splitting an indexing batch into daemon calls |
| `DaemonLog.dfy`, `DaemonEmbedder.dfy` | the client that embeds through the daemon: retries, reconnects, bypass, private fallback |
| `GraphPass.dfy` | the ONNX script's dead-node elimination and topological sort |
| `Lexis.dfy`, `JsStripper.dfy`, `PhpStripper.dfy` | blanking comments and literals |
| `TextPieces.dfy`, `JsPieces.dfy`, `PhpPieces.dfy` | sources written as code and closed literals, and what is left of them |
| `PhpHeredocs.dfy`, `PhpMentions.dfy`, `ImpactOracle.dfy` | heredocs that blanking uncovers, mentions it invents, and the reference sets scored from the result |
| `BriefGate.dfy`, `BriefGateProcesses.dfy` | the per-session brief budget: one decision, and many processes sharing its file |
| `PairedComparison.dfy`, `Pager.dfy` | the paired benchmark statistics and acceptance gate; byte-budget pages |
| `DaemonIdentity.dfy`, `Succession.dfy` | pid files, control frames, and which daemon may reap which |
| `RegexSyntax.dfy`, `GlobRegex.dfy`, `GlobReadBack.dfy` | translating exclude globs to regular expressions, and how the text written is read back |

## What the theorems say

**Embedding through the daemon.** The daemon, the connection, the clock and the private embedder are an
arbitrary oracle (`World`); a ghost log records every interaction. `DaemonEmbedder.Valid` ties each field
of the client to that log: `sessionLost`, `busyBatches` and `bypass` are exactly what the history implies,
and the log is `Lawful`. So over every run: no call on a lost session; no call or connection attempt once
a batch timed out or two batches in a row were saturated; every call attests the bound fingerprint and
respects the caps; the private embedder is loaded at most once, and is given only texts of a batch that
just failed, texts no call may carry, or anything after the bypass; loading it is bound by the same rule.
`EmbedBatch` returns, in order, the vectors of the attested fingerprint, and it succeeds exactly when
everything logged was fine and the private embedder, if it was called for, is loaded; with nothing that
calls for it, exactly when the daemon did its part. An error is what the log ends with, or the lack of a
private embedder that was called for. The retry loop is proved equal to a function of the world (`Try`).
From it: a batch makes at most `retries + 1` calls, each given its attempt's time or what the budget
leaves, with the sleeps the policy asks for in between; it gives up on a transient failure only when all
retries were made, when the next sleep would leave no worthwhile time, or when reconnecting used up all
the time there was for it; and under a safe policy it takes its budget and whatever the world overran the
times it was given; against a world that never overruns, safe policies are exactly those under which the
budget holds. A plan of n calls costs at most n times that, however its batches end.

**The graph pass.** The nodes that survive pruning are the largest set that keeps itself alive; on acyclic
graphs these are the nodes from which some output is reachable. Sorting fails exactly when no order
exists. Running the result gives every graph output the value it had before. A graph that was a
well-formed program in some order never fails.

**Stripping.** The recursive cursor lexers are proved equal to reference definitions. A source written as
code and closed literals (comments, strings, regular expressions, templates with nested expressions,
heredocs) keeps exactly its code, so whatever its code mentions is mentioned in the stripped text. Any
output is the input with some characters blanked at word boundaries. JavaScript output is a fixed point,
and the fixed points are described exactly; PHP output is one exactly when the source holds no `<<<` and
tag as code with only blanks and literals around the tag on its line. A file in the code-only set is also
in the raw set for every symbol without a loose gap, a space followed by a space or line break. In either
language stripping invents no mention of a symbol exactly when it has no loose gap or cannot stand in
stripped code at all.

**The brief gate.** The two compact maps decide as a scan of the whole served history would. Under every
interleaving of processes, with crashes and with replacements that fail after taking effect, every fire
the file records was served, is lost to a late failure, or is pending; so what was served costs no more
than the file records, and exactly that much if and only if nothing is lost or pending. A brief is refused
exactly when the budget, an earlier one of the same digest, or the cooldown says so; one changed byte
changes the digest. Nothing is served twice, and two serves of one path are a cooldown apart whatever the
clock does.

**Measuring.** The pooled delta does not depend on the clustering, the scaled-integer bootstrap is the
exact rational statistic, the quantiles are attained draws with exact counts around them. A comparison
refuses, accepts or rejects exactly as stated on the scores themselves, the veto of every name included,
and two arms can never both be accepted over each other. A page is the first bytes of the row stream, no
more and no less; control rows come in whole passes over all files.

**Daemons.** Pid files round-trip, older ones that hold only a number are read as that pid, a nonce is
never lost in reading, control frames are injective, so a stop reaches only the daemon whose record it was
built from. Reaping never empties the set of live daemons, and a running daemon keeps its files.

**Globs.** The expression meant by a pattern accepts exactly the paths a direct matcher accepts. The text
written for it is read back as that expression if and only if every bracket reached, branches included,
negates something when it negates and holds no reversed range; for those patterns the compiled filter is
the direct matcher, save that it forgives one final line break.

## Where the code and its text disagree

- `bench/impact-oracle.py:78-80` says length and line structure are preserved. An unterminated block
  comment adds two characters at the end (97-103) and an escaped line break inside a string becomes a
  space (109-115). The model follows the code: two inputs on which the claim fails
  (`ImpactOracle.JsPositionsAreNotAlwaysPreserved`), and exactly when it holds
  (`JsStripper.WhenPositionsArePreserved`).
- `bench/self-eval.py:312-320` says `[...]` passes through as a character class and a leading `!` becomes
  `^`. Looking for the closing bracket at least one character in (353), the code takes `[!]` and `[^]` for
  whole brackets and writes `[^]`, whose closing bracket Python's `re` reads as the first member of a class
  that goes on: `[!]a[b]` accepts the path `z` (`GlobReadBack.EmptyNegationIsMisread`), and `[!]` with no
  bracket after it is rejected (`GlobReadBack.EmptyNegationAloneIsRejected`). A reversed range is rejected,
  too. The model follows the code and says exactly which patterns are read as meant
  (`GlobReadBack.CompilesAsMeantExactlyWhenWellBracketed`).

## What is assumed

- A daemon session answers as `crates/cli/src/mcp/state.rs:626-642` demands (`DaemonLog.Serve`, from
  which `DaemonLog.SessionsAreHonest` derives what the client needs), and a private embedder that accepts
  a fingerprint produces its vectors. Only the clause about which vectors come back needs this
  (`DaemonEmbedder.Honest`); order, counts, dimensions, budgets and the laws of the log do not.
- The client's own steps take no time, and a sleep lasts at least as long as asked. Calls, connections
  and sleeps may take any time; the bounds then carry the overrun. Time spent in the private embedder is
  not counted.
- Which characters are letters, digits or white space is a parameter, restricted to ASCII facts the
  strippers and the parser rely on (`Lexis.Sane`, `DaemonIdentity.Plain`).
- A daemon's files are validated exactly when that daemon is running.
- Random draws, shuffles and choices are arbitrary. SHA-256 is a function of the bytes it is fed. Python's
  sort is a proved insertion sort. The least common multiple is any common multiple. Scores are exact reals.
- The text of a regular expression is read as Python's `re` reads it, for the syntax the translation writes
  (`RegexSyntax`); text that breaks or goes beyond that syntax is not read. Matching knows no flags.
- A graph node reads its listed inputs only, and a node's outputs depend on nothing else: operators whose
  subgraphs capture outer names are outside the graph model.

## Model

| member | source | states |
|---|---|---|
| BatchPlanner.Plan | crates/cli/src/daemon_embed.rs:536-562 | the loop yields a greedy split of the in-cap texts, each batch closed only because the next text broke a cap, and sets aside exactly the texts over the per-text cap, in order |
| BatchPlanner.GreedyIsOptimal | crates/cli/src/daemon_embed.rs:536-562 | no order-preserving split of the in-cap texts that respects the caps uses fewer calls |
| BatchPlanner.GreedyStaysAhead | crates/cli/src/daemon_embed.rs:548-557 | after k groups, no split within the caps has used up more texts than the plan has |
| BatchPlanner.GreedyRespectsCaps | crates/cli/src/daemon_embed.rs:548-554 | every batch is within both caps if and only if every text that is sent would fit a call alone |
| BatchPlanner.PlanPartitions | crates/cli/src/daemon_embed.rs:542-561 | every index occurs exactly once over all batches and the texts set aside |
| DaemonLog.Interpret | crates/cli/src/daemon_embed.rs:438-479 | a call succeeds if and only if it was completed with one vector for each text; each kind of transient failure, each refusal and each loss of the session comes from exactly the replies that mean it |
| DaemonLog.SessionsAreHonest | crates/cli/src/mcp/state.rs:626-642 | if every answer came from some session that makes this check, answers given under an attested fingerprint are that fingerprint's vectors, in order |
| DaemonLog.BypassStep | crates/cli/src/daemon_embed.rs:601-657 | the client's counter and flag rule step by step agrees with the history: some batch timed out or two in a row were saturated |
| DaemonLog.NothingAfterBypass | crates/cli/src/daemon_embed.rs:600-612 | once the history calls for the bypass it always will, and nothing later in a lawful run reaches for the daemon |
| DaemonLog.BudgetHoldsExactlyForSafePolicies | crates/cli/src/daemon_embed.rs:332-399 | against every world that keeps to the times it is given, whatever it answers, a batch stays within its budget if and only if attempts are asked some time, backoff is zero, or the longest run of reconnects, calls and sleeps fits the budget |
| DaemonLog.SlowestTry | crates/cli/src/daemon_embed.rs:332-399 | the world that uses up every time it is given drives a batch past its budget whenever that longest run does not fit |
| DaemonLog.TryKeepsTime | crates/cli/src/daemon_embed.rs:332-399 | from any point of a batch that is on time, the rest of it ends within the budget and what the world overran |
| DaemonLog.TryKeepsLaws | crates/cli/src/daemon_embed.rs:332-399 | from any point between two attempts: one request throughout, every call but the last failed transiently, each call given an attempt's time or what the budget leaves, a sleep of one more backoff after each, at most retries + 1 calls; and a transient failure is reported only after all of them, when budget less elapsed time less the next backoff is under a worthwhile attempt, or when every connection failed until the time for reconnecting was up |
| DaemonLog.BatchKeepsLaws | crates/cli/src/daemon_embed.rs:332-399 | the same for a whole batch, with its time bound under safe policies |
| DaemonLog.DefaultBatch | crates/cli/src/daemon_embed.rs:31-47 | with the shipped constants a batch makes at most three calls and takes at most 240 s and what the world overran |
| DaemonLog.ReopenKeepsTime | crates/cli/src/daemon_embed.rs:482-501 | connections and short waits, each given what remains, until one succeeds or the time granted is used up |
| DaemonLog.SpendsOn | crates/cli/src/daemon_embed.rs:597-668 | over any stretch of a run the number of batches that ended bounds the calls made and the time taken |
| DaemonClient.ReopenSession | crates/cli/src/daemon_embed.rs:482-501 | connection attempts go on until one succeeds or the time granted is used up, each within what remains; the log is exactly the specified one |
| DaemonClient.DaemonEmbedder.BindFingerprint | crates/cli/src/daemon_embed.rs:567-581 | a fingerprint is bound if and only if it is the one the daemon reported; a refusal changes nothing |
| DaemonClient.DaemonEmbedder.LoadFallback | crates/cli/src/daemon_embed.rs:287-305 | only for texts that may go private now; loading succeeds exactly when the fallback is loaded, or was still to be tried, starts and accepts the bound fingerprint; it is tried at most once in a run |
| DaemonClient.DaemonEmbedder.PrivateEmbed | crates/cli/src/daemon_embed.rs:287-326 | vectors of the bound fingerprint, one for each text and of the daemon's dimension, or the error the log ends with; only for texts that may go private now |
| DaemonClient.DaemonEmbedder.Reconnect | crates/cli/src/daemon_embed.rs:339-373 | a lost session is replaced within its share of the budget, or the attempts end as specified |
| DaemonClient.DaemonEmbedder.Attempt | crates/cli/src/daemon_embed.rs:374-397 | one call, the session's fate, and the wait before the next call, as specified |
| DaemonClient.DaemonEmbedder.CallWithRetries | crates/cli/src/daemon_embed.rs:332-399 | the loop logs and reports exactly what the specification says the world makes of it; hence the laws of a batch, a due retry always made among them, and its budget under every safe policy |
| DaemonClient.DaemonEmbedder.EndDaemonBatch | crates/cli/src/daemon_embed.rs:601-657 | the counter is the trailing run of saturated batches and the bypass is set exactly when the history calls for it |
| DaemonClient.DaemonEmbedder.AskDaemon | crates/cli/src/daemon_embed.rs:600-668 | a batch ends in vectors of the right size, in an abort its last call explains, or in a failure the fallback may cover; its attempts keep all the laws and bounds of a batch, and all it logs is about these texts |
| DaemonClient.DaemonEmbedder.EmbedChunk | crates/cli/src/daemon_embed.rs:597-668 | the daemon is asked exactly when it is not bypassed, the private embedder exactly when the daemon failed or is bypassed; the result is the chunk's vectors or the error the log ends with |
| DaemonClient.DaemonEmbedder.EmbedBatch | crates/cli/src/daemon_embed.rs:583-694 | the vectors of all texts in order under the bound fingerprint, every slot filled once; it succeeds if and only if all that was logged is fine and the private embedder, if called for, is loaded, and whenever the daemon did its part and nothing calls for the private embedder; errors are what the log ends with; planned calls come first and texts too long for them after; without a bypass every planned call is put to the daemon; a plan of n calls makes at most n (retries + 1) attempts and takes at most n budgets and what the world overran |
| DaemonClient.DaemonEmbedder.Verdict | crates/cli/src/daemon_embed.rs:583-694 | from what the log shows: success if and only if every answer fits, no fingerprint moved, the private embedder did its work, and it is loaded if a batch failed, the daemon is bypassed or a text is too long |
| DaemonClient.DaemonEmbedder.BlameIsDeserved | crates/cli/src/daemon_embed.rs:583-694 | an error about the daemon is reported only when one of its answers does not fit |
| DaemonClient.PlanTexts | crates/cli/src/daemon_embed.rs:589-596 | with the daemon's caps every planned batch may be sent, and the texts set aside are exactly those no call may carry |
| GraphPass.SurvivorsAreTheLargestSelfSupportingSet | scripts/derive-jina-onnx.py:133-142 | a node survives if and only if it belongs to some set of nodes each feeding an output or another member; all its copies survive with it |
| GraphPass.AcyclicSurvivorsAreTheReachingNodes | scripts/derive-jina-onnx.py:133-142 | on acyclic graphs a node survives if and only if some graph output is computed from it |
| GraphPass.ArrangedSurvivorsAreTheReachingNodes | scripts/derive-jina-onnx.py:133-142 | the same for graphs that have some single-assignment order |
| GraphPass.RemoveFirstDead | scripts/derive-jina-onnx.py:139-142 | removing nodes one by one, by value, removes exactly the dead ones |
| GraphPass.PruneIgnoresTheArrangement | scripts/derive-jina-onnx.py:133-142 | which nodes survive does not depend on the order they are listed in |
| GraphPass.SortFailsOnlyWithoutAnOrder | scripts/derive-jina-onnx.py:143-153 | the passes fail if and only if the nodes have no topological order; otherwise the result is one, and a permutation |
| GraphPass.PruningAndSortingKeepsTheMeaning | scripts/derive-jina-onnx.py:131-155 | any assignment solving all node equations agrees, on every graph output, with running the pruned and sorted nodes |
| GraphPass.WellFormedGraphsKeepTheirOutputs | scripts/derive-jina-onnx.py:131-155 | nodes that were a program in some order are always sorted, and the result computes the same outputs |
| GraphPass.Graph.DropDead | scripts/derive-jina-onnx.py:133-142 | the removal loop, working in place, reaches the fixpoint |
| GraphPass.Graph.PruneAndSort | scripts/derive-jina-onnx.py:131-155 | the node list becomes the sorted survivors, or the pass reports that they cannot be sorted |
| GraphPass.SortInPasses | scripts/derive-jina-onnx.py:144-153 | the repeated passes compute the specified order |
| Lexis.HitCarriesOver | bench/impact-oracle.py:338-343 | in any text blanked at word boundaries with wide gaps, a whole-word hit of a tight symbol is a hit at the same place in the raw text |
| JsStripper.StepKeeps | bench/impact-oracle.py:84-176 | every step only blanks, cuts at word boundaries, and keeps no slash or quote that could open a literal |
| JsStripper.SlashStays | bench/impact-oracle.py:140-143 | a slash kept inside a nested template expression still divides when judged by everything before it |
| JsStripper.LookBackIsLocal | bench/impact-oracle.py:62-74 | looking back over more text finds the same token whenever the nearer text has one and starts after a blank |
| JsStripper.LookBackFinds | bench/impact-oracle.py:62-74 | behind any white space the token found is the whole word that stands there, or the one other character |
| JsStripper.StripOnlyBlanks | bench/impact-oracle.py:84-176 | every output character is the source's at that position or a space, at most two more at the end, no word is cut, no blank stands alone |
| JsStripper.StripInventsNoMention | bench/impact-oracle.py:338-343 | for a symbol without a loose gap, a whole-word mention in stripped JavaScript is one in the source |
| JsStripper.StripIsClean | bench/impact-oracle.py:84-176 | the output holds no quote, backtick or comment opener, and every slash in it is judged to divide |
| JsStripper.CleanIsUnchanged | bench/impact-oracle.py:84-176 | text is left alone if and only if nothing in it opens a literal or comment |
| JsStripper.StripIsIdempotent | bench/impact-oracle.py:84-176 | stripping twice is stripping once |
| JsStripper.WhenPositionsArePreserved | bench/impact-oracle.py:77-176 | length is preserved if and only if no block comment is left open and no regular expression ends the text with a backslash; line breaks stay if and only if no string or regular expression escapes one |
| JsStripper.LastToken | bench/impact-oracle.py:62-74 | the backwards loops find the last token that is not white space |
| JsStripper.StripCode | bench/impact-oracle.py:84-176 | the recursive lexer, including template expressions, follows the flat reference lexer state by state and terminates |
| JsStripper.StripJs | bench/impact-oracle.py:77-81 | the result is the reference lexer's |
| JsPieces.CodeIsKept | bench/impact-oracle.py:84-176 | a source written as code, comments, strings, regular expressions and templates with nested expressions keeps its code and shows blanks for the rest, template by template and line break by line break |
| JsPieces.LiteralBetween | bench/impact-oracle.py:84-176 | one closed literal between two texts, clean with it blanked: the texts stay and the literal is blanked |
| JsPieces.CodeMentionsStay | bench/impact-oracle.py:338-343 | a whole-word mention in the code between literals, or in a template's expression, is one in the stripped text |
| PhpStripper.StripOnlyBlanks | bench/impact-oracle.py:179-227 | as for JavaScript, and every line break stays where it was |
| PhpStripper.StripInventsNoMention | bench/impact-oracle.py:338-343 | for a symbol without a loose gap, a whole-word mention in stripped PHP is one in the source |
| PhpStripper.LiteralCutsAtBoundaries | bench/impact-oracle.py:179-227 | literals, heredocs included, start and end at word boundaries |
| PhpStripper.PlainIsUnchanged | bench/impact-oracle.py:179-227 | text is left alone if and only if no comment, string or heredoc opens anywhere in it |
| PhpStripper.OnlyHeredocsOpenInTheOutput | bench/impact-oracle.py:179-227 | stripped PHP holds no quote and no comment opener; only a heredoc can still open in it |
| PhpStripper.StripIsIdempotentExactlyWithoutHeredocs | bench/impact-oracle.py:179-227 | stripping again changes nothing if and only if no heredoc opens in the output |
| PhpStripper.StripIsNotAlwaysIdempotent | bench/impact-oracle.py:207-223 | a source whose blanked comment uncovers a heredoc opener |
| PhpHeredocs.StripIsIdempotentExactly | bench/impact-oracle.py:179-227 | stripping twice is stripping once if and only if the source nowhere holds `<<<` and a tag as code with nothing but blanks and literals before the tag, and nothing but those between the tag and the end of its line |
| PhpHeredocs.OpenerIsLocal | bench/impact-oracle.py:207-213 | whether a heredoc opens, and where its body starts, depends on the opener's own characters alone |
| PhpHeredocs.OutputReads | bench/impact-oracle.py:179-227 | a position of the output holds the source's character exactly when the scan comes by it as code, otherwise its blank |
| PhpStripper.StripPhp | bench/impact-oracle.py:179-227 | the loop computes the specified text |
| PhpPieces.CodeIsKept | bench/impact-oracle.py:179-227 | a source written as code, comments, strings and labelled heredocs keeps its code and shows blanks and line breaks for the rest |
| PhpPieces.LiteralBetween | bench/impact-oracle.py:179-227 | one closed literal between two texts that open nothing: the texts stay and the literal is blanked |
| PhpPieces.CodeMentionsStay | bench/impact-oracle.py:338-343 | a whole-word mention in the code between literals is one in the stripped text |
| PhpMentions.OutputIsCoverable | bench/impact-oracle.py:179-227 | in stripped PHP no string and no comment opens, and a heredoc only where a literal was blanked inside its opener |
| PhpMentions.CoverableIsStripped | bench/impact-oracle.py:179-227 | conversely each such text is the stripped form of a source without loose gaps: empty strings and empty comments put back |
| PhpMentions.MentionedSymbolsStand | bench/impact-oracle.py:338-343 | a symbol mentioned in stripped PHP is such a text in any surroundings |
| PhpMentions.StrippingInventsNoMentionExactly | bench/impact-oracle.py:338-343 | for every symbol: no PHP source gains a mention by stripping if and only if the symbol has no loose gap or cannot stand in stripped code |
| ImpactOracle.CodeTruthIsPartOfRawTruth | bench/impact-oracle.py:340-343 | for tight symbols the code-only reference set is part of the raw one |
| ImpactOracle.MentionInJsCounts | bench/impact-oracle.py:338-343 | a JavaScript file whose code mentions the symbol, outside of comments and literals, is in the code-only set |
| ImpactOracle.MentionInPhpCounts | bench/impact-oracle.py:338-343 | the same for PHP |
| ImpactOracle.MentionedSymbolsStand | bench/impact-oracle.py:338-343 | a symbol mentioned in stripped JavaScript holds no literal opener, and its slashes divide, in any surroundings |
| ImpactOracle.StrippingInventsNoMentionExactly | bench/impact-oracle.py:338-343 | for every symbol: no JavaScript source gains a mention by stripping if and only if the symbol has no loose gap or cannot stand in stripped code |
| ImpactOracle.QuotedSymbolsAreNeverMentioned | bench/impact-oracle.py:338-343 | a symbol with a quote in it is mentioned in no stripped text of either language |
| ImpactOracle.CodeTruthIsSafeExactly | bench/impact-oracle.py:338-343 | for every symbol: the code set is part of the raw set, over all sources of both languages, if and only if the symbol has no loose gap or can stand in neither stripped JavaScript nor stripped PHP |
| ImpactOracle.JsPositionsAreNotAlwaysPreserved | bench/impact-oracle.py:97-115 | two inputs on which length or line breaks are not preserved |
| BriefGate.ComputeDigest | crates/cli/src/brief_gate.rs:125-132 | the loop computes the 64-bit FNV-1a fold, wrapping |
| BriefGate.OneByteChangesTheDigest | crates/cli/src/brief_gate.rs:125-132 | payloads of one length that differ in exactly one byte have different digests |
| BriefGate.KeyInjective | crates/cli/src/brief_gate.rs:101-122 | the deduplication key tells every pair of path and digest apart, whatever the path |
| BriefGate.Gate.Decide | crates/cli/src/brief_gate.rs:101-122 | the new state and the decision are the specified ones |
| BriefGate.DecideRefinesHistory | crates/cli/src/brief_gate.rs:60-122 | deciding on the compact maps is deciding by the full served history, and the maps go on representing it |
| BriefGate.DecidesExactly | crates/cli/src/brief_gate.rs:101-122 | in a lawful session each decision is made exactly when, over everything ever served: the budget is short; or the digest went out for the path; or some brief of the path is too recent; or none of these |
| BriefGate.ServingKeepsTheLaw | crates/cli/src/brief_gate.rs:101-122 | serving keeps the history within budget, without repeats, and with a cooldown between fires of one path |
| BriefGate.LastServedIsLatest | crates/cli/src/brief_gate.rs:60-66 | in a lawful history the one remembered time of a path is its latest |
| BriefGateProcesses.NextKeepsInv | crates/cli/src/brief_gate.rs:166-213 | every step of every process, crashes and failed replacements included, keeps the invariant of lock, file and histories |
| BriefGateProcesses.ChargesAreConserved | crates/cli/src/brief_gate.rs:166-213 | in every run each fire in the file was served, is lost to a failure after the charge, or is pending, and the served ones went out in the order they were charged |
| BriefGateProcesses.TokensAreAccountedFor | crates/cli/src/brief_gate.rs:166-213 | in every run the file's tokens are what was served, lost and pending cost together |
| BriefGateProcesses.NothingIsOverchargedExactlyWhenNothingIsLost | crates/cli/src/brief_gate.rs:206-213 | the file charges for exactly what was served if and only if no charge is lost or pending |
| BriefGateProcesses.ChargesMayBeLost | crates/cli/src/brief_gate.rs:206-213 | a run in which the budget is spent and nothing is served |
| BriefGateProcesses.ServedStaysWithinBudget | crates/cli/src/brief_gate.rs:166-213 | in every run what was served costs at most the recorded tokens, which never pass 1500, and at most 1500 fires are served |
| BriefGateProcesses.NothingServedTwice | crates/cli/src/brief_gate.rs:166-213 | in every run no path and digest is served twice |
| BriefGateProcesses.ServesOfOnePath | crates/cli/src/brief_gate.rs:101-122 | in every run, for any clock, two serves of one path differ in digest and are at least 900 recorded seconds apart |
| BriefGateProcesses.ChargesOfOnePathWaitOutTheCooldown | crates/cli/src/brief_gate.rs:101-122 | in every run, for any clock, charges of one path, lost ones included, are at least 900 recorded seconds apart |
| Pager.MakePage | bench/_retrieval_controls.py:125-150 | the page hashes and charges exactly the first bytes of the row stream up to the budget, is truncated if and only if bytes remain, and shows a row if and only if its header fits |
| Pager.SmallerBudgetsArePrefixes | bench/_retrieval_controls.py:125-150 | a smaller budget hashes a prefix and shows no more rows |
| Pager.PlaceboRows | bench/_retrieval_controls.py:163-179 | fails exactly on an empty universe or an empty file; otherwise whole passes, each using every file once, with a chunk of each, until and no longer than they cover the budget |
| Pager.PlaceboPage | bench/_retrieval_controls.py:343-347 | a page of placebo rows uses exactly its budget |
| PairedComparison.GroupByCluster | bench/compare-runs.py:850-870 | the loop groups values by cluster name: names distinct, in order of first appearance, each cluster holding exactly its cases' values in order |
| PairedComparison.GroupIsByName | bench/compare-runs.py:860-865 | the grouping meets that description for every list of names and values |
| PairedComparison.PooledIsThePlainMean | bench/compare-runs.py:708-711 | for every choice of clusters the pooled statistic is the plain mean of the cases |
| PairedComparison.MeanOfDeltas | bench/compare-runs.py:838-870 | the mean delta is the candidate's mean minus the baseline's |
| PairedComparison.ScaledSums | bench/compare-runs.py:714-748 | the scaled integers are the exact cluster totals times the common multiple |
| PairedComparison.ScaledDraw | bench/compare-runs.py:714-748 | a draw computed on scaled integers is the exact pooled statistic of the drawn clusters |
| PairedComparison.Bootstrap | bench/compare-runs.py:714-748 | the bounds are the two quantiles of the sorted draws |
| PairedComparison.DrawLiesBetweenClusterMeans | bench/compare-runs.py:714-748 | a draw lies between any bounds on the cluster means |
| PairedComparison.ComparisonDrawLiesBetweenClusterMeans | bench/compare-runs.py:714-748 | the same for the clusters a comparison builds, which are never empty |
| PairedComparison.PercentileIsTheLeastWithEnoughBelow | bench/compare-runs.py:699-705 | the nearest-rank quantile is an attained value, enough values are at most it, and not enough are at most anything smaller |
| PairedComparison.PercentilesGrow | bench/compare-runs.py:699-705 | quantiles grow with their level |
| PairedComparison.SortedSorts | bench/compare-runs.py:714-748 | the sort returns its input, ascending |
| PairedComparison.IntervalIsAttained | bench/compare-runs.py:714-748 | the lower bound is at most the upper one, and both are statistics of actual draws |
| PairedComparison.Judge | bench/compare-runs.py:751-783 | accepts if and only if no clause fails, and names exactly the clauses that fail |
| PairedComparison.CompareArms | bench/compare-runs.py:800-960 | grouping, bootstrap and judgement together give the specified verdict, and where there is one, no failing clause exactly when it accepts |
| PairedComparison.AcceptsExactly | bench/compare-runs.py:838-953 | refused if and only if there are too few cases or fewer than five distinct names; otherwise accepted if and only if the plain means meet their margins, fewer than the lower level's share of draws fail to improve, and no name with five cases or more lost more recall than the veto allows |
| PairedComparison.ClustersAreTheNames | bench/compare-runs.py:860-875 | there are as many clusters as distinct names, and no cluster regressed if and only if no name's cases did |
| PairedComparison.QuantileIsAboveExactly | bench/compare-runs.py:699-748 | a bound of the interval is above a value if and only if less than its share of the draws is at most that value |
| PairedComparison.AcceptedMeansBetter | bench/compare-runs.py:751-783 | acceptance means that recall and reciprocal rank rose and misses did not grow by more than the thresholds say, in plain means |
| PairedComparison.AcceptedMeansMostDrawsImprove | bench/compare-runs.py:699-748 | acceptance leaves fewer than the lower level's share of draws without improvement |
| PairedComparison.NeverBothAccepted | bench/compare-runs.py:751-783 | whatever the clusterings and draws, two arms are never both accepted over each other |
| DaemonIdentity.ParsePidFile | crates/cli/src/daemon.rs:1131-1174 | the line loop computes the specified record |
| DaemonIdentity.PidFileRoundTrips | crates/cli/src/daemon.rs:1105-1174 | what is written parses back to the same pid, start time and nonce |
| DaemonIdentity.OlderFilesHoldTheirPid | crates/cli/src/daemon.rs:1136-1145 | a decimal number in white space is read as that pid alone, or rejected when no process can have it |
| DaemonIdentity.NonceIsNeverDropped | crates/cli/src/daemon.rs:1131-1174 | a text with a nonce line parses to a record with a nonce, or not at all |
| DaemonIdentity.FillRequest | crates/cli/src/daemon_control.rs:70-93 | the buffer filled in place is the frame of its pid, nonce and command |
| DaemonIdentity.Accept | crates/cli/src/daemon_control.rs:141-167 | a daemon serves only its own user, only whole frames that arrive in time, and answers or stops exactly on its own two frames |
| DaemonIdentity.FramesAreInjective | crates/cli/src/daemon_control.rs:70-93 | equal frames mean equal pid, nonce and command |
| DaemonIdentity.StopReachesOnlyItsDaemon | crates/cli/src/daemon_control.rs:70-167 | a stop built from a daemon's pid file is accepted by another daemon only if pid and nonce are the same |
| Succession.NoMutualReaping | crates/cli/src/daemon.rs:1258-1270 | two daemons never reap each other, and reaping takes validation and two known, strictly ordered start times |
| Succession.NextKeepsInv | crates/cli/src/daemon.rs:1183-1244 | starting, reaping and cleaning up keep every daemon of unknown start time, and every latest one, alive, and every running one its files |
| Succession.LookSpares | crates/cli/src/daemon.rs:1183-1270 | a look at a sibling stops it if and only if it is running and provably started earlier, leaves a running one its files, removes those of one that is gone unless a socket looks busy, and touches nobody else |
| Succession.RunningDaemonsKeepTheirFiles | crates/cli/src/daemon.rs:1183-1270 | in every run every running daemon has its files |
| Succession.TheLatestSurvives | crates/cli/src/daemon.rs:1183-1270 | in every run the latest daemon and those of unknown start time are live, and can be found by their files, so some daemon is |
| GlobRegex.Translate | bench/self-eval.py:323-367 | the cursor loop, recursing into groups, writes exactly the specified text and terminates |
| GlobRegex.FindMatchingBrace | bench/self-eval.py:370-379 | the counting loop finds the first position at which the running depth returns to zero, or none when there is none |
| GlobRegex.MatchingBraceBalances | bench/self-eval.py:370-379 | the closing brace is the first place where as many braces have closed as opened; there is none exactly when that never happens |
| GlobRegex.SplitAlternation | bench/self-eval.py:382-395 | the loop cuts the body at its commas outside inner braces: the branches rejoin to it, close what they open, and hold no such comma |
| GlobRegex.SplitThenJoin | bench/self-eval.py:382-395 | joining the branches with commas gives back the group body |
| GlobRegex.SplitCutsAtTopCommas | bench/self-eval.py:382-395 | the body is cut at all its commas outside inner braces and nowhere else |
| GlobRegex.TranslationAcceptsExactlyTheMatches | bench/self-eval.py:323-367 | from every point of a pattern, the expression meant accepts a text if and only if the direct matcher does |
| GlobReadBack.TextReadsBack | bench/self-eval.py:323-367 | the text written, wherever it stands in a larger one, is read as the expression meant and nothing more if and only if every bracket in it is well formed |
| GlobReadBack.CompilesAsMeantExactlyWhenWellBracketed | bench/self-eval.py:312-367 | the whole filter compiles to the expression meant if and only if every bracket reached, branches included, negates something when it negates and holds no reversed range |
| GlobReadBack.FilterIsTheMatcher | bench/self-eval.py:312-320 | for exactly those patterns: the compiled filter is the direct matcher, save that it forgives one final line break |
| GlobReadBack.EmptyNegationIsMisread | bench/self-eval.py:352-362 | the filter for `[!]a[b]` accepts `z`, which the direct matcher rejects |
| GlobReadBack.EmptyNegationAloneIsRejected | bench/self-eval.py:352-362 | `[^]` followed by text that holds no closing bracket, dash or backslash cannot be read at all |
| GlobRegex.WildcardsStayWithinDirectories | bench/self-eval.py:341-346 | a pattern of plain characters, `*` and `?` matches only paths with as many slashes as it has |

## Left out

- Sockets, handshakes, JSON and the MCP library: a call, a reopening and the fallback are oracle outcomes with a duration.
- The string markers in daemon errors: refusals are constructors of the failure type, so a message that happens to contain a marker is not modelled.
- Connecting and probing when the client is made: the reported fingerprint and dimension are constructor parameters.
- Overflow of the retry counter, of durations and of byte counts in the client, which are unbounded here.
- Time spent inside the private embedder, and writing the answer to a control peer, which may fail.
- JsPieces.CodeIsKept: block comments and templates that are never closed, and a backslash that ends the text, are not in the grammar; of them only the bounds of `StripOnlyBlanks` are stated.
- PhpPieces.CodeIsKept: comments, strings and heredocs that are never closed are not in the grammar; of them only the bounds of `StripOnlyBlanks` are stated.
- The exact inputs on which the PHP stripper preserves length, which nothing promises.
- The check of the finished ONNX model, the other rewriting passes and their numerics; a missing optional input or output is the empty name, and an edge through it counts when pruning, as in the code.
- Deleting or corrupting the gate's state file from outside beyond the answer that it is unavailable, tokens near the 64-bit limit, session-name sanitising and the fire log with its rotation.
- Which message `re` gives for a pattern it rejects, and its warnings about brackets and doubled operators inside classes.
- The statistic for ranked relevance, excluding failed cases, loading and validating records, and report rendering.
- Daemons that end by themselves, recycled pids, reading `/proc`, signals, legacy daemons without a nonce and the start lock.
- Waiting for a stopped daemon to close its connection.
- File permissions, symbolic links, `/proc` checks and the eviction of models from memory.
- Search, storage, parsing of sources and the embedding model itself.
