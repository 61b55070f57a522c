# Verified model of the agents runtime

This project models the logic at the core of the agents runtime in `agent/livekit/agents` and proves
properties of it. Code that changes things in place is modelled by classes and methods with loops, each proved
against a specification function; what the runtime promises is proved of those functions, for all inputs and
all runs. `dafny verify dfyconfig.toml` checks everything.

## What is modelled

**Chat context sync** (`ChatItems`, `Lcs`, `ContextEdits`, `ContextDiff`, `DiffTransforms`, `DiffMinimal`,
`RemoteChatContext`, `ContextSync`, `ChatText`). The longest-common-subsequence table and its backtracking,
the diff made of it, and the doubly linked list with its id index that carries a diff out. The diff of two
contexts leads from the old ids to the new ones, no shorter script of single edits does, and the linked list
follows the abstract one step by step. The docstring of `compute_chat_ctx_diff` speaks of "the minimal list";
that is proved for the number of edits, with ids distinct, and the exact condition for arriving at the new
list is that the new ids are distinct. Kept items stay in their old version on the list; the update list names
those whose text differs.

**Time-ordered contexts** (`ChatTimeline`, `ChatContexts`). Inserting by creation time and merging. Times are
real numbers.

**Streaming text** (`WordScanner`, `WordLaws`, `WordCleaning`, `TokenStream`, `StreamLaws`, `StreamGroups`,
`ReplaceWords`, `ReplaceStream`, `ReplaceLaws`). The word scanner with its spans, the buffered token stream
over it, and `replace_words` in batch and on a stream. A first word with a successor never changes again, so
only a flush can show how a text was cut: it does when it lumps together several words that the whole text
gives one by one. `ChunkingShowsIff` says so exactly; for the word streams, and for contexts of up to two
characters whatever the tokenizer, it never happens. The laws hold for any way of cleaning a word; `OptionsOf`
gives that of `split_words`.

**Hyphenation** (`HyphenPatterns`, `HyphenPieces`, `Hyphenator`, `HyphenLaws`, `HyphenNumerals`,
`HyphenPlaces`). Liang's trie as nested nodes on the heap, refined to a table of patterns; the walk computes
the maximum over all patterns at all offsets. Lowering is any function that never shortens a text. An
exception entry with fewer letters a-z than the word is long makes the word lose letters; the theorems say so
exactly.

**Speech scheduling** (`SpeechMachine`, `SpeechInvariant`, `SpeechSteps`, `SpeechSafety`, `SpeechTheorems`,
`SpeechWedge`, `SpeechDrain`, `SpeechReplies`, `SpeechLaws`, `SpeechHandles`, `SpeechActivity`). Speech
handles, the tasks speaking for them and the one scheduling coroutine as a state machine whose steps run from
one await to the next, with invariants over all runs. A task may end with an exception at any point.
Timestamps in the queue grow strictly; each handle is scheduled by its creator at most once, and again by the
runtime for tool replies. `SpeechWedge` says exactly when the coroutine's wait on a generation can end: a
handle interrupted while still in the queue can be done before its turn, is then authorized anyway, and the
coroutine waits for good. `SpeechDrain` says exactly when a pause can end: a reply asked for while pausing has
its task made before its scheduling is refused, and the pause then waits for that task until it is interrupted
or fails. `SpeechHandles` and `SpeechActivity` are the classes, proved to take these steps.

**Audio** (`AudioBytes`, `AudioEmission`, `AudioLaws`). The chunker of raw PCM bytes and the emitter that
holds one frame back so that it can mark the last one. Frame sizes come from a sample rate of at least 1000.
Durations are counted in samples. Three points where the code is not what one may expect are stated exactly: a
flushed frame counts samples as if there were one channel; an end command before any push leaves the segment
open, so that the next start raises; a buffer that holds no whole number of samples at the end of a segment is
dropped, all of it, be it nearly a frame. `SegmentRuns` says for all segments what goes out, and that its
timed transcripts go out with it; those of a segment for which nothing goes out wait for the next.

**Process pool** (`PoolMachine`, `PoolLaws`, `PoolRounds`, `ProcPool`). Launches, spawn tasks, monitor tasks
and the main task as steps. `asyncio.Queue.get` is modelled as it works: a launch that finds the queue empty
is woken by a put, but a later launch may take the process first. The done callback that takes an ended spawn
task out of `_spawn_tasks` is a step of its own; until it runs, a launch may not spawn because of that task.
Either way a launch can be left waiting with no process warm or coming: `OvertakenWaits` and `UnspawnedWaits`
show the runs, `LaunchUncoversIff` says exactly which launches cause it, `WaitersCovered` bounds how many can
be left.

**Messages** (`Bytes`, `Wire`, `IpcMessages`, `Channel`, `WireLayout`, `WireShort`). The worker messages and
the reload messages on the wire, over a cursor that short reads do not stop. Text encoding and 4-byte floats
are opaque pairs of functions: what was encoded decodes to itself, a packed float has four bytes.

**Speech synthesis fallback** (`FallbackReplay`). The task that forwards the input and the loop over the
providers, sharing one channel and the list of tokens so far.

`Wrappers`, `Subsequences` and `Strings` are shared helpers.

## Model

| member | source | states |
|---|---|---|
| `Lcs.LcsCorrect` | agent/livekit/agents/llm/utils.py:46-75 | the ids returned are a common subsequence of both inputs, and no common subsequence is longer |
| `Lcs.WalkIsCommon` | agent/livekit/agents/llm/utils.py:62-75 | the backtracking loop collects a common subsequence exactly as long as the table entry it starts from |
| `Lcs.EntryIsLongest` | agent/livekit/agents/llm/utils.py:51-60 | no common subsequence of two prefixes is longer than their table entry |
| `Lcs.FillTable` | agent/livekit/agents/llm/utils.py:51-60 | the nested loops fill a two-dimensional array with exactly these entries |
| `Lcs.ComputeLcs` | agent/livekit/agents/llm/utils.py:46-75 | table, backtracking and reversal together return the list `LcsCorrect` speaks of |
| `ContextDiff.IndexById` | agent/livekit/agents/llm/utils.py:97 | the dictionary by id, a later item with the same id winning |
| `ContextDiff.CollectRemoved` | agent/livekit/agents/llm/utils.py:99 | the ids removed are those not kept, in old order |
| `ContextDiff.ComputeChatCtxDiff` | agent/livekit/agents/llm/utils.py:89-117 | the loops compute the three operation lists of the specification, which the next rows and those of `ChatText` are about |
| `DiffTransforms.KeptInOrder` | agent/livekit/agents/llm/utils.py:96-104 | with distinct ids, what is kept of the old list and what is kept of the new list are the same sequence, the longest common subsequence |
| `DiffTransforms.DeleteRemoved` | agent/livekit/agents/llm/utils.py:99 | deleting every removed id is never rejected and leaves exactly the kept items, in order |
| `DiffTransforms.CreatePrefix` | agent/livekit/agents/llm/utils.py:103-115 | after the creations of any prefix of the new list, that prefix stands in front, in order, followed by the kept items still to come; none is rejected |
| `DiffTransforms.ScriptTransforms` | agent/livekit/agents/llm/utils.py:89-117 | on distinct ids the whole script is never rejected and leaves exactly the new ids in the new order, each created item in its new version and each kept one in its old version |
| `DiffTransforms.ScriptTransformsIff` | agent/livekit/agents/llm/utils.py:89-117 | from distinct old ids the script arrives at the new id list if and only if the new ids are distinct |
| `DiffTransforms.UpdatedExactly` | agent/livekit/agents/llm/utils.py:107-115 | the update list holds exactly the pairs (predecessor, id) of kept messages whose text differs between the two contexts, for all contexts |
| `ChatText.NoTextIff` | agent/livekit/agents/llm/chat_context.py:125-127 | a message has no text if and only if none of its contents is one |
| `ChatText.TextAppended` | agent/livekit/agents/llm/chat_context.py:128 | a text behind others goes on a new line, the first one stands for itself |
| `ChatText.OtherAppended` | agent/livekit/agents/llm/chat_context.py:125 | content that is no text changes nothing |
| `ChatText.ChangedTextReported` | agent/livekit/agents/llm/utils.py:107-115 | for two messages with one id and one text each, the diff reports the id behind the one before it, if and only if it is kept and the two texts are not the same |
| `ChatText.ReportedIff` | agent/livekit/agents/llm/utils.py:107-115 | for any two items with one id: reported if and only if it is kept, both are messages and their texts differ |
| `DiffMinimal.Survivors` | agent/livekit/agents/llm/utils.py:89-90 | whatever any script of single deletes and inserts leaves untouched is a common subsequence of its two ends, of at least the old length less the deletes |
| `DiffMinimal.DiffIsMinimal` | agent/livekit/agents/llm/utils.py:89-106 | every script of single edits from the old ids to the new deletes at least as often as the diff removes and inserts at least as often as it creates |
| `DiffMinimal.DiffIsShortest` | agent/livekit/agents/llm/utils.py:89-106 | no script of single edits is shorter than removals and creations together |
| `ContextEdits.InsertKeepsDistinct` | agent/livekit/agents/llm/remote_chat_context.py:42-43 | an accepted insert keeps the ids distinct |
| `ContextEdits.DeleteAnswers` | agent/livekit/agents/llm/remote_chat_context.py:74-77 | an unknown id is refused by name, of a known one the first item goes and the others stay as they are |
| `ContextEdits.InsertAnswers` | agent/livekit/agents/llm/remote_chat_context.py:42-72 | an id that is there is refused first, then an unknown previous id, each by name; else the item goes right behind the first item with the previous id, or to the front |
| `RemoteChatContext.RemoteChatContext.constructor` | agent/livekit/agents/llm/remote_chat_context.py:18-21 | an empty, valid linked list |
| `RemoteChatContext.RemoteChatContext.ToChatCtx` | agent/livekit/agents/llm/remote_chat_context.py:23-30 | following the next pointers ends and gives the abstract list |
| `RemoteChatContext.RemoteChatContext.Get` | agent/livekit/agents/llm/remote_chat_context.py:32-33 | the node returned carries the one item with that id; none if and only if the id is absent |
| `RemoteChatContext.RemoteChatContext.Insert` | agent/livekit/agents/llm/remote_chat_context.py:35-72 | prev and next pointers, head, tail and id map stay in agreement with one list of distinct ids, which changes as specified; both errors leave it unchanged |
| `RemoteChatContext.RemoteChatContext.Delete` | agent/livekit/agents/llm/remote_chat_context.py:74-98 | the same for removal, at the ends and in the middle |
| `ContextSync.DeleteEach` | agent/livekit/agents/llm/remote_chat_context.py:74-98 | deleting a list of ids on the linked structure is deleting them on the abstract list, stopping at the first error |
| `ContextSync.InsertEach` | agent/livekit/agents/llm/remote_chat_context.py:35-72 | the same for the list of insertions |
| `ContextSync.SyncTo` | agent/livekit/agents/llm/utils.py:89-117 | end to end on the heap: read the list, diff it, carry the script out; no error and exactly the new ids if and only if the new ids are distinct |
| `ChatTimeline.InsertionIndex` | agent/livekit/agents/llm/chat_context.py:439-450 | the index is behind an item not younger, and every item from it on is younger, sorted context or not |
| `ChatTimeline.InsertManyAt` | agent/livekit/agents/llm/chat_context.py:214-220 | items of one instant stay in the order old ones first, then new ones, on any context |
| `ChatTimeline.InsertIsStableSort` | agent/livekit/agents/llm/chat_context.py:214-220 | inserting a list is a stable sort of old items followed by new ones, if and only if the context was sorted |
| `ChatTimeline.StableSortUnique` | agent/livekit/agents/llm/chat_context.py:214-220 | being a stable sort determines the result |
| `ChatTimeline.MergeKeeps` | agent/livekit/agents/llm/chat_context.py:309-338 | merging keeps sortedness (both directions), distinct ids, and the old items in their order |
| `ChatTimeline.MergeCovers` | agent/livekit/agents/llm/chat_context.py:309-338 | every item not excluded is there by its id; what was added comes from the other context, in its order, with new and distinct ids, nothing excluded; items of one instant stand old before new |
| `ChatTimeline.MergeTakes` | agent/livekit/agents/llm/chat_context.py:319-336 | the first item of the other context with a new id is taken over, if and only if it is no function call or output that is excluded and no system or developer message that is |
| `ChatTimeline.MergeIdleIff` | agent/livekit/agents/llm/chat_context.py:309-338 | a merge changes nothing if and only if every item not excluded is known by its id |
| `ChatTimeline.MergeTwice` | agent/livekit/agents/llm/chat_context.py:309-338 | merging the same context again changes nothing |
| `ChatContexts.ChatContext.FindInsertionIndex` | agent/livekit/agents/llm/chat_context.py:439-450 | the backward loop finds that index |
| `ChatContexts.ChatContext.Insert` | agent/livekit/agents/llm/chat_context.py:214-220 | the loop performs the insertions of the specification |
| `ChatContexts.ChatContext.AddMessage` | agent/livekit/agents/llm/chat_context.py:207-212 | a message with a given time goes to its place, one without goes to the end |
| `ChatContexts.ChatContext.Merge` | agent/livekit/agents/llm/chat_context.py:309-338 | the loop with its set of known ids performs the merge of the specification, also when a context is merged into itself |
| `WordScanner.SplitWords` | agent/livekit/agents/tokenize/_basic_word.py:6-64 | the scan loop returns the words of the specification |
| `WordLaws.WordsExactly` | agent/livekit/agents/tokenize/_basic_word.py:38-64 | a word is reported if and only if it is a character-based character or a maximal stretch without break, with something left after cleaning, and its span |
| `WordLaws.ScanInOrder` | agent/livekit/agents/tokenize/_basic_word.py:46-64 | the words come in reading order, spans not overlapping and inside the text |
| `WordLaws.FirstStable` | agent/livekit/agents/tokenize/token_stream.py:42-45 | a first word that has a successor is not changed by text arriving behind it |
| `WordLaws.CutFirst` | agent/livekit/agents/tokenize/token_stream.py:63-64 | cutting the text behind its first word leaves exactly the other words; the buffer gets shorter |
| `WordCleaning.PunctuationsAre` | agent/livekit/agents/tokenize/tokenizer.py:10-11 | the punctuation is that of ASCII and seven marks more |
| `WordCleaning.SpacesAre` | agent/livekit/agents/tokenize/_basic_word.py:47 | the code points that are spaces, one by one |
| `WordCleaning.ScriptBlocks` | agent/livekit/agents/tokenize/_basic_word.py:22-29 | the scripts without spaces, by blocks of 64 code points |
| `WordCleaning.StripCounts` | agent/livekit/agents/tokenize/_basic_word.py:38-40 | cleaning leaves no punctuation and every other character as often as it was |
| `WordCleaning.StripJoin` | agent/livekit/agents/tokenize/_basic_word.py:38-40 | cleaning goes through a text piece by piece |
| `WordCleaning.WithoutPunctuation` | agent/livekit/agents/tokenize/_basic_word.py:32-43 | with punctuation ignored a word holds none, and every other character of its span as often as there |
| `WordCleaning.PunctuationNotReported` | agent/livekit/agents/tokenize/_basic_word.py:38-43 | a chunk is reported then, if and only if it is not all punctuation |
| `WordCleaning.WithPunctuation` | agent/livekit/agents/tokenize/_basic_word.py:36-43 | with punctuation kept every chunk is reported and every word is its span |
| `WordCleaning.ChunksBetweenSpaces` | agent/livekit/agents/tokenize/_basic_word.py:46-51 | the chunks are what stands between spaces |
| `WordCleaning.ChunksOfScripts` | agent/livekit/agents/tokenize/_basic_word.py:53-59 | with characters as words, each character of those scripts is a chunk, and what stands between those and spaces |
| `TokenStream.BufferedTokenStream.PushText` | agent/livekit/agents/tokenize/token_stream.py:35-67 | the loop ends and moves words out as specified; a closed stream raises and is unchanged |
| `TokenStream.BufferedTokenStream.FlushSegment` | agent/livekit/agents/tokenize/token_stream.py:70-91 | flush sends the remaining words, begins a new segment and empties both buffers |
| `TokenStream.BufferedTokenStream.EndInput` | agent/livekit/agents/tokenize/token_stream.py:93-95 | flush, then closed |
| `StreamLaws.ChunkingInvisible` | agent/livekit/agents/tokenize/token_stream.py:35-91 | for context lengths up to 3, or 2 with character-based words, and every token length: in every run of pushes and flushes the events are those each segment gives as one text, tagged with its segment |
| `StreamLaws.ChunkingShowsIff` | agent/livekit/agents/tokenize/token_stream.py:35-91 | for all settings and every run of pushes and flushes: the events are those each segment gives as one text, if and only if no flush found more than one word left of which all but the last were enough for a token |
| `StreamLaws.FlushMatchesIff` | agent/livekit/agents/tokenize/token_stream.py:70-91 | one flush gives what the whole text gives under that same condition; otherwise it sends fewer tokens |
| `StreamLaws.ChunkingThreshold` | agent/livekit/agents/tokenize/token_stream.py:35-91 | with token length at most 1, chunking never shows if and only if the context length is at most 3, or 2 with character-based words |
| `StreamLaws.ShowsUp` | agent/livekit/agents/tokenize/token_stream.py:35-91 | the failing run above that length: two one-letter words, or one ideograph twice, pushed and flushed come out as one token |
| `StreamLaws.WordStreamBatch` | agent/livekit/agents/tokenize/basic.py:87-96 | with the settings of the word stream a segment gives just its words |
| `StreamGroups.BatchIs` | agent/livekit/agents/tokenize/token_stream.py:47-64 | the tokens of a segment are its words in groups joined by spaces, each group ended by the first word that makes it long enough, and a last one too short for the words left |
| `StreamLaws.EmitsExactlyTheWords` | agent/livekit/agents/tokenize/basic.py:87-96 | for every chunking of a text, pushing the chunks and flushing emits exactly the words `split_words` gives for the whole text, in order |
| `StreamLaws.WordsPreserved` | agent/livekit/agents/tokenize/token_stream.py:35-91 | for all settings, whatever the context length: the tokens joined by spaces are the words joined by spaces |
| `ReplaceWords.ProcessWords` | agent/livekit/agents/tokenize/utils.py:40-57 | editing in place with a running offset equals rebuilding the text gap by gap and word by word, trailing punctuation kept; the index returned is the length of the rebuilt part |
| `ReplaceLaws.CoreReplaced` | agent/livekit/agents/tokenize/utils.py:44-53 | a word is a core and trailing punctuation; the lowered core is looked up, a replacement not empty stands for it, and the punctuation stays |
| `ReplaceLaws.EveryWordHasACore` | agent/livekit/agents/tokenize/utils.py:44 | every word falls into such a core and tail |
| `ReplaceLaws.FirstReplaced` | agent/livekit/agents/tokenize/utils.py:40-57 | a text that is a gap, a word and more is the gap, the word with its core replaced, and the result for the rest |
| `ReplaceLaws.GapStays` | agent/livekit/agents/tokenize/utils.py:40-57 | a text of spaces stays as it is |
| `ReplaceStream.SettledWords` | agent/livekit/agents/tokenize/utils.py:67-76 | replacing all words but the last, then the rest with whatever follows, equals replacing the whole |
| `ReplaceStream.ReplaceWordsStream` | agent/livekit/agents/tokenize/utils.py:65-83 | for every chunking the yields put together are the batch result for the whole text |
| `ReplaceStream.ReplaceWordsIn` | agent/livekit/agents/tokenize/utils.py:59-62 | the batch branch returns that result |
| `ReplaceStream.LowerKeys` | agent/livekit/agents/tokenize/utils.py:38 | the table with lowered keys; `LastWins` says what it holds |
| `ReplaceStream.LastWins` | agent/livekit/agents/tokenize/utils.py:38 | a key stands for the last replacement whose word lowers to it, and is absent when there is none |
| `ReplaceStream.ReplaceInText` | agent/livekit/agents/tokenize/utils.py:38-62 | called with a text: the table lowered, then every word replaced |
| `ReplaceStream.ReplaceInChunks` | agent/livekit/agents/tokenize/utils.py:38-83 | called with chunks, however cut: the yields put together are the result for the whole text |
| `HyphenPatterns.Points` | agent/livekit/agents/tokenize/_basic_hyphenator.py:27 | a readable pattern has one more point than letters, so no index of the walk leaves the array |
| `HyphenNumerals.PatternRead` | agent/livekit/agents/tokenize/_basic_hyphenator.py:24-27 | for all letters and all numbers, written in decimal between the letters, nothing for zero, the letters and the numbers are read back |
| `HyphenNumerals.PatternReadable` | agent/livekit/agents/tokenize/_basic_hyphenator.py:26-27 | such a pattern of letters a-z and dots does not raise |
| `HyphenPatterns.TableWellFormed` | agent/livekit/agents/tokenize/_basic_hyphenator.py:13-15 | so it is for every stored pattern |
| `HyphenPatterns.BestIsMaximum` | agent/livekit/agents/tokenize/_basic_hyphenator.py:51-62 | the reference value at a place is the maximum over every stored pattern matched at every offset: none says more, and one says as much unless it is zero |
| `HyphenPatterns.NothingLonger` | agent/livekit/agents/tokenize/_basic_hyphenator.py:54-62 | where no stored pattern is longer than the walk got, leaving the loop early loses nothing |
| `Hyphenator.Hyphenator.constructor` | agent/livekit/agents/tokenize/_basic_hyphenator.py:13 | an empty tree |
| `Hyphenator.Hyphenator.Init` | agent/livekit/agents/tokenize/_basic_hyphenator.py:12-21 | raises if and only if some pattern holds a character other than digits, dots and letters a-z; else trie and exceptions represent the two lists |
| `Hyphenator.Hyphenator.InsertPatterns` | agent/livekit/agents/tokenize/_basic_hyphenator.py:13-15 | the trie represents the table of all patterns, later ones replacing earlier ones with the same letters; raises at the first unreadable one |
| `Hyphenator.Hyphenator.InsertPattern` | agent/livekit/agents/tokenize/_basic_hyphenator.py:23-37 | inserting into the nested nodes updates that table at one key and nothing else; an unreadable pattern raises and changes nothing |
| `Hyphenator.Hyphenator.AddExceptions` | agent/livekit/agents/tokenize/_basic_hyphenator.py:17-21 | the exceptions are keyed by their letters, a later entry winning |
| `Hyphenator.Hyphenator.WalkFrom` | agent/livekit/agents/tokenize/_basic_hyphenator.py:53-62 | walking down the trie from one offset raises the point array to the maximum over all offsets so far, with every index in bounds |
| `Hyphenator.Hyphenator.PatternPoints` | agent/livekit/agents/tokenize/_basic_hyphenator.py:50-68 | the array computed by the triple loop is the reference maximum, cleared at both ends |
| `Hyphenator.Hyphenator.HyphenateWord` | agent/livekit/agents/tokenize/_basic_hyphenator.py:39-72 | all three paths return what the specification says for the word, for every way of lower-casing that never shortens |
| `HyphenPieces.Cut` | agent/livekit/agents/tokenize/_basic_hyphenator.py:66-72 | the loop growing the last piece cuts at the odd points |
| `HyphenPieces.PiecesSpell` | agent/livekit/agents/tokenize/_basic_hyphenator.py:66-72 | pieces put together give the letters back; joined by hyphens they show exactly the odd points |
| `HyphenPieces.PiecesFilled` | agent/livekit/agents/tokenize/_basic_hyphenator.py:66-72 | only the last piece can be empty, and it is just when the last letter is marked |
| `HyphenPieces.EndPieces` | agent/livekit/agents/tokenize/_basic_hyphenator.py:63-72 | with the first letter unmarked the first piece has at least two letters; the last has if and only if the last two are unmarked |
| `HyphenPieces.EntryRoundTrip` | agent/livekit/agents/tokenize/_basic_hyphenator.py:17-21 | the stored points of an entry give the entry back if and only if it is made of letters a-z and single hyphens, none in front |
| `HyphenLaws.EntriesKeyed` | agent/livekit/agents/tokenize/_basic_hyphenator.py:17-21 | every key of the exceptions is the entry behind it without hyphens, and every entry is one of the list |
| `HyphenLaws.LastEntryWins` | agent/livekit/agents/tokenize/_basic_hyphenator.py:17-21 | every entry is found by its letters, the last of those with the same |
| `HyphenLaws.EntryMarkIs` | agent/livekit/agents/tokenize/_basic_hyphenator.py:20 | the point of an entry behind a letter is 1 if just one hyphen stands before the next letter, else 0 |
| `HyphenLaws.PiecesAreTheWord` | agent/livekit/agents/tokenize/_basic_hyphenator.py:39-72 | the pieces put together are the word, if and only if the word is short, or no exception, or its entry has as many letters a-z as the word |
| `HyphenLaws.LettersLost` | agent/livekit/agents/tokenize/_basic_hyphenator.py:17-21 | an entry has as many letters a-z as its key is long, if and only if it holds nothing but those and hyphens |
| `HyphenLaws.LastLetterLost` | agent/livekit/agents/tokenize/_basic_hyphenator.py:17-21 | a failing word: with the letter U+00EF in its entry "naive" so spelled loses its last letter |
| `HyphenLaws.PatternPieces` | agent/livekit/agents/tokenize/_basic_hyphenator.py:49-72 | on the pattern path no piece but perhaps the last is empty and the first has at least two letters; so has the last if and only if the points behind the last two letters are even, as they are when lower-casing keeps the length |
| `HyphenPlaces.CutIff` | agent/livekit/agents/tokenize/_basic_hyphenator.py:49-72 | on the pattern path a word is cut behind its first k letters, if and only if two letters stand on either side and the largest value of all patterns matching around that place is odd, of patterns with the same letters the last one counting |
| `HyphenPlaces.CutsAtMarks` | agent/livekit/agents/tokenize/_basic_hyphenator.py:66-72 | a piece ends behind a letter if and only if its point is odd |
| `HyphenLaws.LastPieceShort` | agent/livekit/agents/tokenize/_basic_hyphenator.py:50-64 | a failing word: "abcd" and U+0130, whose lower case is longer, with the pattern "d1i" ends in a piece of one letter |
| `HyphenLaws.ExceptionPieces` | agent/livekit/agents/tokenize/_basic_hyphenator.py:47-72 | on the exception path, for every word, capitalised or not: joining by hyphens gives the stored entry back, if and only if the entry is well formed and the word is in lower case |
| `SpeechSafety.StepKeeps` | agent/livekit/agents/voice/agent_activity.py:841-916 | every step of handles, speech tasks (which may raise anywhere) and the scheduling coroutine keeps the invariant |
| `SpeechSafety.RunKeeps` | agent/livekit/agents/voice/agent_activity.py:841-916 | so does every run |
| `SpeechTheorems.NoLostWakeUp` | agent/livekit/agents/voice/agent_activity.py:870-916 | when the coroutine sleeps with the event clear, the queue is empty and no pause has nothing left to wait for; after it has exited the queue stays empty until resume |
| `SpeechTheorems.ExitsDrained` | agent/livekit/agents/voice/agent_activity.py:887-914 | it exits only when paused, with an empty queue and no task left that the pause waits for |
| `SpeechTheorems.OneOpenGeneration` | agent/livekit/agents/voice/speech_handle.py:179-204 | in every run at most one generation over all handles is open, and it is the last one of the current speech |
| `SpeechTheorems.PopsHighestEarliest` | agent/livekit/agents/voice/agent_activity.py:857-877 | each pop takes the highest priority and, among equals, the earliest scheduled entry |
| `SpeechTheorems.StepsBounded` | agent/livekit/agents/voice/agent_activity.py:1650-1658 | in every run `num_steps` is at most `max_tool_steps + 1`, and the number of generations is `num_steps` or one less |
| `SpeechTheorems.StepIndexIsOwn` | agent/livekit/agents/voice/events.py:44 | the step index a tool captures is the index of the generation whose authorization let its task speak, and that generation exists |
| `SpeechTheorems.RepliesBounded` | agent/livekit/agents/voice/agent_activity.py:1692-1716 | a handle never gets more than `max_tool_steps + 1` tasks: the chain of tool replies ends |
| `SpeechReplies.ToolsDoneBrings` | agent/livekit/agents/voice/agent_activity.py:1650-1716 | what the end of the tools brings: a step counted if and only if there was output and the bound is not reached; a reply if and only if it is also asked for, one listed task of the same handle and, unless the coroutine has exited, one entry of priority 5 behind all others, pause or not; nothing else |
| `SpeechReplies.ReplyMadeIff` | agent/livekit/agents/voice/agent_activity.py:1671-1716 | a handle gets one task more if and only if a reply is required and the bound is not reached, and never more than one |
| `SpeechReplies.BoundReached` | agent/livekit/agents/voice/agent_activity.py:1650-1658 | the bound is reached: for every `max_tool_steps` some run gives a handle one task more than that |
| `SpeechLaws.RequestBrings` | agent/livekit/agents/voice/agent_activity.py:841-868 | a request is refused during a pause and ignored after the exit; else one entry of its priority, later than all, behind them |
| `SpeechLaws.PauseBrings` | agent/livekit/agents/voice/agent_activity.py:515-525 | a pause holds with its list and wakes the coroutine, nothing else changes |
| `SpeechLaws.IdlePauseEnds` | agent/livekit/agents/voice/agent_activity.py:887-914 | a coroutine that sleeps with an empty queue exits when next resumed, if the pause names every listed task |
| `SpeechLaws.TurnBrings` | agent/livekit/agents/voice/agent_activity.py:875-883 | the entry taken leaves the queue and its handle is current; without a delay it is authorized at once, with one not yet |
| `SpeechLaws.DelayEnds` | agent/livekit/agents/voice/agent_activity.py:878-883 | after the delay that handle is authorized, and no other |
| `SpeechLaws.CallbacksBring` | agent/livekit/agents/voice/agent_activity.py:320-336 | the task leaves the list, the coroutine is woken, and its handle is done, with its last generation, if and only if all its tasks are finished |
| `SpeechLaws.InterruptBrings` | agent/livekit/agents/voice/speech_handle.py:157-164 | a handle that is not done is marked, nothing else |
| `SpeechTheorems.GenerationsKept` | agent/livekit/agents/voice/speech_handle.py:179-213 | a generation keeps its index for good, what is done stays done |
| `SpeechWedge.WaitCanEndIff` | agent/livekit/agents/voice/agent_activity.py:876-884 | in every reachable state in which the coroutine waits on an open generation, some continuation ends the wait if and only if the handle is not done |
| `SpeechWedge.DoneNeverEnds` | agent/livekit/agents/voice/agent_activity.py:883 | with a handle that is done the wait lasts through every continuation |
| `SpeechWedge.InterruptedInQueueIsStuck` | agent/livekit/agents/voice/speech_handle.py:206-211 | a concrete run: while one reply plays another is scheduled, interrupted in the queue and done without a generation, then popped and waited on |
| `SpeechDrain.PauseCanEndIff` | agent/livekit/agents/voice/agent_activity.py:870-916 | in every reachable state with a pause under way, some continuation without interrupts, exceptions and new tasks lets the coroutine exit, if and only if no task the pause waits for waits for a turn of a handle neither interrupted, authorized nor queued, no done handle is queued, and none has the floor for an open generation |
| `SpeechDrain.ExitsIff` | agent/livekit/agents/voice/agent_activity.py:887-914 | a resumption is the last, if and only if nothing is queued, a pause is under way and every listed task is named by it or of the handle of a named one |
| `SpeechDrain.StuckForGood` | agent/livekit/agents/voice/agent_activity.py:870-916 | otherwise the pause lasts through every continuation without interrupts and exceptions, whatever new tasks begin |
| `SpeechDrain.InterruptedPauseCanEndIff` | agent/livekit/agents/voice/agent_activity.py:870-916 | with interrupts allowed it can end if and only if no done handle is queued or has the floor for an open generation |
| `SpeechDrain.LostForGood` | agent/livekit/agents/voice/agent_activity.py:876-884 | with such a done handle it lasts through every continuation, exceptions included |
| `SpeechDrain.RefusedPauseHangs` | agent/livekit/agents/voice/agent_activity.py:846-849 | a concrete run: a reply asked for during a pause has its task made and its scheduling refused; the pause can end with an interrupt, not by itself |
| `SpeechHandles.SpeechHandle.constructor` | agent/livekit/agents/voice/speech_handle.py:19-36 | a fresh handle |
| `SpeechHandles.SpeechHandle.AuthorizeGeneration` | agent/livekit/agents/voice/speech_handle.py:179-182 | one more open generation, the event set |
| `SpeechHandles.SpeechHandle.ClearAuthorization` | agent/livekit/agents/voice/speech_handle.py:184-185 | the event cleared, nothing else |
| `SpeechHandles.SpeechHandle.MarkGenerationIsDone` | agent/livekit/agents/voice/speech_handle.py:199-204 | the last generation done; raises if and only if there is none |
| `SpeechHandles.SpeechHandle.MarkIsDone` | agent/livekit/agents/voice/speech_handle.py:206-211 | done, and the last generation with it, the first time; nothing afterwards |
| `SpeechHandles.SpeechHandle.MarkScheduled` | agent/livekit/agents/voice/speech_handle.py:213-215 | scheduled, nothing else |
| `SpeechHandles.SpeechHandle.CancelSpeech` | agent/livekit/agents/voice/speech_handle.py:157-164 | interrupted unless done |
| `SpeechActivity.AgentActivity.constructor` | agent/livekit/agents/voice/agent_activity.py:870-874 | the state before the first resume |
| `SpeechActivity.AgentActivity.ScheduleSpeech` | agent/livekit/agents/voice/agent_activity.py:841-868 | the scheduling step of the machine, and when it is refused or ignored |
| `SpeechActivity.AgentActivity.PauseSchedulingTask` | agent/livekit/agents/voice/agent_activity.py:515-525 | the pause step; no change when already paused |
| `SpeechActivity.AgentActivity.ResumeSchedulingTask` | agent/livekit/agents/voice/agent_activity.py:533-542 | the resume step; no change when not paused |
| `SpeechActivity.AgentActivity.CreateSpeechTask` | agent/livekit/agents/voice/agent_activity.py:303-342 | a new listed task, linked to its handle |
| `SpeechActivity.AgentActivity.TaskDone` | agent/livekit/agents/voice/agent_activity.py:320-336 | the done callbacks of one task: off the list, the handle marked, the coroutine woken |
| `SpeechActivity.AgentActivity.MarkDoneIfNeeded` | agent/livekit/agents/voice/agent_activity.py:330-332 | the handle is done, if and only if every task on its own list is |
| `SpeechActivity.AgentActivity.TaskEnds` | agent/livekit/agents/voice/agent_activity.py:320 | a task whose coroutine returns or raises is done, nothing else changes |
| `SpeechActivity.AgentActivity.FinishTools` | agent/livekit/agents/voice/agent_activity.py:1650-1716 | the tool tail: stop at the bound, else count a step and perhaps schedule one more reply |
| `SpeechActivity.AgentActivity.ToWait` | agent/livekit/agents/voice/agent_activity.py:890-911 | the two loops find something to wait for if and only if a listed task is neither blocked nor of a blocked handle |
| `SpeechActivity.AgentActivity.SchedulingLoop` | agent/livekit/agents/voice/agent_activity.py:874-916 | from the inner loop to the next await: the loop step of the machine |
| `SpeechActivity.AgentActivity.AuthorizeSpeech` | agent/livekit/agents/voice/agent_activity.py:882-883 | the step after the delay |
| `SpeechActivity.AgentActivity.SchedulingTask` | agent/livekit/agents/voice/agent_activity.py:870-916 | one resumption of the coroutine, wherever it stood, is one scheduler step |
| `AudioBytes.AudioByteStream.constructor` | agent/livekit/agents/utils/audio.py:54-81 | an empty buffer |
| `AudioBytes.AudioByteStream.Push` | agent/livekit/agents/utils/audio.py:83-118 | the loop slices the full frames off the front and keeps the rest |
| `AudioBytes.AudioByteStream.Flush` | agent/livekit/agents/utils/audio.py:122-154 | one frame with all that is left, or nothing, the buffer then unchanged, when a sample is incomplete |
| `AudioBytes.FramesConserve` | agent/livekit/agents/utils/audio.py:102-118 | frames and rest put together are the buffer; the rest is shorter than a frame |
| `AudioBytes.FramesFull` | agent/livekit/agents/utils/audio.py:105-116 | every frame of a push is full and has the samples of a full frame |
| `AudioBytes.ChunksConserve` | agent/livekit/agents/utils/audio.py:83-118 | for every chunking, the frames and the rest put together are what was pushed |
| `AudioBytes.WholeSamples` | agent/livekit/agents/utils/audio.py:79-80 | a frame consists of whole samples, as many as configured |
| `AudioBytes.FlushSamples` | agent/livekit/agents/utils/audio.py:150 | a flushed frame counts its samples rightly if and only if there is one channel |
| `AudioEmission.AudioEmitter.constructor` | agent/livekit/agents/tts/tts.py:731-739 | nothing open, nothing sent |
| `AudioEmission.AudioEmitter.Emit` | agent/livekit/agents/tts/tts.py:741-795 | one frame held back, the one before sent, silence for a missing last one: the emit step |
| `AudioEmission.AudioEmitter.EmitAll` | agent/livekit/agents/tts/tts.py:900-901 | the frames of a push or flush, one after the other |
| `AudioEmission.AudioEmitter.FlushLast` | agent/livekit/agents/tts/tts.py:797-820 | the frame held back is sent, not final |
| `AudioEmission.AudioEmitter.TakeBytes` | agent/livekit/agents/tts/tts.py:882-901 | bytes: pushed and emitted, or raised outside a segment when streaming |
| `AudioEmission.AudioEmitter.TakeFlush` | agent/livekit/agents/tts/tts.py:902-906 | a flush command |
| `AudioEmission.AudioEmitter.TakeEnd` | agent/livekit/agents/tts/tts.py:902-914 | an end command |
| `AudioEmission.AudioEmitter.Handle` | agent/livekit/agents/tts/tts.py:865-914 | one turn of the loop is one step of the specification; it raises if and only if that does |
| `AudioEmission.AudioEmitter.MainTask` | agent/livekit/agents/tts/tts.py:865-914 | a whole run of the loop likewise |
| `AudioEmission.ConfigComputed` | agent/livekit/agents/tts/tts.py:891-898 | for a sample rate of at least 1000 the frame size is positive, frames and silence are made of whole samples |
| `AudioEmission.ConfigTimes` | agent/livekit/agents/tts/tts.py:891-898 | frames of the given milliseconds at so many thousand samples a second, two bytes for each sample and channel, and 10 ms of silence |
| `AudioEmission.SilenceIsZero` | agent/livekit/agents/tts/tts.py:754-757 | the silence is zero bytes |
| `AudioEmission.EmitSends` | agent/livekit/agents/tts/tts.py:741-795 | what one emission sends and counts: the frame held back, else a final one itself, or the silence, not counted, once something went out |
| `AudioEmission.OutsideAndInside` | agent/livekit/agents/tts/tts.py:866-885 | outside a segment flush and end are ignored and bytes raise when streaming; a start raises if and only if a segment is open |
| `AudioEmission.OutsideUnstreamed` | agent/livekit/agents/tts/tts.py:882-914 | not streaming, bytes outside a segment are kept until they fill a frame, which raises, as do flush and end |
| `AudioLaws.BodyRun` | agent/livekit/agents/tts/tts.py:865-906 | inside a segment no command raises; frames sent, frame held back and buffer together are the bytes pushed, nothing sent is final |
| `AudioLaws.SegmentRuns` | agent/livekit/agents/tts/tts.py:865-914 | a segment with a push, from start to end: what goes out for it is every byte but those left in the buffer at the end when they are no whole samples, plus one silence when all of it had gone out before the end; that is the bytes pushed, with the silence when nothing arrived after the last flush, if and only if whole samples were pushed; exactly the last frame is final; with one channel the recorded duration is that of the audio sent; when anything goes out, all timed transcripts that waited and those of the segment go out with it, in order, and none is left, otherwise all go on waiting; the emitter is ready for the next |
| `AudioLaws.PlayedWhole` | agent/livekit/agents/tts/tts.py:902-914 | everything pushed goes out, with the silence when nothing arrived after the last flush, if and only if whole samples were pushed |
| `AudioLaws.OddSegmentIsLost` | agent/livekit/agents/utils/audio.py:138-143 | a concrete segment: an odd number of bytes of one channel, less than a frame, puts nothing out, counts no duration and leaves its transcript waiting |
| `AudioLaws.SegmentClosesIff` | agent/livekit/agents/tts/tts.py:902-914 | the end command closes the segment if and only if bytes were pushed in it; otherwise the next start raises |
| `AudioLaws.SessionRuns` | agent/livekit/agents/tts/tts.py:865-914 | a session of any number of such segments never raises, and its output falls into one stretch per segment, each as above, with one duration each; each stretch tells the transcripts since the last segment that put anything out, and what is told by none waits at the end |
| `AudioLaws.EachTellsItsOwn` | agent/livekit/agents/tts/tts.py:866-868 | when every segment puts something out, each tells exactly its own transcripts, in order, and none is left |
| `AudioLaws.TranscriptsOnce` | agent/livekit/agents/tts/tts.py:866-868 | over any run whatever, from any state, every timed transcript has gone out once and in order, or is still waiting for a frame; the rows above say when it has gone out |
| `PoolLaws.HeadIsFit` | agent/livekit/agents/ipc/job_proc_executor.py:138-145 | the executor at the head of the warm queue is initialized and has no job, so neither error of `launch_job` can be raised |
| `PoolLaws.StepKeeps` | agent/livekit/agents/ipc/proc_pool.py:99-205 | every step of launches, spawn tasks, monitor tasks and the main task keeps the invariant |
| `PoolLaws.RunKeeps` | agent/livekit/agents/ipc/proc_pool.py:99-205 | so does every run |
| `PoolLaws.WarmedOnce` | agent/livekit/agents/ipc/proc_pool.py:167-172 | in every run each executor enters the warm queue at most once, and only after its initialization |
| `PoolLaws.LaunchedOnce` | agent/livekit/agents/ipc/proc_pool.py:99-114 | each job is waiting or launched on exactly one executor, which runs it and no other; none was refused; the waiting ones are those counted |
| `PoolLaws.LaunchIsFinal` | agent/livekit/agents/ipc/proc_pool.py:110-114 | what was launched stays on its executor through every continuation |
| `PoolLaws.RemoveFinds` | agent/livekit/agents/ipc/proc_pool.py:183-188 | the executor to be removed is in the list, so the removal never raises |
| `PoolLaws.InitializationsBounded` | agent/livekit/agents/ipc/proc_pool.py:158-176 | no more processes start and initialize at once than the semaphore allows |
| `PoolLaws.WaitersCovered` | agent/livekit/agents/ipc/proc_pool.py:99-110 | in every run the waiting launches are at most as many as processes warm or on their way, plus failed spawn tasks, plus launches that left one more without a process |
| `PoolLaws.LaunchUncoversIff` | agent/livekit/agents/ipc/proc_pool.py:99-110 | when a launch leaves one more without a process, exactly: it takes a warm one although as many launches wait as are warm or coming, or it finds none, too few are coming, and ended spawn tasks still in the set keep it from spawning |
| `PoolLaws.OnlyFailuresElse` | agent/livekit/agents/ipc/proc_pool.py:158-180 | no other step does, except a spawn task that fails or finds the pool closed |
| `PoolLaws.BringUp` | agent/livekit/agents/ipc/proc_pool.py:124-180 | a spawn task that meets no failure ends with its process at the back of the warm queue, being monitored, the task still in the set |
| `PoolLaws.OvertakenWaits` | agent/livekit/agents/ipc/proc_pool.py:99-110 | a concrete run of a pool without idle processes, whatever the semaphore allows: the second launch takes the process spawned for the first, which then waits with none warm and none coming; rounds of the main task change nothing |
| `PoolLaws.UnspawnedWaits` | agent/livekit/agents/ipc/proc_pool.py:99-110 | a concrete run of a pool with one idle process, whatever the semaphore allows: of two launches between the end of a spawn task and its done callback the second spawns nothing and waits, with none warm and none coming once the target is lowered |
| `PoolRounds.LaunchSpawnsIff` | agent/livekit/agents/ipc/proc_pool.py:99-111 | a launch makes a spawn task if and only if nothing is warm and the set holds fewer tasks than launches then wait; with something warm it takes the head at once |
| `PoolRounds.RoundFills` | agent/livekit/agents/ipc/proc_pool.py:194-203 | a round fills warm processes and tasks in the set up to the target capped by the default, and changes nothing when closed |
| `PoolRounds.SpawnTaskEnds` | agent/livekit/agents/ipc/proc_pool.py:158-180 | however a spawn task ends: still in the set, the semaphore given back, warm if and only if initialized, monitored unless dropped or not started |
| `PoolRounds.DiscardTakesOne` | agent/livekit/agents/ipc/proc_pool.py:108 | the done callback takes one ended task out of the set |
| `PoolRounds.ClosedForGood` | agent/livekit/agents/ipc/proc_pool.py:159-161 | a closed pool stays closed and lets no further process start |
| `PoolRounds.ExitedIsGone` | agent/livekit/agents/ipc/proc_pool.py:183-188 | a process that ended is out of the list for good, but stays in the warm queue if it was there |
| `PoolRounds.GuardsInOrder` | agent/livekit/agents/ipc/job_proc_executor.py:138-145 | a running job is refused before a missing initialization |
| `ProcPool.ProcJobExecutor.constructor` | agent/livekit/agents/ipc/job_proc_executor.py:55-60 | a fresh executor |
| `ProcPool.ProcJobExecutor.LaunchJob` | agent/livekit/agents/ipc/job_proc_executor.py:138-148 | the guards in their order; the job is set if and only if none raises |
| `ProcPool.ProcPool.constructor` | agent/livekit/agents/ipc/proc_pool.py:29-69 | an empty pool |
| `ProcPool.ProcPool.CountIn` | agent/livekit/agents/ipc/proc_pool.py:99-108 | the launch counted in, with a spawn task when nothing is warm and too few are coming |
| `ProcPool.ProcPool.GetProcess` | agent/livekit/agents/ipc/proc_pool.py:110-111 | the head of the queue leaves it and a waiting launch is counted out |
| `ProcPool.ProcPool.TakeProcess` | agent/livekit/agents/ipc/proc_pool.py:110-114 | the resumption of a waiting launch |
| `ProcPool.ProcPool.LaunchJob` | agent/livekit/agents/ipc/proc_pool.py:99-114 | a launch up to its first suspension |
| `ProcPool.ProcPool.SpawnBegin` | agent/livekit/agents/ipc/proc_pool.py:124-157 | a new executor in the list |
| `ProcPool.ProcPool.SpawnEnter` | agent/livekit/agents/ipc/proc_pool.py:158-164 | the semaphore taken, or the executor removed because the pool was closed and the task ended, still in the set |
| `ProcPool.ProcPool.SpawnStarted` | agent/livekit/agents/ipc/proc_pool.py:164-165 | started |
| `ProcPool.ProcPool.SpawnStartFailed` | agent/livekit/agents/ipc/proc_pool.py:164 | the task ends, still in the set, the executor stays in the list |
| `ProcPool.ProcPool.SpawnInitialized` | agent/livekit/agents/ipc/proc_pool.py:166-180 | ready: queued, idle event perhaps set, monitored; the task ends, still in the set |
| `ProcPool.ProcPool.SpawnInitFailed` | agent/livekit/agents/ipc/proc_pool.py:175-180 | not queued, but monitored; the task ends, still in the set |
| `ProcPool.ProcPool.DiscardTask` | agent/livekit/agents/ipc/proc_pool.py:108 | the done callback takes an ended spawn task out of the set |
| `ProcPool.ProcPool.MonitorEnds` | agent/livekit/agents/ipc/proc_pool.py:183-188 | the executor leaves the list |
| `ProcPool.ProcPool.MainRound` | agent/livekit/agents/ipc/proc_pool.py:191-205 | as many spawn tasks as are missing from the target |
| `Bytes.BigEndianReads` | agent/livekit/agents/ipc/channel.py:83-88 | a number in range, written in big-endian order, has the width given and reads back |
| `Bytes.FromBytesWrites` | agent/livekit/agents/ipc/channel.py:83-88 | and every byte string is what its number writes |
| `Wire.NumberReads` | agent/livekit/agents/ipc/channel.py:83-120 | integers and longs read back with the rest of the buffer untouched |
| `Wire.BoolReads` | agent/livekit/agents/ipc/channel.py:91-96 | so do booleans |
| `Wire.BytesRead` | agent/livekit/agents/ipc/channel.py:62-69 | so do byte strings with their length |
| `Wire.StringReads` | agent/livekit/agents/ipc/channel.py:72-80 | so do strings |
| `Wire.FloatReads` | agent/livekit/agents/ipc/channel.py:99-104 | a float reads back rounded to four bytes |
| `IpcMessages.MessageReads` | agent/livekit/agents/ipc/channel.py:24-41 | every worker message that can be written reads back as it was sent, and the reader stops right behind it |
| `IpcMessages.RoundTripIff` | agent/livekit/agents/ipc/proto.py:13-203 | it reads back unchanged if and only if its floats survive four bytes and its job has no accept attributes |
| `IpcMessages.WritesIff` | agent/livekit/agents/ipc/proto.py:13-203 | it can be written if and only if texts and data are shorter than 2^32 bytes, timestamps are within 64 bits and floats pack |
| `WireLayout.MessageBytes` | agent/livekit/agents/ipc/proto.py:13-203 | the bytes of every worker message: its id in four, the most significant first, and its fields in their order |
| `WireLayout.ReloadBytes` | agent/livekit/agents/cli/proto.py:40-107 | those of every reload message |
| `WireLayout.EightBytes` | agent/livekit/agents/ipc/channel.py:115-120 | timestamps are eight bytes, the most significant first |
| `WireShort.UnknownIdRaises` | agent/livekit/agents/ipc/channel.py:24-31 | an id no message has raises, whatever follows |
| `WireShort.NothingRaises` | agent/livekit/agents/ipc/channel.py:24-31 | no bytes at all raise too |
| `WireShort.BytesCutShort` | agent/livekit/agents/ipc/channel.py:67-69 | data cut short is what there is of it |
| `WireShort.BoolOfByte` | agent/livekit/agents/ipc/channel.py:95-96 | any byte but zero is true |
| `IpcMessages.JobWritesIff` | agent/livekit/agents/ipc/proto.py:94-102 | a job can be written if and only if its protobuf and its six texts fit |
| `IpcMessages.JobsRead` | agent/livekit/agents/cli/proto.py:51-82 | a counted list of jobs reads back as sent |
| `IpcMessages.OptionalReads` | agent/livekit/agents/ipc/proto.py:178-190 | optional data reads back, present or not |
| `IpcMessages.ReloadReads` | agent/livekit/agents/cli/proto.py:51-107 | every reload message that can be written reads back as sent, and the reader stops right behind it |
| `IpcMessages.ReloadRoundTripIff` | agent/livekit/agents/cli/proto.py:45-107 | it reads back unchanged if and only if no job has accept attributes |
| `IpcMessages.ReloadWritesIff` | agent/livekit/agents/cli/proto.py:51-63 | a job list can be written if and only if there are fewer than 2^32 jobs, each can be written and the reload count has 32 bits |
| `Channel.BytesIO.Read` | agent/livekit/agents/ipc/channel.py:67-69 | up to that many bytes, the cursor moved behind them |
| `Channel.BytesIO.Write` | agent/livekit/agents/ipc/channel.py:62-64 | bytes appended, the cursor behind them |
| `Channel.WriteNumber` | agent/livekit/agents/ipc/channel.py:83-84 | a number out of range raises, else its bytes are appended |
| `Channel.WriteBytes` | agent/livekit/agents/ipc/channel.py:62-64 | length and data |
| `Channel.WriteString` | agent/livekit/agents/ipc/channel.py:72-75 | the encoded text with its length |
| `Channel.ReadNumber` | agent/livekit/agents/ipc/channel.py:87-88 | a short read gives a smaller number |
| `Channel.ReadBytes` | agent/livekit/agents/ipc/channel.py:67-69 | length, then that much |
| `Channel.ReadString` | agent/livekit/agents/ipc/channel.py:78-80 | raises if and only if the bytes do not decode |
| `Channel.ReadFloat` | agent/livekit/agents/ipc/channel.py:103-104 | raises if and only if fewer than four bytes are left |
| `Channel.WriteJob` | agent/livekit/agents/ipc/proto.py:94-102 | the seven fields of a job in their order |
| `Channel.ReadJob` | agent/livekit/agents/ipc/proto.py:104-118 | the same fields read, attributes absent |
| `Channel.WriteJobs` | agent/livekit/agents/cli/proto.py:53-61 | the writing loop appends every job |
| `Channel.ReadJobs` | agent/livekit/agents/cli/proto.py:66-80 | the reading loop takes exactly that many jobs |
| `Channel.WriteBody` | agent/livekit/agents/ipc/proto.py:13-191 | each `write` method on the cursor appends what the specification says |
| `Channel.ReadBody` | agent/livekit/agents/ipc/proto.py:13-191 | each `read` method on the cursor takes what the specification says |
| `Channel.WriteMessage` | agent/livekit/agents/ipc/channel.py:34-41 | `_write_message` is the specification's function; nothing when it raises |
| `Channel.ReadMessage` | agent/livekit/agents/ipc/channel.py:24-31 | `_read_message` likewise; an unknown id raises |
| `Channel.WriteReloadMessage` | agent/livekit/agents/cli/proto.py:45-107 | the same for the reload messages |
| `Channel.ReadReloadMessage` | agent/livekit/agents/cli/proto.py:45-107 | the same for the reload messages |
| `FallbackReplay.StepKeeps` | agent/livekit/agents/tts/fallback_adapter.py:322-390 | every step of the forwarding task and of the loop over the providers keeps the invariant and never sends on a closed channel |
| `FallbackReplay.ReplayComplete` | agent/livekit/agents/tts/fallback_adapter.py:322-348 | in every run, whatever failed, however the input came and however often `_run` is called again, after raising or returning: the current channel has been sent exactly the text received so far, in order, and is closed if and only if the input has ended |
| `FallbackReplay.TriedInOrder` | agent/livekit/agents/tts/fallback_adapter.py:338-390 | within one run the providers are tried in their order, each at most once |
| `FallbackReplay.AdvanceTries` | agent/livekit/agents/tts/fallback_adapter.py:338-340 | the next provider tried is the first available one, or the very next when none was at the start; the run raises if and only if none is left |
| `FallbackReplay.FailureIs` | agent/livekit/agents/tts/fallback_adapter.py:376-390 | a provider that raises is no longer available, the others are as before; the next one is reached unless audio went out |
| `FallbackReplay.AudioEndsRun` | agent/livekit/agents/tts/fallback_adapter.py:386-390 | once audio went out no other provider is tried in that run |
| `FallbackReplay.RecoveredIsTried` | agent/livekit/agents/tts/fallback_adapter.py:429-431 | a provider that recovered is tried when its turn comes |
| `FallbackReplay.FallbackSynthesizeStream.constructor` | agent/livekit/agents/tts/fallback_adapter.py:305-320 | a run begins, the tokens of an earlier one kept |
| `FallbackReplay.FallbackSynthesizeStream.Forward` | agent/livekit/agents/tts/fallback_adapter.py:325-330 | one item forwarded and, if a token not empty, remembered |
| `FallbackReplay.FallbackSynthesizeStream.ForwardEnds` | agent/livekit/agents/tts/fallback_adapter.py:332-333 | the channel closed with the input |
| `FallbackReplay.FallbackSynthesizeStream.NewChannel` | agent/livekit/agents/tts/fallback_adapter.py:342-348 | a new channel with the tokens so far, closed if the input has ended |
| `FallbackReplay.FallbackSynthesizeStream.TryNext` | agent/livekit/agents/tts/fallback_adapter.py:338-348 | the next provider that is available, or any when all had failed; past the last, the run raises |
| `FallbackReplay.FallbackSynthesizeStream.ProviderFailed` | agent/livekit/agents/tts/fallback_adapter.py:378-390 | the provider is marked unavailable; audio already counted ends the run |
| `FallbackReplay.Chan.SendNowait` | agent/livekit/agents/utils/aio/channel.py:90-98 | an item appended; raises if and only if the channel is closed |

## Left out

- Chat items: function tools, images and audio keep only the fields the diff and the ordering look at; the dataclass comparison of list nodes is reference equality, which is the same when ids are unique.
- ChatContexts.ChatContext.Insert: takes a list of items; a single item is a list of one.
- `ChatContext.truncate`, `copy`, `to_dict`, `from_dict` and provider formats: no ordering law beyond those of insert and merge.
- Python lists as fields are sequences reassigned by the methods; a caller that keeps a reference to the list of a context and changes it is not modelled.
- StreamLaws.ChunkingInvisible: for context lengths up to the threshold of StreamLaws.ChunkingThreshold; above it chunking does show, under the condition of StreamLaws.ChunkingShowsIff.
- The streams are over the word scanner with spans; tokenizers without spans and the sentence and paragraph tokenizers (regular expressions, a foreign library) are not part of this model.
- ReplaceStream.ReplaceInText: lower-casing is a function of the text.
- Hyphenator.Hyphenator.HyphenateWord: `str.lower` is taken to be a function that never shortens a text; the pattern data itself is not included.
- Hyphenator.Hyphenator.Init: a part of a pattern between its letters that `int` would read although it holds other characters (a sign, an underscore between digits, digits of other scripts) is taken to raise.
- Realtime-model reply tasks: they have no step bound and depend on a session not modelled. What speech tasks do between the points at which they touch a handle and the session's own events are left out; a cancelled task is one that raises. The done callbacks of one finishing task are one step.
- SpeechTheorems.NoLostWakeUp: safety only; that a woken coroutine eventually runs is up to the event loop.
- SpeechActivity.AgentActivity.ToWait: a blocked task is given with the handle of its task info; tasks without info are not modelled.
- The heap of `heapq` is a list from which the smallest entry is taken; the retry on equal timestamps is left out, since timestamps grow strictly.
- AudioLaws.SegmentRuns: the duration clause needs one channel, for the reason AudioBytes.FlushSamples gives. The decoder branch for encoded audio, resampling, debug dumps and the checks inside the frame class of the media library are left out.
- PoolLaws.LaunchedOnce: safety only. A send that fails after the job was set, the thread executor, timeouts, memory limits and pings are left out; closing the pool is the flag that spawn tasks and the main task read.
- IpcMessages.MessageReads: the protobuf of a job is its serialized bytes; `write_double`, which no message uses, is left out.
- Channel.WriteMessage: what a buffer holds after a writer raised is not stated, since the buffer is dropped.
- FallbackReplay.ReplayComplete: what a provider does with its channel, recovery tasks and resampling are left out; a recovery only makes a provider available again.
- Sockets, processes, threads, logging, metrics and real time; the web server, the front end, the example agent and the installer.
- Connection pool, strict schemas, moving averages, usage collectors and retry loops: easy members or claims that need heavy assumptions.
