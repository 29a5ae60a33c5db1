# gcgrep, modelled

gcgrep is an indexed grep: a daemon keeps an index of a directory tree and answers
searches from it. What it promises is that the fast path (trigram postings, binary
shards, a dirty list, a file watcher) answers exactly what a plain scan of the files on
disk would. This project models the parts that promise rests on, and proves it of them,
with the precise conditions wherever the code keeps it only under some.

Layout, from the bottom up:

- `Prelude`, `Bytes`, `Sorted`, `Literal`, `Lines`, `Agreement`: byte strings and their order,
  trigrams, literal search with and without ASCII case folding, and the two ways of
  turning matches into reported lines.
- `IndexSpec`, `MemIndex`, `Query`, `Offers`, `Hidden`: the in-memory index as a class,
  runs of updates against a plain map, the literal extracted from a regexp, that it is the
  longest to be had, and exactly which patterns lose files by it.
- `Codec`, `ShardFormat`, `ShardBuild`, `ShardRead`, `ShardQuery`, `ShardRows`: the shard
  file byte by byte, its writer, its separate reader, and the rows they amount to.
- `Ranges`, `EngineSpec`, `Rebuild`, `Failing`, `EngineSearch`, `EngineSteps`, `Engine`,
  `Changes`, `Unnoticed`, `Pruning`: the disk engine. Shards are ranges of paths; a search reads shards
  and dirty files; a rebuild cycle folds dirty files into shards.
- `Recovery`, `Consistency`, `Naming`, `Ordering`, `Truthful`, `Healing`, `RecoveryRuns`:
  the same engine as single steps of the programs that change files, the watcher, the
  goroutine that opens the engine and the rebuild loop, in any interleaving, with a crash
  possible anywhere. Each file is looked at, each shard written, each mark made in a step of
  its own. `AtOnce` ties the steps to the methods of `Engine`; `RecoveryRaces`, `TornReads`,
  `LateMarks`, `RemovalRace`, `Overlap`, `Settling` and `Stranded` are the runs that go wrong.
- `Barrier`, `BarrierRuns`, `BarrierLive`: the read-after-write protocol between programs, the
  watcher, the consumer and a caller, as a state machine over atomic steps: what it keeps in
  every run, and when a call can come to its return.
- `Budget`, `Routing`: workers routing files to the index or to the stream set under a byte
  budget, and where a file ends up by what the disk said of it.
- `Ignore`, `Walk`, `WalkSound`, `WalkLinks`: exclusion rules and the directory walk, with
  symbolic links.
- `Lexis`, `Strip`, `Symbols`: how source text reads as code, comments and literals, blanking
  the latter two, line numbers, type bodies between braces, references.

The file system is a value: paths to size, modification time and content. Regular
expressions are given by their syntax tree and what it accepts. A list of bytes read
from or written to disk is the whole file. Sorting by the library is an insertion sort
here. Several results say exactly when the code keeps its promise, with the input or the run
that shows the condition to be needed:

- A rebuild is invisible to search exactly when it loses no file: a new file whose path
  falls inside a shard's range without being in the shard's table is dropped from the
  dirty list unread (`RebuildIsInvisible`, `LossExample`).
- A cycle that cannot write or open a shard keeps the old one and drops the marks of its
  files all the same, so it goes wrong exactly when one of them was marked for a change
  (`FailingKeepsCoherent`, `FailureExample`).
- The shard ranges stay ordered, as looking up a path needs, exactly when the shard for
  new files spans no shard that stays (`RangesStayOrdered`, `SpanExample`).
- While files change, a rebuild keeps its bookkeeping right exactly when it loses none that
  is not marked again, and every file whose new mark looks like the one the rebuild took
  still is as its row has it (`CycleUnderChange`, `SwallowExample`). Searches are right
  exactly when such a file reads as its row does: a file gone or without text has no row or
  none with content in it; any other is of a size no bound tells apart, and has the same
  lines if its content is in the row, or no trigram the row lacks if not
  (`UnnoticedExactly`, `TouchExample`).
- Pruning a regexp by its required literal loses nothing unless case is folded where the
  literal comes from and the literal has a k or an s, which U+212A and U+017F also match
  (`RegexpPrunes`). For a pattern without assertions that folds case wherever it has one of
  the two, as every pattern does when searching without regard to case, it then does lose a
  file (`LosesExactly`, `NoCaseLoses`, `KelvinExample`); with assertions it need not
  (`AnchoredKeeps`). The source's comment calls the literal a mere hint on which correctness
  does not depend.
- The manifest never names a missing file as long as no cycle starts before the engine is
  open, which the code does not prevent (`NamedFileMissing`), and no manifest that cannot be
  written leaves one on disk that names files about to be removed (`NamedFilesExist`); for
  the second it is enough that it never happens twice in a row (`NeverTwiceIsSafe`,
  `FileStranded`).
- Once the engine is open, every path not owed a mark is answered for rightly, crash or no
  crash and whatever was on disk when the engine was started (`ReadyMeansRight`), if since
  then
  - no cycle started before the engine was open (`MarksForgotten`);
  - of the shards found, those rows that had the size and time of an unmarked file when they
    were installed were the rows of that file, and none was of the same path as another
    (`StaleAfterRestart`), which is exactly when installing them is right
    (`ReconcilingHeals`);
  - the ranges of the shards were in order when a cycle published (`RemovedStays`);
  - cycles lost no file and swallowed no mark, as above;
  - no list of shards that came into use while a removed directory was being marked had a
    file below it that was not about to be marked (`RemovalMissed`);
  - and until the engine was open no directory with files in it was removed
    (`RemovalForgotten`) and no file that the walk missed was back before it was marked
    deleted (`MarkOverwritten`).

  What went wrong before a restart, the restart heals. Ranges stay in order if no new shard
  spans an old one, and rows can be trusted if, besides, content goes by path, size and time
  and no file changes between the two looks that make its row, from the empty directory on
  (`SteadyIsReliable`); these are sufficient, not needed. A search that loads the shards and
  copies the dirty list a little later is right too, unless a cycle comes to its end in
  between (`SearchAcross`, `SearchStraddles`), or marking a removed directory settles a path
  that the shards loaded have and those in use no longer (`SettledTooSoon`).
- The two engines report the same lines for a literal exactly when it has no newline or
  does not occur (`EnginesAgree`).
- A call of the barrier can always come to its return, whatever the others are at, exactly
  unless its cookie was dropped, which happens only at a channel with sixteen others in it
  (`ReturnsUnlessLost`, `LostWhenFull`).
- Skipping ignored directories lists what filtering would, when links are not followed
  (`PrunedIsFiltered`). With links it lists the same exactly when nothing is kept below a
  link to a directory that the full walk has already met below an ignored one
  (`PrunedIsFilteredUnless`, `PrunedDiffersWithLinks`).

## Model

| member | source | states |
|---|---|---|
| Bytes.OccurrenceHasTris | internal/index/index.go:66-71 | a file containing the literal, in either case mode, has every trigram of it and of its lower-cased form |
| Bytes.KeysTellApart | internal/index/index.go:66-71 | two trigram keys are the same exactly if the three bytes are, up to case |
| Bytes.PastPrefix | internal/shard/engine.go:96-112 | strings sharing a prefix form an interval of the byte order, so what sorts past the prefix without it sorts past them all |
| Sorted.Intersect | internal/index/index.go:486-503 | merging two strictly ascending id lists gives the strictly ascending list of exactly the common ids |
| Literal.FoldEqual | internal/index/literal.go:98-105 | true exactly when the lower-cased slices are equal |
| Literal.FoldIndex | internal/index/literal.go:70-96 | the least offset where the folded literal occurs, or -1 if it occurs nowhere, although it only looks at both cases of the first byte |
| Literal.LiteralFindAll | internal/index/literal.go:38-63 | exactly the leftmost non-overlapping occurrences from the start on, none for the empty literal |
| Literal.FindAllIsLeftmost | internal/index/literal.go:38-63 | every listed range is an occurrence, ranges do not overlap, and every occurrence overlaps or precedes nothing that was passed over |
| Literal.LeftmostUnique | internal/index/literal.go:38-63 | a list that is leftmost and non-overlapping is that one list |
| Literal.PickRareByte | internal/index/matcher.go:80-92 | none for the empty literal, else a byte of the literal with the least frequency rank |
| Literal.FoldClass | internal/index/matcher.go:95-110 | two bytes are equal up to case exactly when equal or flipping the case of a letter makes them so |
| Literal.FindFirst | internal/index/matcher.go:95-123 | the first match of the line; looking for the rare byte beforehand never changes the answer in either case mode |
| Lines.MatchContent | internal/shard/engine.go:520-555 | nothing for a file with an early NUL, else one match for each line that has one, told from the text alone: the line's number by the newlines before it, its length, where the first match in it begins, its text unless too long; cut at the limit, or one in files-only mode |
| Lines.ReportsUnique | internal/shard/engine.go:530-555 | what is owed for a file determines the list of matches, cut or not |
| Lines.ScanReports | internal/shard/engine.go:530-555 | the line scan reports each line with a match once, in order, with its number, length, offset and text, and no other line |
| Lines.AppendLineMatches | internal/index/index.go:378-417 | prior matches followed by one report per line on which a match begins, for its first match, cut at the limit; for each the number of its line by the newlines before it, the line's length, where on it the match begins, and its text unless too long |
| Lines.ScanHasMatch | internal/shard/engine.go:520-555 | a line scan that reports anything has an occurrence of the literal to report |
| Agreement.EnginesAgree | internal/index/index.go:378-417 | whole-buffer search grouped by line and line-by-line search report the same lines, columns, lengths and texts exactly when the literal has no newline or does not occur |
| Agreement.BothEngines | internal/shard/engine.go:520-555 | run side by side on content without early NUL, both engines give the same sequence of matches for a newline-free literal |
| IndexSpec.PostingsAppend | internal/index/index.go:93-104 | appending a file's id to the lists of its trigrams keeps every list strictly ascending and exact |
| IndexSpec.PostingsKill | internal/index/index.go:113-120 | marking an entry dead keeps the posting lists exact, since they list dead entries too |
| MemIndex.TrigramKeys | internal/index/index.go:76-86 | each trigram of the content, lower-cased, exactly once |
| MemIndex.Index.RemoveLocked | internal/index/index.go:113-120 | the documents without that path, all index invariants kept |
| MemIndex.Index.MaybeCompact | internal/index/index.go:134-157 | the documents unchanged, and afterwards few entries are dead |
| MemIndex.CompactKeepsView | internal/index/index.go:134-157 | rebuilding the index from its live entries gives the same documents |
| MemIndex.Index.AddWithKeys | internal/index/index.go:93-104 | the documents with the file put under its path, replacing any earlier one |
| MemIndex.Index.Remove | internal/index/index.go:106-111 | the documents without that path |
| MemIndex.Index.RemovePrefix | internal/index/index.go:122-132 | the documents without those at or below the directory |
| MemIndex.Index.Candidates | internal/index/index.go:447-484 | exactly the entries whose trigrams include the literal's, each once; all live ones for literals under three bytes |
| MemIndex.Index.Search | internal/index/index.go:340-376 | the counts of scanning every document and, per path, the lines of doing so; when cut off, exactly as many lines as the limit, per path the first of those owed, and right counts for the files reached; and, told from the documents alone, nothing of a path not wanted, else as many matches counted as the one list of leftmost occurrences is long, or the regexp finds, and the lines of those |
| MemIndex.SearchAfter | internal/index/index.go:88-157 | after any sequence of additions, removals and prefix removals, with any compactions, a search answers as a scan of the plain map does, as far as the limit lets it, and as the documents of that map say by themselves |
| MemIndex.ScanOwes | internal/index/index.go:340-417 | what a scan of the documents counts and reports for a path is what its document owes, with or without folding case |
| MemIndex.PlainIsSound | internal/index/index.go:447-484 | pruning by the lower-cased plain literal loses no file with a match |
| Query.RequiredLiteral | internal/index/query.go:31-68 | the loop over a concatenation computes the required literal of the tree |
| Query.RequiredIsRequired | internal/index/query.go:31-68 | in whatever a pattern may match, where any character takes one to four bytes, its required literal occurs up to ASCII case, unless case is folded where the literal comes from, the literal has a k or an s, and the text has one of the two characters that fold to these |
| Query.ConcatIsRequired | internal/index/query.go:43-64 | the same for the run of adjacent literals and the best so far, in the loop over a concatenation |
| Query.ExtractLiteral | internal/index/query.go:12-27 | the fixed pattern itself, nothing for one that does not parse, else the required literal; lower-cased, and nothing under three bytes |
| Offers.RequiredIsLongest | internal/index/query.go:31-68 | the required literal is in the pattern, as a literal or several side by side, below captures and repetitions and in concatenations, and none there is longer |
| Offers.UsableMeans | internal/index/query.go:12-27 | what is handed to the index is empty exactly if the literal has no trigram, and otherwise occurs, up to case, just where the literal does |
| Query.MatchHasTris | internal/index/query.go:12-68 | a text with a match has the trigrams of the extracted literal, unless case folding can hide that literal and the text has one of the two odd characters |
| Query.RegexpIsSound | internal/index/query.go:12-68 | pruning a regexp search by its extracted literal loses no file with a match, unless case folding can hide the literal |
| Hidden.LosesExactly | internal/index/query.go:12-68 | a pattern without assertions that matches something and folds case wherever it has a k or an s loses a text with a match exactly if its required literal has three bytes or more and one of the two |
| Hidden.NoCaseLoses | internal/index/query.go:12-68 | so does every pattern without assertions when the whole search folds case |
| Hidden.SoundExactly | internal/index/query.go:12-68 | a search of the index for such a pattern is pruned soundly exactly if the literal is shorter, or has neither |
| Hidden.FoldedLiteralLoses | internal/index/query.go:33-37 | for a case-folded literal pruning loses some text with a match exactly if the literal has a k or an s |
| Hidden.AnchoredKeeps | internal/index/query.go:12-68 | a pattern with assertions whose literal has a k, and whose matches have its trigrams all the same |
| Hidden.KelvinExample | internal/index/query.go:33-37 | kit, case-folded, matches a text with a Kelvin sign that does not have its trigrams |
| Codec.LERoundTrip | internal/shard/build.go:148-166 | a number that fits reads back from its little-endian bytes |
| Codec.LEByte | internal/shard/build.go:148-166 | the byte at k is the one that counts for 256 to the k |
| Codec.AppendUvarint | internal/shard/varint.go:7-11 | the ten-byte buffer always suffices and the unsigned LEB128 encoding is appended |
| Codec.ReadUvarint | internal/shard/varint.go:13-16 | the worth of the encoding at the position, shortest or not, and the place past it; zero and no advance if the data ends first; zero and a place before if a uint64 cannot hold it; so an encoded uint64 reads back, and nothing is read out of bounds |
| Codec.UvLength | internal/shard/varint.go:5-16 | a number below 128 to the n takes at most n bytes |
| ShardFormat.Layout | internal/shard/build.go:130-182 | the eight sections follow each other without overlap and fill the file, each starting where the header says |
| ShardBuild.BuildPostings | internal/shard/build.go:83-95 | every key's list is count and deltas, at the offset recorded for it |
| ShardBuild.BuildSymbols | internal/shard/build.go:97-112 | all definition lists in file order, and their number |
| ShardBuild.BuildContents | internal/shard/build.go:114-128 | inlined contents one after the other, each at its recorded offset |
| ShardBuild.Builder.AddWithDefs | internal/shard/build.go:46-62 | one more file, its content stored if small enough, and posting lists that again list exactly the files with each trigram |
| ShardBuild.Builder.Write | internal/shard/build.go:68-182 | the bytes are the shard image of the files and posting lists, under a key order that ascends |
| ShardRead.HeaderReads | internal/shard/shard.go:108-172 | what the header holds at each of its offsets |
| ShardRead.EntryReads | internal/shard/shard.go:274-302 | what a file entry holds at each of its offsets, and where the path is |
| ShardFormat.NumSymsCounts | internal/shard/build.go:97-112 | the number of definitions in the header is how many there are in all |
| ShardRead.Open | internal/shard/shard.go:108-172 | too short and wrong magic are told apart exactly, nothing is read out of bounds on any bytes, and opening a written shard succeeds and describes it |
| ShardQuery.File | internal/shard/shard.go:274-286 | path, size and time of the file as written |
| ShardQuery.FileContent | internal/shard/shard.go:288-302 | the inlined content as written; absent if it was empty or not stored |
| ShardQuery.FileDefs | internal/shard/shard.go:314-361 | the definitions of the file as written, skipping those of the files before it |
| ShardQuery.SearchKeys | internal/shard/shard.go:393-408 | binary search in the mapped key table finds the first key not below the one sought |
| ShardQuery.Posting | internal/shard/shard.go:393-424 | the posting list of a trigram as written, or none if no file has it |
| ShardQuery.Candidates | internal/shard/shard.go:366-391 | in ascending order exactly the ids of files whose trigrams include the literal's; all ids under three bytes |
| ShardQuery.HasTrigrams | internal/shard/shard.go:254-268 | true exactly when every trigram of the literal is in the key table, or it is under three bytes |
| ShardQuery.OpenAndAsk | internal/shard/shard.go:254-442 | written, opened and asked, a shard gives exactly the candidate ids; skipping it for a missing trigram loses none |
| ShardQuery.OpenAndList | internal/shard/shard.go:274-361 | written and opened, every file reads back with path, size, time, definitions and content |
| ShardRows.ReadRows | internal/shard/engine.go:374-397 | what is read back from a builder's bytes is the row the engine model has for each file, and candidates are exactly the rows that may match |
| Ranges.SortFiles | internal/shard/build.go:204-204 | sorted by path, the same files |
| Ranges.GroupByDirBoundary | internal/shard/build.go:203-233 | batches concatenate to the sorted input, none empty, each but the last reaches the target, each stays below target, largest file and minimum together |
| Ranges.BatchesAreOrdered | internal/shard/build.go:203-233 | batches of distinct paths span ordered, disjoint ranges |
| Ranges.ShardForPath | internal/shard/engine.go:78-92 | binary search finds the last shard starting at or before the path, if it reaches the path |
| Ranges.ShardForIsExact | internal/shard/engine.go:75-92 | with ordered ranges it is the one shard covering the path, and there is none when it finds none |
| Ranges.ShardsForPrefix | internal/shard/engine.go:96-112 | despite its early exit, every shard covering a path with the prefix is returned, even if ranges overlap |
| EngineSpec.CoherentAnswers | internal/shard/engine.go:319-465 | if every row is right or dirty, every file with text is stored or dirty, and none is stored twice, each search answers as a scan of the disk |
| EngineSpec.LiteralPrunes | internal/shard/engine.go:374-400 | pruning by a plain literal's lower-cased trigrams never drops a file with a line to report |
| Pruning.ReportedHasTris | internal/index/query.go:12-68 | a file of which the disk engine, matching line by line, reports a line has the trigrams of the extracted literal, unless case folding can hide that literal and the file has one of the two odd characters |
| Pruning.RegexpPrunes | internal/index/query.go:12-68 | so pruning a regexp search on the disk engine never drops a file with a line to report, unless case folding can hide the literal |
| EngineSpec.MarkingKeepsCoherent | internal/shard/engine.go:271-281 | marking every changed path after its change keeps searches right |
| EngineSpec.UnmarkedChangeIsMissed | internal/shard/engine.go:271-281 | a new file without a mark is not found, so coherence breaks exactly if it has text |
| Rebuild.KeepsCoherent | internal/shard/engine.go:760-999 | after a cycle, whichever shards the threshold defers, the engine is coherent exactly if no file was lost |
| Rebuild.FewAreLeft | internal/shard/engine.go:794-818 | a cycle takes all marks if they are as few as the threshold; otherwise it leaves fewer than the threshold against each shard, none against files in no shard, and changes none |
| Rebuild.RebuildIsInvisible | internal/shard/engine.go:760-999 | all queries about all paths answer as a scan of the disk after a cycle exactly if no file was lost |
| Rebuild.LostShows | internal/shard/engine.go:848-887 | a lost file has lines that a search for every line does not report |
| Rebuild.RangesStayOrdered | internal/shard/engine.go:914-956 | shard ranges are ordered and disjoint after a cycle exactly if the shard for new files spans no shard that stays |
| Rebuild.CountsAfter | internal/shard/engine.go:838-943 | no path is stored twice after a cycle, and which paths are stored |
| Rebuild.InsertOrdered | internal/shard/engine.go:953-956 | sorting a shard into ordered ones keeps the ranges ordered exactly if it is apart from all of them |
| EngineSearch.SearchShard | internal/shard/engine.go:373-408 | matches of the rows that may match and are not dirty, in order, and a count for every file with any; a shard skipped for a missing trigram had none |
| EngineSearch.SearchSnapshot | internal/shard/engine.go:319-465 | per path exactly the lines owed, or the first of them when cut off, with at least as many lines as the limit and less than twice as many, and right counts; in files-only mode no lines |
| EngineSearch.BothPhases | internal/shard/engine.go:413-462 | shards first and dirty files second give, per path, what the engine owes for it |
| EngineSteps.Triage | internal/shard/engine.go:778-792 | dirty files counted exactly per shard, and those in no shard listed once each with their stat data |
| EngineSteps.Choose | internal/shard/engine.go:794-817 | exactly the shards at the threshold are rewritten, or all dirty ones when little is dirty; exactly the other shards' files are deferred |
| EngineSteps.RewriteShard | internal/shard/engine.go:848-885 | fresh rows for live dirty files, old size and time with content read again for the others, and no row for deleted, missing or newly binary files |
| EngineSteps.RewriteAll | internal/shard/engine.go:838-912 | affected shards replaced in place under fresh numbers, emptied ones dropped, those that cannot be written or opened kept as they were with the number used up, and the files left behind |
| EngineSteps.BuildRows | internal/shard/engine.go:914-943 | one row for each readable new file that is not binary, sorted, and none else |
| Rebuild.SortSameRows | internal/shard/engine.go:946-956 | sorting the new shard list moves rows about and changes none |
| Engine.SortSorts | internal/shard/engine.go:946-956 | the sorted list ascends by smallest path, whatever the list was |
| EngineSteps.SortedShards | internal/shard/engine.go:953-956 | the shards sorted by smallest path |
| Engine.DiskEngine.Search | internal/shard/engine.go:319-465 | the current shards and dirty list answer, per path, what they owe; if coherent and soundly pruned, nothing of a path not there, not wanted or binary, and of any other the lines its content has, as far as the limits let them |
| EngineSpec.DiskScanOwes | internal/shard/engine.go:319-465 | a scan of the disk reports for a path what its file, its size and the query's filters owe by themselves |
| EngineSearch.CoherentTells | internal/shard/engine.go:319-465 | in a coherent state the answer tells, path by path, what the files on disk owe |
| Engine.DiskEngine.MarkDeletedPrefix | internal/shard/engine.go:283-309 | every stored path below the directory is marked deleted, and no path outside it |
| Failing.FailingKeepsCoherent | internal/shard/engine.go:889-943 | when some shards cannot be written or opened, rows and marks are coherent with the disk after the cycle exactly if no file is lost, each marked file of a shard that stays still is as its old row has it, and no text was new with the shard for new files missing |
| Failing.WithoutFailures | internal/shard/engine.go:889-943 | when none fails, what is published is what every other result speaks of |
| Engine.DiskEngine.Rebuild | internal/shard/engine.go:760-999 | the whole new state, whichever shards cannot be written or opened and whether or not the manifest can: shards, dirty list after concurrent marks, number, manifest and pending files |
| Engine.DiskEngine.FullBuild | internal/shard/engine.go:142-196 | from a listing of the disk: ordered shards that are coherent with it without any mark, numbered from zero; or nothing changed, if one cannot be written or opened |
| Engine.DiskEngine.MarkStale | internal/shard/engine.go:222-257 | the two passes over shard rows and listing mark exactly stale rows and files without a row, as deleted or changed as the disk says, over whatever was marked before |
| Engine.DiskEngine.Reconcile | internal/shard/engine.go:200-263 | the openable shards of the manifest, all files it does not name removed, and marks for exactly the stale rows and the files without a row, over whatever was marked before |
| Engine.SweptKeepsNamed | internal/shard/manifest.go:64-87 | removing what the manifest does not name leaves every shard it names to be opened as before |
| Engine.ClearProcessed | internal/shard/engine.go:982-996 | a mark goes exactly if the cycle took it, its path was not deferred and it still looks the same |
| Engine.SortedThroughout | internal/shard/engine.go:142-186 | nonempty shards whose rows ascend throughout have ordered, disjoint ranges |
| Changes.AfterWrite | internal/daemon/store.go:625-629 | a file written and marked keeps the engine coherent |
| Changes.AfterRemove | internal/daemon/store.go:612-617 | so does a file or directory removed and marked with all stored below it |
| Changes.CycleUnderChange | internal/shard/engine.go:982-996 | while files change, a cycle keeps rows and marks coherent with the disk exactly if no file that is not marked again is lost, and each file whose new mark goes with the old one is as its row has it, or has no row and nothing to report |
| Changes.SwallowedAnswers | internal/shard/engine.go:992-994 | about such a file every query is answered from the row the cycle made, whatever the file is now |
| Changes.SwallowedShows | internal/shard/engine.go:992-994 | a literal the file has now, with a trigram it did not have before, is not found |
| Changes.SwallowExample | internal/shard/engine.go:992-994 | a coherent state, a cycle that loses nothing, and a file written again meanwhile about which a search is then wrong |
| Unnoticed.UnnoticedExactly | internal/shard/engine.go:982-996 | while files change, every soundly pruned search after a cycle is right exactly if no file that is not marked again is lost, and each file whose new mark goes with the old one reads as its row: gone or without text and nothing inlined, or of a like size and with the same lines if inlined, else without a newline-free trigram that the row lacks |
| Unnoticed.RegexpIsLineSound | internal/index/query.go:12-68 | regexp searches whose literal case folding cannot hide are among the soundly pruned ones |
| Unnoticed.TouchExample | internal/shard/engine.go:992-994 | a file touched while a cycle runs makes its row wrong, and no search can tell |
| Changes.FailureExample | internal/shard/engine.go:893-903 | a coherent state, a cycle that loses nothing but cannot write a shard, and a search that then misses what a file has |
| Changes.LossExample | internal/shard/engine.go:782-784 | a coherent state from which a cycle loses a file |
| Changes.SpanExample | internal/shard/engine.go:914-943 | a coherent state from which a cycle leaves overlapping ranges |
| RecoveryRuns.NamedFilesExist | internal/shard/manifest.go:29-100 | in every run from an empty directory, whatever changes on disk and at every point a crash can hit, all shard files the manifest names exist, if no cycle starts before the engine is open and no manifest that cannot be written leaves one that names files about to be removed |
| RecoveryRuns.NeverTwiceIsSafe | internal/shard/engine.go:969-976 | for the second it is enough that no two manifests in a row, of one process, cannot be written |
| RecoveryRuns.ReadyMeansRight | internal/shard/engine.go:142-263 | in every run that was harmless since its last start, whatever it started from, the open engine answers for each path not owed a mark as a scan of the disk |
| RecoveryRuns.SearchAcross | internal/shard/engine.go:319-327 | a search that loads the shards at one moment and copies the dirty list at a later one is right, even if the shards have been replaced in between, as long as no cycle has come to its end and no path the shards loaded have was forgotten in settling a removed directory |
| RecoveryRuns.SteadyIsReliable | internal/shard/engine.go:142-263 | ranges are in order whenever a cycle publishes if no new shard spans an old one, and rows can be trusted whenever they are installed if reads are steady too, from the empty directory on |
| Naming.KeepsNamed | internal/shard/engine.go:142-263 | every single step of opening, rebuilding, marking or crashing keeps named files present, shards in memory stored under numbers of their own, and files to be removed out of use |
| Naming.KeepsSweep | internal/shard/manifest.go:64-87 | removing files the manifest does not name keeps those it names and those found |
| Naming.KeepsWriteFirst | internal/shard/engine.go:159-176 | each shard of a first build goes into a file of its own |
| Naming.KeepsWriteShard | internal/shard/engine.go:893-903 | writing one shard file in a cycle overwrites none in use or named |
| Naming.KeepsPublish | internal/shard/engine.go:945-965 | the list a cycle publishes is stored, under numbers of its own below the next one |
| Naming.KeepsWriteManifest | internal/shard/engine.go:969-976 | every shard the new manifest names is on disk when it is written, and it names no file removed next |
| Naming.KeepsClean | internal/shard/engine.go:1001-1011 | removing an earlier cycle's files removes none in use or named |
| Naming.KeepsFinish | internal/shard/engine.go:974-996 | the files a cycle replaced are in use no more when they are queued for removal |
| Recovery.CycleRetires | internal/shard/engine.go:838-912 | no file a cycle replaces is among those it publishes, though it leaves other shards under their old numbers |
| Naming.KeepsSaved | internal/shard/manifest.go:29-100 | what a restart would open changes only when a manifest is written, and then to the list in use, whatever files are written or removed meanwhile |
| Ordering.KeepsOrdered | internal/shard/engine.go:914-943 | every step keeps the ranges in order, in use and as a restart would find them, if no new shard spans an old one |
| Ordering.OrderedWork | internal/shard/engine.go:914-943 | a publish keeps them in order exactly then |
| Truthful.KeepsTrue | internal/shard/engine.go:760-999 | with steady reads every step keeps stored rows true of the file that had their size and time, whatever cycles lose and whichever marks they drop |
| Truthful.TrueAfterCycle | internal/shard/engine.go:848-943 | fresh rows, rows read again under their old size and time, and rows of new files are all true |
| Healing.KeepsRight | internal/shard/engine.go:142-309 | every harmless step keeps shards, marks and owed marks together coherent with the disk once open, and on the way there |
| Healing.ReconcilingHeals | internal/shard/engine.go:200-263 | reconciling, over a listing taken file by file while files change, restores coherence exactly if no path has two rows and the rows with the size and time of an unmarked file are that file's |
| Healing.FirstBuildIsCoherent | internal/shard/engine.go:142-196 | a first build over files that change between listing, reading and publishing is coherent once marks are counted in |
| Healing.PublishedIsCoherent | internal/shard/engine.go:838-965 | so is the list of a cycle that reads its files one by one while they change |
| Healing.PlanSeesRight | internal/shard/engine.go:848-943 | the rows published for processed marks are those of the files as the cycle saw them, none for deleted ones, and none is missing unless lost |
| Healing.DroppingIsSafe | internal/shard/engine.go:982-996 | dropping processed marks that still look the same keeps coherence if none stands for a later change |
| Healing.KeepsMarkBelow | internal/shard/engine.go:283-309 | marking what is stored below a removed directory settles every path below it |
| AtOnce.CycleAtOnce | internal/shard/engine.go:760-999 | a cycle whose reads all fit one moment publishes what the cycle told in one go does |
| AtOnce.DroppedIsCleared | internal/shard/engine.go:982-996 | and drops the same marks |
| AtOnce.BuiltAtOnce | internal/shard/engine.go:142-186 | the first build told in one go is one of those told in steps |
| RecoveryRaces.NamedFileMissing | internal/shard/engine.go:125-127 | a run in which the rebuild loop ticks while orphans are being removed and the manifest ends up naming a removed file |
| Stranded.FileStranded | internal/shard/engine.go:969-976 | a run in which two manifests in a row cannot be written, the second cycle removes the files the first replaced, and the manifest on disk names one of them |
| RecoveryRaces.MarksForgotten | internal/shard/engine.go:222-260 | a run in which it ticks between marking and installing, and the engine opens with a file no search finds, all other conditions met |
| Healing.StoredIsMarked | internal/shard/engine.go:283-309 | settling a removed directory forgets no path stored in the shards in use |
| RecoveryRaces.SearchStraddles | internal/shard/engine.go:319-327 | a run in which a cycle publishes and drops its marks between the two, and the search misses a file |
| TornReads.StaleAfterRestart | internal/shard/engine.go:854-873 | a run in which a file is written between the two looks of a cycle, and a restart installs its old text under its new size and time, all other conditions met |
| LateMarks.MarkOverwritten | internal/shard/engine.go:237-242 | a run in which a file the walk missed is written and marked, and then marked deleted by reconciling |
| LateMarks.RemovalForgotten | internal/shard/engine.go:283-309 | a run in which a directory is removed while the engine opens, and a file that was in it goes on being reported |
| RemovalRace.RemovalMissed | internal/shard/engine.go:283-309 | a run in which a cycle publishes a file below a directory while its removal is being marked, and the file goes on being reported |
| Overlap.RemovedStays | internal/shard/engine.go:767-784 | a run in which a new shard spans an old one, and a cycle that works on ranges out of order drops the mark of a removed file and keeps its row, all other conditions met |
| Settling.SettledTooSoon | internal/shard/engine.go:283-309 | a run in which a cycle drops the row of a file that is gone, its directory is removed, and a search that loaded the shards before reports it |
| BarrierRuns.ReadAfterWrite | internal/daemon/store.go:543-587 | in every run, when the barrier returns with its own cookie and its flush through, every write made before the call has been applied from a later read, unless the file was deleted since |
| Barrier.KeepsStep | internal/watch/watch.go:133-226 | every step keeps the invariant: a path with a write not applied is in the queue, pending, being handed over, queued in a batch or being applied |
| Barrier.KeepsDequeue | internal/watch/watch.go:157-181 | moving an event to the pending set, or a cookie to the barrier, loses no path and no directory to be watched |
| Barrier.KeepsAdd | internal/watch/watch.go:116-131 | while a new directory is walked, every directory not yet watched is still ahead of the walk |
| Barrier.KeepsList | internal/watch/watch.go:116-131 | listing a directory hands its subdirectories to the walk |
| Barrier.KeepsAccept | internal/watch/watch.go:192-201 | a flush puts everything pending into the batch it waits for |
| Barrier.KeepsWriteCookie | internal/daemon/store.go:563-569 | the cookie goes behind every path on its way |
| Barrier.KeepsAsk | internal/daemon/store.go:573-586 | with its own cookie back, no path written before the call is left in the queue |
| Barrier.KeepsEndBatch | internal/daemon/store.go:524-541 | when the caller's batch is at an end, all its paths are applied |
| Barrier.KeepsPickDir | internal/daemon/store.go:618-624 | listing one directory hands on its files to be read and its subdirectories to be listed, so no file found through it is lost |
| Barrier.KeepsStore | internal/daemon/store.go:411-460 | storing what was read never takes a path back to an older version |
| Barrier.UnwatchedIsCovered | internal/watch/watch.go:171-179 | a file in a directory not yet watched is found through what created the directory |
| BarrierLive.ReturnsUnlessLost | internal/daemon/store.go:543-587 | from wherever a run has come to, watcher, consumer and caller can go on by themselves to the return of a call at work, exactly if its cookie is not lost |
| BarrierLive.LostWhenFull | internal/watch/watch.go:157-170 | a cookie is lost only when it is taken from the queue while the channel is full |
| BarrierLive.Rests | internal/daemon/store.go:524-541 | a batch at work, with all the directories to be listed for it, can always be brought to its end |
| BarrierLive.RegistersAll | internal/watch/watch.go:116-131 | a walk to watch a new directory can always be brought to its end |
| BarrierRuns.BarrierReturns | internal/daemon/store.go:543-587 | a run in which a file is written, the barrier is called and returns, so the guarantee is not empty |
| Budget.RoutingIsSafe | internal/daemon/store.go:411-499 | in every interleaving the budget is never exceeded, no file is in both index and stream set, and every finished readable file is in exactly one |
| Budget.RestIsBalanced | internal/daemon/store.go:465-480 | with no worker at work the total is the indexed sizes plus exactly what deletions left in it, so never below them |
| Budget.WorkBalances | internal/daemon/store.go:411-499 | each single step keeps the total equal to indexed sizes, workers' claims and leaked bytes together |
| Budget.FinishedIsRouted | internal/daemon/store.go:455-489 | a worker that finishes a readable file leaves it in exactly one place, with its size |
| Routing.FinishedWhereItBelongs | internal/daemon/store.go:411-489 | in every interleaving, by what one worker was told of its file: it ends in the index, with its size, if within the limit, let in by the budget, read and not binary; in the stream set if over the limit, refused or binary; in neither if not found or not read |
| Routing.RefusedIfFull | internal/daemon/store.go:411-489 | with no other worker active the file is refused exactly if the total and its size exceed a budget that is set |
| Ignore.Compile | internal/ignore/ignore.go:54-98 | the tokens of the pattern without its outer slashes, directory-only and anchored as the slashes say; and of the rule itself, for a pattern with one wildcard: a star in a name stands for any stretch of it and a question mark for one character of it, neither for a slash, a name in a directory for names right in it, two stars above a name for any directories, two stars below a directory for all below it |
| Ignore.WildcardsMean | internal/ignore/ignore.go:52-130 | the same of any rule with the tokens of such a pattern: which paths it ignores, and all below them |
| Ignore.GitMeans | internal/ignore/ignore.go:116-118 | the four tests for .git hold exactly if it is one of the names on the path |
| Ignore.TreeMeans | internal/ignore/gitignore.go:28-56 | the rules of the root see the whole path, those of each directory above it the rest of it, and no others see any |
| Ignore.PrefixIsAncestor | internal/ignore/ignore.go:90-96 | a rule's prefix expression matches a path exactly when its exact expression matches a proper ancestor |
| Ignore.RuleClosed | internal/ignore/ignore.go:119-127 | what a rule ignores as a directory it ignores with everything below |
| Ignore.IgnoredClosed | internal/ignore/ignore.go:115-130 | so does the whole matcher, with its rule for .git |
| Ignore.TreeClosed | internal/ignore/gitignore.go:28-56 | so do the .gitignore files of a tree |
| Ignore.BaseNameRule | internal/ignore/ignore.go:60-69 | a pattern without slashes matches a path exactly when it matches its last name |
| Ignore.NameRule | internal/ignore/ignore.go:52-130 | a line that is just a name excludes what has that name at any depth, directories only if it ends in a slash, and everything below such a directory |
| Ignore.CheckIgnored | internal/ignore/ignore.go:115-130 | the loop over the rules decides whether the path is ignored |
| Ignore.GitignoreTree.Ignored | internal/ignore/gitignore.go:28-56 | loading files as needed and keeping them, the answer is that of consulting every directory on the way |
| Walk.Walker.Walk | internal/walkdir/walkdir.go:22-76 | the recursion over one shared set ends on every finite graph and visits what the walk specifies |
| Walk.LinksOnce | internal/walkdir/walkdir.go:53-61 | each link target is entered through a link at most once, and the root never |
| Walk.NothingMissed | internal/walkdir/walkdir.go:32-76 | every regular file of every readable directory reachable from the root is reported under a path to its directory |
| WalkSound.NothingMadeUp | internal/walkdir/walkdir.go:32-76 | all that is reported is a file or a directory, or with links followed a link to one, of a directory entered, under its path; and no directory is entered but by a way from the root, step by step, into none that is to be skipped |
| WalkSound.NothingTwice | internal/walkdir/walkdir.go:32-76 | no path is reported or listed twice, whatever links there are, if the names in a directory are different |
| WalkSound.ListedIs | internal/daemon/store.go:278-299 | listed are exactly the files visited that are neither ignored nor cookies |
| Walk.ListFiles | internal/daemon/store.go:278-299 | the files of the pruned walk that are neither ignored nor cookies, in order |
| Walk.PrunedIsFiltered | internal/daemon/store.go:278-299 | without following links, skipping ignored directories lists exactly the walked files not ignored themselves |
| WalkLinks.PrunedIsFilteredUnless | internal/daemon/store.go:278-299 | with links followed, skipping ignored directories lists as many files as filtering and those kept below links to directories that only the full walk has met by then, so the lists are equal exactly if there are none |
| WalkLinks.EqualUnlessHidden | internal/walkdir/walkdir.go:53-61 | the lists are equal if the skipping walk enters no link to a directory that the full walk first meets below an ignored one |
| WalkLinks.EqualUnlessLinkIgnored | internal/walkdir/walkdir.go:53-61 | in particular if no directory with a link to a directory in it lies at or below an ignored one |
| Walk.PrunedDiffersWithLinks | internal/daemon/store.go:278-299 | with links followed, a tree where pruning lists a file that filtering does not |
| Walk.StoreClosed | internal/daemon/store.go:502-504 | the store's combined exclusion is closed under descendants |
| Lexis.EveryTextReads | internal/symbol/strip.go:6-142 | every text reads in some way as code, comments and literals, each as the language has them |
| Strip.StripCLike | internal/symbol/strip.go:6-74 | however the text reads, what comes out is its code and the marks of its literals as they are, and all else blank but for newlines; in place, as the state machine specifies |
| Strip.CPieceBlanks | internal/symbol/strip.go:6-74 | a piece of code stays, a comment goes, and of a quoted or backticked literal the inside goes, whatever follows, which comes out as it would by itself |
| Strip.StripCBlanks | internal/symbol/strip.go:6-74 | so for any text piece by piece |
| Strip.NoCommentLeft | internal/symbol/strip.go:6-74 | no comment opener is left anywhere in stripped text |
| Strip.StripPython | internal/symbol/strip.go:76-130 | the same for Python, with comments, quoted and triple-quoted strings |
| Strip.PPieceBlanks | internal/symbol/strip.go:76-130 | piece by piece: code stays, comments and the insides of strings go |
| Strip.StripPBlanks | internal/symbol/strip.go:76-130 | so for any Python text |
| Strip.PythonPositions | internal/symbol/strip.go:76-130 | length and newlines kept, changes only to spaces, and no hash sign left |
| Symbols.CountLines | internal/symbol/symbol.go:73-81 | one more than the newlines before the offset |
| Symbols.FindLine | internal/symbol/symbol.go:96-107 | binary search over line starts gives the same line as counting newlines |
| Symbols.StrippedLine | internal/symbol/refs.go:18-42 | a line found in stripped text is the line in the source |
| Symbols.DepthCounts | internal/symbol/java.go:56-85 | the depth between two offsets is the opening braces there less the closing ones |
| Symbols.BraceRange | internal/symbol/java.go:56-85 | the first brace before any semicolon, up to the brace that closes it or the end, or nothing exactly if there is no such brace |
| Symbols.Laminar | internal/symbol/java.go:56-85 | any two ranges found on one text, balanced or not, are nested, identical or apart |
| Symbols.Innermost | internal/symbol/java.go:87-98 | none exactly if no type encloses the position, else the last enclosing one to open |
| Symbols.InnermostIsSmallest | internal/symbol/java.go:87-98 | it lies within every other enclosing type |
| Symbols.ContainerAt | internal/symbol/java.go:100-105 | the name of the smallest enclosing type, or empty |
| Symbols.LooksLikeCall | internal/symbol/refs.go:47-58 | true exactly if a parenthesis follows or the letters of new precede |
| Symbols.Refs | internal/symbol/refs.go:18-62 | one reference per line with a whole-word occurrence outside comments and strings, not on defining lines, in order, with source line numbers; it tells of the first word found on its line, going by occurrences that do not overlap; for an identifier, however the source reads, the references are to the first word in code of each line, and no line with one is missing |
| Symbols.WordsAreCode | internal/symbol/refs.go:18-42 | the words of an identifier that stripped text has are those the source has in code: none comes from a comment or a literal, and none in code is lost |
| Symbols.WordIsWhole | internal/symbol/refs.go:30-45 | a word of an identifier is a whole stretch of name bytes, not part of a longer one |
| Symbols.IdentRefs | internal/symbol/refs.go:18-62 | for identifiers no word is passed over: each reference tells of the first word on its line, and no such line is missing |

## Left out

- Sockets, pipes, encodings of requests, argument parsing, configuration and daemon start: plumbing with few invariants.
- Parsing, simplifying and matching regular expressions: the library is taken to find matches only where the pattern may match, and (?i) to change the tree only by its flag.
- Query: pattern literals are ASCII, and how characters outside ASCII fold in a class is left open. The code lower-cases non-ASCII letters in the extracted literal but not in the index, so pruning a pattern with such letters is outside the model.
- UTF-16 files: transcoding is left to the library, and files are bytes as indexed.
- Memory-mapping reference counts, buffered readers and file handles: reads are lookups in a value, renames are atomic.
- Goroutines, locks and channels as such: the barrier, the budget and crash recovery are state machines over values, because what matters there is how the steps interleave. Listing the stream set for a client is left out with the client.
- RecoveryRuns.ReadyMeansRight: says nothing of paths changed and not yet marked, which is what the barrier is for, and takes a cycle to be able to write its shards; `Failing` says what comes of it otherwise. Looking a path up and marking it are one step, as are opening the shards the manifest names, and dropping the marks of a cycle; a walk looks at each path once.
- RecoveryRuns.NamedFilesExist: takes reading the manifest to succeed, as does the rest of the project.
- Symbol definitions in the memory index and in rebuilt shards, and definition lookup on the disk engine: they ride along with the entries unchanged.
- Search workers of the disk engine run one after the other in the model; each writes a slot of its own, and the slots are merged in order.
- Engine.DiskEngine.Search: reads all its files at one moment, also where RecoveryRuns.SearchAcross lets time pass between loading the shards and copying the dirty list.
- Engine.DiskEngine.Rebuild: keeps no totals of files and bytes for the status display.
- BarrierRuns.ReadAfterWrite: starts from a ready, coherent state and covers neither event overflow with its rescan, nor reloading of the control file, nor timeouts beyond giving up; deletions are of files in watched directories.
- Budget: files being indexed and deleted at the same time by different goroutines are on distinct paths.
- Ignore: reading rule files line by line, and editing a .gitignore after it was loaded, which the code does not notice either.
- Walk: unreadable directories are skipped, as in the code; errors other than skipping do not end the walk early.
- Lexis: a comment is what the code takes for one, so `/*/` is a whole one, though no compiler reads it so.
- Symbols: the regular expressions that find type declarations and the heuristics for methods; ranges, containers and references take their results as given.
