# Origin Workbench: client caches, scanners and small protocols

This project models the hard logic of the Origin Workbench front end and proves it. That logic keeps
client-side caches in agreement with a simple truth while HTTP responses, WebSocket events and optimistic
mutations all write them; it scans and rewrites streamed Markdown; and it runs a few small protocols with
timers and microtasks. The code is TypeScript. Every handler, loop and class method that changes state is
an imperative Dafny method or class, proved against a specification function, and the promises of the
design are lemmas about those functions, over every input and every run.

| file | part of the system |
|---|---|
| `IssueCache.dfy`, `BucketRefinement.dfy` | the bucketed issue list and its refinement to one flat map |
| `QueryCache.dfy`, `EventEffects.dfy`, `CacheCoherence.dfy`, `UpdateMutation.dfy` | list, detail, children, my-issues and progress caches under events and optimistic updates |
| `IssuePages.dfy`, `TranscriptPages.dfy` | offset and keyset pagination against a server list |
| `StreamingBlocks.dfy` | the block splitter behind streamed Markdown |
| `LinkScanner.dfy`, `Linkify.dfy`, `LinkRewriter.dfy` | finding Markdown links, detecting bare ones, rewriting them |
| `TaskMessages.dfy`, `Transcript.dfy` | event merging that converges whatever the delivery order |
| `CommentCascade.dfy` | deleting a comment with everything below it |
| `Inbox.dfy` | grouping notifications, archiving a group |
| `SocketLifecycle.dfy` | the reconnecting WebSocket client |
| `WorkspaceChat.dfy` | workspace switches, their microtasks, and the per-workspace chat store |
| `Options.dfy`, `Sequences.dfy`, `StableSort.dfy`, `UniqueKeys.dfy`, `Text.dfy` | absent values, filtering, JavaScript's stable sort, unique keys, splitting and trimming |

## What the proofs found

- **Appending text can change a completed block.** A paragraph flushed by a line that so far reads `$$`
  is merged back when more is typed on that line. `AppendStability` shows this is the only case: completed
  blocks survive every continuation exactly when the last line is not such a fence. Without any
  condition, all but the last two blocks survive.
- **Writing a stale entry makes it look current.** The query client marks an entry fresh whenever data is
  written to it. When an update event patches a children list that was marked stale, wrong copies of
  siblings come back as if current (`StaleListRevived`, with the state of `StaleListExample`), and a rollback
  does the same. `HeldUpdateCoherentIff` and `RollbackCoherentIff` say exactly when it goes well.
- **An update of an issue that neither list nor detail holds finds no old parent.** A sub-issue that only its
  parent's page shows is handled right exactly when the event names that parent or changes nothing, and the
  progress of parents only if a change of parent or status comes with a named parent (`UnheldUpdateCoherentIff`).
- **Coherence over runs has an exact guard.** `CoherenceOverRunsIff` puts the four exact conditions together:
  the caches agree with the server throughout a run if and only if every event meets its condition.
- **Deleting an issue looks for its parent in the list only.** If the list does not show the issue (a
  cancelled one, or one not loaded), a fresh children list keeps it and fresh progress counts it: `DeleteCoherentIff` gives the exact condition.
- **A label event never writes children lists**, so it keeps them coherent exactly when none has the issue
  or nothing changes (`LabelsCoherentIff`). Its comment also announces the my-issues caches as patched;
  the code only marks them stale, and the model follows the code.
- **Adding an issue and loading a page look for duplicates in one column only.** `AddKeepsInvIff` and
  `PageKeepsInvIff` give the exact conditions under which the board stays free of duplicates.
- **Two messages with one sequence number.** The first one delivered wins, so the final task timeline depends
  on the order exactly when a number does not determine its message (`OrderIrrelevantIff`). Transcript
  upserts of different segments commute exactly when their numbers differ (`UpsertsCommuteIff`).
- **Events for an uncached transcript are dropped.** A transcript is a last-writer-wins map once it is cached.
  Before the first HTTP response every event is lost, so two delivery orders agree exactly when the same
  segments arrive from that response on (`ChannelsConvergeIff`, `EarlyEventIsLost`).
- **Drafts can leak between workspaces.** Typing or clearing a draft after a workspace switch but before the
  rehydration microtask can store the previous workspace's drafts under the new one; `ActionAsMeantIff` says
  exactly when an action is stored right. `WorkspacesAreIsolatedIff`: the shared store behaves as one private
  store per workspace exactly when every action is.
- **A second `connect` breaks the one-socket rule.** If the first socket is still alive it survives
  `disconnect` and schedules a reconnect; otherwise `disconnect` still leaves nothing running
  (`SecondConnectLeaksIff`).
- **Archiving an item with an empty issue id** archives one item although the view groups all such items;
  `ArchiveRemovesGroupIff` gives the exact condition.

## Model

| member | source | states |
|---|---|---|
| `StableSort.StableSortIsUnique` | packages/core/meetings/mutations.ts:27-29 | a sorted sequence that keeps equal keys in their original order is the result of the sort: the contract callers have from JavaScript's stable `sort` |
| `StableSort.SortIsStable` | packages/core/meetings/mutations.ts:27-29 | elements with equal keys keep their order |
| `StableSort.SortPermutes` | packages/core/meetings/mutations.ts:27-29 | sorting keeps every element with its multiplicity |
| `StableSort.FilterSort` | packages/core/inbox/queries.ts:48-58 | selecting before or after a stable sort is the same |
| `Text.SplitAppend` | packages/ui/markdown/StreamingMarkdown.tsx:51 | the lines of an appended text: only the last line grows, new ones follow |
| `Text.SplitRoundTrip` | packages/ui/markdown/StreamingMarkdown.tsx:51 | the lines, each ended by a newline, are the text and one newline; no line holds a newline |
| `Text.TrimKeepsVisible` | packages/ui/markdown/StreamingMarkdown.tsx:63-64 | trimming loses only white space, and gives the empty string exactly when nothing else is there |
| `Text.TrimCutsEnds` | packages/ui/markdown/StreamingMarkdown.tsx:63-64 | trimming cuts all white space at both ends and nothing else |
| `Text.SpaceCharacters` | packages/ui/markdown/StreamingMarkdown.tsx:63-64 | the 25 white space characters, one by one |
| `IssueCache.LookupFinds` | packages/core/issues/cache-helpers.ts:27-36 | the lookup finds an issue exactly when one of the six listed buckets has its id |
| `IssueCache.LookupIsUnique` | packages/core/issues/cache-helpers.ts:27-36 | under the invariant the location found is the only one, and its bucket is that of the issue's status |
| `IssueCache.ViewMember` | packages/core/issues/cache-helpers.ts:27-36 | an issue is visible exactly when the bucket of its own listed status holds it |
| `BucketRefinement.AddStep` | packages/core/issues/cache-helpers.ts:40-49 | adding refines insertion into a flat map: nothing for a cancelled or already known issue; uniqueness and bucket placement are kept |
| `BucketRefinement.AddKeepsInvIff` | packages/core/issues/cache-helpers.ts:40-49 | adding keeps the invariant if and only if no other listed bucket shows the id |
| `BucketRefinement.AddHidden` | packages/core/issues/cache-helpers.ts:40-49 | adding a cancelled issue changes nothing that is shown |
| `BucketRefinement.RemoveStep` | packages/core/issues/cache-helpers.ts:53-64 | removing refines deletion from the flat map and keeps the invariant |
| `BucketRefinement.PatchStep` | packages/core/issues/cache-helpers.ts:71-100 | patching refines a merge in the flat map, in which a move to a status that is not listed is a deletion |
| `BucketRefinement.AddColumns` | packages/core/issues/cache-helpers.ts:40-49 | every column after an addition: the issue comes last in its own and is counted, unless its id is there |
| `BucketRefinement.RemoveColumns` | packages/core/issues/cache-helpers.ts:53-64 | every column after a removal, with its total |
| `BucketRefinement.PatchColumns` | packages/core/issues/cache-helpers.ts:71-100 | every column after a patch, listed or not: replaced in place, or taken out and put at the end elsewhere, with both totals |
| `BucketRefinement.AddKeepsOrder` | packages/core/issues/cache-helpers.ts:40-49 | other issues keep their order, the new one comes last |
| `BucketRefinement.RemoveKeepsOrder` | packages/core/issues/cache-helpers.ts:53-64 | the remaining issues of every column keep their order |
| `BucketRefinement.PatchKeepsOrder` | packages/core/issues/cache-helpers.ts:71-100 | a patched issue keeps its place or enters another column at its end; the others keep their order |
| `BucketRefinement.BatchUpdate` | packages/core/issues/mutations.ts:241-246 | the loop applies the patch to the ids in turn |
| `BucketRefinement.BatchDelete` | packages/core/issues/mutations.ts:273-278 | the loop removes the ids in turn |
| `BucketRefinement.PatchAllStep` | packages/core/issues/mutations.ts:241-246 | a batch patch refines one patch of the whole set of ids in the flat map |
| `BucketRefinement.RemoveAllStep` | packages/core/issues/mutations.ts:273-278 | a batch deletion refines taking the whole set of ids from the flat map |
| `BucketRefinement.BatchOrderIsIrrelevant` | packages/core/issues/mutations.ts:238-278 | what a batch leaves visible depends only on which ids it names |
| `BucketRefinement.RunRefines` | packages/core/issues/cache-helpers.ts:27-100 | over every run of add, remove, patch and batches the buckets keep their invariant and show exactly what the same run on a flat map holds |
| `BucketRefinement.RunKeepsHidden` | packages/core/issues/cache-helpers.ts:40-100 | over every run each column's server total minus loaded issues is unchanged, so no total is clamped at zero |
| `BucketRefinement.FlattenIssueBuckets` | packages/core/issues/queries.ts:45-52 | the loop concatenates backlog, todo, in progress, in review, done and blocked, in this order |
| `BucketRefinement.FlattenedIsView` | packages/core/issues/queries.ts:45-52 | the flattened list holds exactly the issues of the flat map |
| `BucketRefinement.FlattenedIsUnique` | packages/core/issues/queries.ts:45-52 | no id appears twice in it |
| `QueryCache.QueryClient.FindOldParent` | packages/core/issues/ws-updaters.ts:35-40 | the parent before the change: the detail's, else the list's, else none |
| `QueryCache.QueryClient.OnIssueCreated` | packages/core/issues/ws-updaters.ts:12-25 | the new contents and stale marks of all caches after a creation event |
| `QueryCache.QueryClient.OnIssueUpdated` | packages/core/issues/ws-updaters.ts:27-73 | the same after an update event, by old and new parent |
| `QueryCache.QueryClient.OnIssueLabelsChanged` | packages/core/issues/ws-updaters.ts:80-93 | the same after a label event |
| `QueryCache.QueryClient.OnIssueDeleted` | packages/core/issues/ws-updaters.ts:95-117 | the same after a deletion event |
| `QueryCache.QueryClient.MutateUpdate` | packages/core/issues/mutations.ts:131-165 | the optimistic patch of list, detail and old parent's children, and the remembered context |
| `QueryCache.QueryClient.OnUpdateError` | packages/core/issues/mutations.ts:166-176 | what the error handler writes back |
| `QueryCache.QueryClient.OnUpdateSettled` | packages/core/issues/mutations.ts:177-195 | what settling marks stale |
| `EventEffects.MergeIsPatch` | packages/core/issues/ws-updaters.ts:51 | the merged record: what the patch names is new, every other attribute as it was |
| `EventEffects.OldParentIs` | packages/core/issues/ws-updaters.ts:37-40 | the parent before a change: the detail's if it names one, else the visible list entry's |
| `EventEffects.CreationWrites` | packages/core/issues/ws-updaters.ts:12-25 | a creation marks the my-issues lists stale, and for a sub-issue its parent's children list and the progress; it writes the list and loses nothing |
| `EventEffects.UpdateWrites` | packages/core/issues/ws-updaters.ts:46-72 | an update patches exactly the one record in list and detail, and marks the my-issues lists and, when parent or status is named, the progress |
| `EventEffects.UpdateWritesChildren` | packages/core/issues/ws-updaters.ts:54-67 | each children list: patched in place for an unchanged parent, marked stale for the parent left or joined, untouched otherwise |
| `EventEffects.LabelsWrite` | packages/core/issues/ws-updaters.ts:80-93 | a label event changes only the labels, in list and detail, and marks the my-issues lists |
| `EventEffects.DeletionWrites` | packages/core/issues/ws-updaters.ts:95-117 | a deletion drops the issue, its detail and its children list, marks what shows the listed parent's children, and loses nothing else |
| `EventEffects.MutationWrites` | packages/core/issues/mutations.ts:151-163 | the optimistic patch shows at once in list, detail and the copies under the cached parent, and writes nothing else |
| `EventEffects.SettlingMarksOnly` | packages/core/issues/mutations.ts:177-195 | settling changes no data and marks only the entries of the update |
| `CacheCoherence.OldParentIsTrue` | packages/core/issues/ws-updaters.ts:35-40 | from coherent caches the parent looked up is the server's, for every issue held in the list or a detail |
| `CacheCoherence.CoreRun` | packages/core/issues/ws-updaters.ts:12-117 | over every run of the four events, list and detail show the server's record |
| `CacheCoherence.MyListsGoStale` | packages/core/issues/ws-updaters.ts:20-112 | no my-issues list counts as current after any event |
| `CacheCoherence.ListAfterCreation` | packages/core/issues/ws-updaters.ts:21-24 | after a creation the children list of the new issue's parent is stale, and the others are as they were |
| `CacheCoherence.ListStepIff` | packages/core/issues/ws-updaters.ts:12-117 | one children list stays complete and true under an event if and only if it is invalidated, patched to the truth with no child missing, or holds no copy that changes |
| `CacheCoherence.ProgressStepIff` | packages/core/issues/ws-updaters.ts:68-72 | the progress of parents stays current under an event if and only if it is invalidated whenever a parent, or the status of a sub-issue, changes |
| `CacheCoherence.StepCoherentIff` | packages/core/issues/ws-updaters.ts:12-117 | the exact condition under which any of the four events keeps all caches coherent, even while some entries are exempt: the list can take a created issue, and every children list and the progress are spared |
| `CacheCoherence.HeldUpdateCoherentIff` | packages/core/issues/ws-updaters.ts:27-73 | an update of an issue held in detail or list leaves list, detail and every non-stale children list true and complete if and only if the issue moves, has no parent, its parent's list is not cached, or patching that list makes it true and complete |
| `CacheCoherence.UnheldUpdateCoherentIff` | packages/core/issues/ws-updaters.ts:37-72 | for an issue in neither: if and only if every fresh children list with a copy that changes is that of the parent the event names, and fresh progress that changes comes with a named parent |
| `CacheCoherence.UpdateFromFullAgreement` | packages/core/issues/ws-updaters.ts:27-73 | from caches in which stale children lists are true as well, an update of a held issue always keeps coherence, whether or not status or parent changed |
| `CacheCoherence.CopiesAgree` | packages/core/issues/ws-updaters.ts:54-63 | in coherent caches all non-stale copies of an issue are equal and stand under its parent |
| `CacheCoherence.StaleListRevived` | packages/core/issues/ws-updaters.ts:59-61 | patching a stale children list makes wrong sibling copies current |
| `CacheCoherence.StaleListExample` | packages/core/issues/ws-updaters.ts:59-61 | a concrete such state: no board loaded, one detail, one stale children list |
| `CacheCoherence.DeleteCoherentIff` | packages/core/issues/ws-updaters.ts:95-117 | a deletion keeps coherence if and only if the list shows the issue, or no fresh children list of another issue has it and fresh progress does not count it |
| `CacheCoherence.LabelsCoherentIff` | packages/core/issues/ws-updaters.ts:80-93 | a label event keeps coherence if and only if it changes nothing or no fresh children list has the issue |
| `CacheCoherence.CreateKeepsCoherence` | packages/core/issues/ws-updaters.ts:12-25 | a creation event keeps coherence |
| `CacheCoherence.CoherenceOverRunsIff` | packages/core/issues/ws-updaters.ts:12-117 | over a run of events list, details, fresh children lists (true, with no child missing), fresh my-issues lists and fresh progress agree with the server at every moment, and so with each other, if and only if every event meets the exact condition |
| `UpdateMutation.RollbackIsExact` | packages/core/issues/mutations.ts:131-176 | mutate then error restores list, detail and children exactly, cached or absent; only stale marks of the rewritten entries are gone |
| `UpdateMutation.RollbackRestoresData` | packages/core/issues/mutations.ts:131-176 | in terms of data nothing differs from before the attempt |
| `UpdateMutation.RollbackCoherentIff` | packages/core/issues/mutations.ts:131-176 | rolling back keeps coherence with an unchanged server if and only if the old parent's children list, stale or not, was true |
| `UpdateMutation.OnlyTheseWereWritten` | packages/core/issues/mutations.ts:151-163 | the attempt writes no entry but the list, the issue's detail and its parent's children |
| `UpdateMutation.MutatedTracksExcept` | packages/core/issues/mutations.ts:151-163 | the optimistic patch is wrong only in the issue's own list and detail copies and in the children lists of its old and new parent |
| `UpdateMutation.SettledIsTrue` | packages/core/issues/mutations.ts:131-195 | mutate, any run of safe events, success or rollback, settle: every entry not marked stale is the record last announced by the server, every detail but the issue's own is, and everything the attempt wrote is marked stale |
| `UpdateMutation.SettledBeforeEchoIff` | packages/core/issues/mutations.ts:177-195 | measured against the record the server holds but has not announced yet, the same is true if and only if the update changes nothing, or no fresh children or my-issues list has the issue and no fresh progress counts what changes |
| `UpdateMutation.EchoIsSafe` | packages/core/issues/ws-updaters.ts:27-73 | the server's echo of an update of a held issue is always a safe event in between |
| `UpdateMutation.EchoChangesNothing` | packages/core/issues/ws-updaters.ts:46-52 | the server's echo of an applied update changes neither board nor issue page |
| `IssuePages.FetchFirstPages` | packages/core/issues/queries.ts:54-66 | each listed column gets the server's first page and total |
| `IssuePages.ColumnPager.Request` | packages/core/issues/mutations.ts:63-77 | a request starts only when none runs and the column is incomplete; its offset is what is loaded |
| `IssuePages.ColumnPager.Receive` | packages/core/issues/mutations.ts:79-91 | the page is appended without the ids already in the column as it is by then, and the total replaced |
| `IssuePages.ColumnPager.LoadMore` | packages/core/issues/mutations.ts:69-92 | a request answered by one server is one click: the column changes as specified, the others not at all |
| `IssuePages.FirstPagesAreInOrder` | packages/core/issues/queries.ts:54-66 | first pages of well-formed columns that share no issue satisfy the board invariant, have no total below what is loaded, and are where the clicks start |
| `IssuePages.PageNeverDuplicates` | packages/core/issues/mutations.ts:81-87 | no duplicate and no loss in the column, even if it changed while the request ran; what was loaded stays in front and the total is the server's |
| `IssuePages.PageKeepsInvIff` | packages/core/issues/mutations.ts:81-87 | the board stays in order if and only if no new issue of the page stands in another column |
| `IssuePages.ClicksLoadPrefix` | packages/core/issues/mutations.ts:60-92 | after any number of clicks the column is the server's prefix of 50 more issues per click |
| `IssuePages.ClicksLoadAll` | packages/core/issues/mutations.ts:60-92 | the click count at which the whole list is reached, exactly; until then every click comes closer |
| `TranscriptPages.FetchTranscript` | packages/core/meetings/queries.ts:45-60 | the loop returns exactly the segments with positive number, strictly increasing, in floor(n/1000)+1 requests |
| `TranscriptPages.NextPage` | packages/core/meetings/queries.ts:50-56 | a full page and what lies behind its last number are what lay behind the previous one |
| `TranscriptPages.AboveIsSuffix` | packages/core/meetings/queries.ts:50-56 | in a strictly increasing list, what lies behind an element is the rest of the list |
| `StreamingBlocks.SplitIntoBlocks` | packages/ui/markdown/StreamingMarkdown.tsx:49-124 | the scanner loop computes the line-by-line specification, with independent code and math flags |
| `StreamingBlocks.BlankLineSeparatesIff` | packages/ui/markdown/StreamingMarkdown.tsx:99-104 | a text may be followed by a blank line and any other text, with the blocks of both side by side, if and only if it ends outside code and math with nothing or a visible paragraph pending |
| `StreamingBlocks.OpenRunIsCode` | packages/ui/markdown/StreamingMarkdown.tsx:60-78 | a fence opens code wherever the scan is outside code: the pending paragraph is pushed, all lines up to the next fence are collected, `$$` and blank lines included, and the math flag stays |
| `StreamingBlocks.ClosedRunIsCodeBlock` | packages/ui/markdown/StreamingMarkdown.tsx:60-78 | a closed fence run is one block marked as code |
| `StreamingBlocks.MathRunIsOneBlock` | packages/ui/markdown/StreamingMarkdown.tsx:80-98 | a `$$` run is one block that is not code, blank lines included |
| `StreamingBlocks.ParagraphRun` | packages/ui/markdown/StreamingMarkdown.tsx:105-112 | lines that are not empty gather into the pending paragraph |
| `StreamingBlocks.FencedTextIsItself` | packages/ui/markdown/StreamingMarkdown.tsx:49-124 | a text from fence to fence is one code block: itself |
| `StreamingBlocks.OpenFencedTextIsCode` | packages/ui/markdown/StreamingMarkdown.tsx:115-121 | a text with an open fence is one code block |
| `StreamingBlocks.MathTextIsItself` | packages/ui/markdown/StreamingMarkdown.tsx:49-124 | a text from `$$` to `$$` is one block: itself |
| `StreamingBlocks.ParagraphIsOneBlock` | packages/ui/markdown/StreamingMarkdown.tsx:49-124 | a text without blank lines and fences is one paragraph: itself, trimmed |
| `StreamingBlocks.AppendStability` | packages/ui/markdown/StreamingMarkdown.tsx:49-124 | every block but the last survives every continuation if and only if no flushed paragraph can be reabsorbed |
| `StreamingBlocks.StableUnlessReabsorbed` | packages/ui/markdown/StreamingMarkdown.tsx:49-124 | then the blocks are an unchanged prefix and their number never shrinks |
| `StreamingBlocks.ReabsorbedParagraphChanges` | packages/ui/markdown/StreamingMarkdown.tsx:80-88 | one more character on a `$$` line behind a paragraph changes a completed block |
| `StreamingBlocks.AllButTwoStay` | packages/ui/markdown/StreamingMarkdown.tsx:49-124 | all but the last two blocks survive without exception |
| `StreamingBlocks.CompletedKeysStay` | packages/ui/markdown/StreamingMarkdown.tsx:213-218 | a completed block keeps its content and its React key, for any hash function |
| `StreamingBlocks.KeysTellBlocksApart` | packages/ui/markdown/StreamingMarkdown.tsx:215-218 | keys shown together differ; the last is active; completed blocks of two renderings share a key if and only if place and content hash agree |
| `StreamingBlocks.ContentConserved` | packages/ui/markdown/StreamingMarkdown.tsx:56-121 | the blocks' contents hold exactly the visible characters of the input, in order |
| `StreamingBlocks.CodeBlocksAreVerbatim` | packages/ui/markdown/StreamingMarkdown.tsx:60-78 | a closed code block is a verbatim run of lines from opening to closing fence; an open one runs to the end of the input |
| `LinkScanner.IsEscaped` | packages/ui/markdown/linkify.ts:96-102 | the loop decides the parity of the backslash run |
| `LinkScanner.EscapeRule` | packages/ui/markdown/linkify.ts:96-102 | parity is the escape rule: escaped means preceded by a backslash that is not escaped itself |
| `LinkScanner.FindMatchingBracket` | packages/ui/markdown/linkify.ts:104-120 | the first unescaped `]` that returns the depth to zero, or -1 |
| `LinkScanner.FindInlineLinkEnd` | packages/ui/markdown/linkify.ts:122-138 | one behind the first unescaped `)` that returns the depth to zero, or -1 |
| `LinkScanner.DepthCounts` | packages/ui/markdown/linkify.ts:104-138 | depth is the number of unescaped openings minus that of unescaped closings |
| `LinkScanner.FirstCloseBalances` | packages/ui/markdown/linkify.ts:104-138 | that position is the matching bracket: depth zero there and positive everywhere before |
| `LinkScanner.ReadLink` | packages/ui/markdown/linkify.ts:151-172 | one scan step: start, including an unescaped `!`, and end of the link opening here |
| `LinkScanner.FindMarkdownLinkRanges` | packages/ui/markdown/linkify.ts:144-176 | the loop, including its already-covered guard, returns the scan written without the guard: the guard never fires |
| `LinkScanner.LinkReadIff` | packages/ui/markdown/linkify.ts:151-172 | the scanner reads a link at a position if and only if there is one: a balanced label and a balanced tail |
| `LinkScanner.ScannerCorrect` | packages/ui/markdown/linkify.ts:144-176 | ranges are nonempty, strictly ordered, disjoint, in bounds; each is a link; every position with a link lies in one |
| `Linkify.CollectLinkifyMatches` | packages/ui/markdown/linkify.ts:216-248 | the recursive rescan terminates and appends exactly the specified links |
| `Linkify.EmitUntilCut` | packages/ui/markdown/linkify.ts:220-240 | the loop emits whole matches up to the first one that is cut |
| `Linkify.AllEmittedWithoutCut` | packages/ui/markdown/linkify.ts:216-238 | without a cut the links are exactly the matches that do not start with a terminator, with their type, URL and position |
| `Linkify.AllEmittedWithCut` | packages/ui/markdown/linkify.ts:220-246 | with a first cut they are exactly the whole matches before it, the cut match up to its terminator, and every link found by scanning right behind that terminator |
| `Linkify.CutKeepsScheme` | packages/ui/markdown/linkify.ts:226-230 | a cut link's URL is the match's scheme and the link's text |
| `Linkify.TerminatorCharacters` | packages/ui/markdown/linkify.ts:24-25 | the 40 terminators, one by one |
| `Linkify.CollectedCorrect` | packages/ui/markdown/linkify.ts:216-248 | for every conforming oracle: increasing disjoint order, text equal to the slice at the original offsets, no full-width terminator inside |
| `Linkify.DetectLinks` | packages/ui/markdown/linkify.ts:253-288 | URLs, then file paths that overlap nothing before them, sorted by start |
| `Linkify.DetectedCorrect` | packages/ui/markdown/linkify.ts:253-288 | all detected links are slices of the text, sorted and disjoint |
| `Linkify.AllDetected` | packages/ui/markdown/linkify.ts:253-288 | all URLs and e-mails are detected, every file path is unless it shares a character with another link, and nothing else is |
| `LinkRewriter.Splice` | packages/ui/markdown/linkify.ts:306-332 | the loop writes the copied and rewritten pieces of the chosen links |
| `LinkRewriter.PreprocessLinks` | packages/ui/markdown/linkify.ts:294-333 | the whole function, with its early returns, gives the rendering of those pieces |
| `LinkRewriter.UndoRestores` | packages/ui/markdown/linkify.ts:306-332 | undoing the replacements restores the input |
| `LinkRewriter.UntouchedStays` | packages/ui/markdown/linkify.ts:320-330 | text no chosen link overlaps stands in the output, unchanged, at its computed shifted position |
| `LinkRewriter.ChosenIsRewritten` | packages/ui/markdown/linkify.ts:323-326 | each chosen link stands there as `[text](url)` |
| `LinkRewriter.RewrittenUnlessExcluded` | packages/ui/markdown/linkify.ts:310-326 | every detected link stands in the output as `[text](url)` unless it starts in a code or math range, touches a Markdown link or is already linked; then its text stands there unchanged |
| `LinkRewriter.PreprocessConserves` | packages/ui/markdown/linkify.ts:294-333 | undo restores the input, every existing Markdown link survives verbatim, no rewritten link starts in a code or math range or overlaps a Markdown link |
| `TaskMessages.Timeline.OnTaskMessage` | packages/core/realtime/use-realtime-sync.ts:721-729 | one delivery: ignored when the number is known, else inserted in order |
| `TaskMessages.DeliveriesKeepOrder` | packages/core/realtime/use-realtime-sync.ts:721-729 | every list is always strictly increasing and holds only its own task's messages |
| `TaskMessages.DeliveredExactly` | packages/core/realtime/use-realtime-sync.ts:721-729 | afterwards the cache holds exactly what it held and what was delivered |
| `TaskMessages.DeliveryOrderIsIrrelevant` | packages/core/realtime/use-realtime-sync.ts:721-729 | reordered and duplicated deliveries of the same messages end in the same cache |
| `TaskMessages.OrderIrrelevantIff` | packages/core/realtime/use-realtime-sync.ts:726-727 | from an empty cache this holds if and only if a number determines its message |
| `Transcript.TranscriptCache.OnCreated` | packages/core/meetings/mutations.ts:162-177 | HTTP creation replaces the same id and evicts the same number |
| `Transcript.TranscriptCache.OnUpdated` | packages/core/meetings/mutations.ts:193-200 | HTTP update is an upsert |
| `Transcript.TranscriptCache.OnDeleted` | packages/core/meetings/mutations.ts:209-219 | HTTP deletion removes the id and recounts |
| `Transcript.TranscriptCache.OnSplit` | packages/core/meetings/mutations.ts:235-242 | a split upserts the parts and removes the original |
| `Transcript.TranscriptCache.OnMerged` | packages/core/meetings/mutations.ts:258-266 | a merge upserts the result and removes the absorbed segment |
| `Transcript.TranscriptCache.OnWsUpserted` | packages/core/realtime/use-realtime-sync.ts:363-379 | the event handler does nothing while the transcript is not cached, else upserts |
| `Transcript.TranscriptCache.OnWsDeleted` | packages/core/realtime/use-realtime-sync.ts:396-409 | the same for deletions |
| `Transcript.UpsertKeepsValid` | packages/core/meetings/mutations.ts:31-45 | sorted, unique ids, exact total, and exactly the incoming segments and the untouched old ones |
| `Transcript.HttpCreatedKeepsValid` | packages/core/meetings/mutations.ts:162-177 | the same for creation |
| `Transcript.DeleteKeepsValid` | packages/core/meetings/mutations.ts:209-219 | the same for deletion, and both channels delete alike |
| `Transcript.UpsertIsIdempotent` | packages/core/meetings/mutations.ts:31-45 | the same update, split or merge applied twice is applied once, for any cache, segments and removed ids |
| `Transcript.UpsertsCommuteIff` | packages/core/meetings/mutations.ts:31-45 | upserts of different segments commute if and only if their numbers differ |
| `Transcript.CreationDeliveriesConverge` | packages/core/realtime/use-realtime-sync.ts:363-379 | HTTP response and WebSocket event of one creation reach the same cache in either order |
| `Transcript.ReceivedExactly` | packages/core/realtime/use-realtime-sync.ts:363-413 | after any deliveries of creations, updates, splits, merges and deletions over both channels the transcript is valid and holds exactly the segments that stand under last-writer-wins; it stays uncached until the first HTTP response |
| `Transcript.LastWordDecides` | packages/core/realtime/use-realtime-sync.ts:363-413 | what stands under an id is what the last delivery about that id brought |
| `Transcript.ConvergeIff` | packages/core/realtime/use-realtime-sync.ts:363-413 | two delivery sequences end in the same cache if and only if the same segments stand and both or neither had an effect |
| `Transcript.ChannelsConvergeIff` | packages/core/realtime/use-realtime-sync.ts:363-379 | one version of every segment, created or updated, in any order, duplication and choice of channel: a cached transcript always ends the same; an uncached one if and only if the same segments are delivered from the first HTTP response on |
| `Transcript.EarlyEventIsLost` | packages/core/realtime/use-realtime-sync.ts:370-372 | the failing case: an event before the first HTTP response is lost, the same event behind it is kept |
| `CommentCascade.CollectThread` | packages/core/issues/mutations.ts:376-389 | the loop ends with exactly the comment and its transitive replies, for any entry order and cyclic parents |
| `CommentCascade.DeleteComment` | packages/core/issues/mutations.ts:372-394 | the kept entries are the others, in their order, and none replies to a removed one |
| `CommentCascade.DescendantsInClosed` | packages/core/issues/mutations.ts:376-389 | any set with the comment that is closed under replies holds the whole thread: the result is the least one |
| `Inbox.GroupByKey` | packages/core/inbox/queries.ts:40-46 | the insertion-ordered map holds each group in input order |
| `Inbox.Deduplicate` | packages/core/inbox/queries.ts:38-59 | filter, group, pick the head of each sorted group, sort: the specified view |
| `Inbox.ViewIsGroupLeaders` | packages/core/inbox/queries.ts:38-59 | one row per group with an unarchived item, that row is the group's newest item (the first of equals), rows come newest first |
| `Inbox.OneRowPerIssue` | packages/core/inbox/queries.ts:38-59 | rows are unarchived items, and items of one issue share a row |
| `Inbox.LooseItemsHaveRows` | packages/core/inbox/queries.ts:38-59 | an unarchived item without an issue has a row of its own |
| `Inbox.EveryGroupHasARow` | packages/core/inbox/queries.ts:38-59 | every unarchived item's group has a row at least as new |
| `Inbox.ViewIsIdempotent` | packages/core/inbox/queries.ts:38-59 | deduplicating twice changes nothing |
| `Inbox.InboxCache.MutateArchive` | packages/core/inbox/mutations.ts:36-51 | the optimistic archive marks the item and the others of its issue, and remembers the previous list |
| `Inbox.InboxCache.FailedArchive` | packages/core/inbox/mutations.ts:36-58 | a failed archive leaves the list as it was, and stale |
| `Inbox.ArchiveMarksOnly` | packages/core/inbox/mutations.ts:39-49 | archiving sets one flag and nothing else, on the item and on every item of its nonempty issue id |
| `Inbox.ArchiveRemovesGroupIff` | packages/core/inbox/mutations.ts:39-49 | archiving removes exactly the group's row from the view if and only if no other unarchived item shares an empty issue id with it |
| `Inbox.ArchiveUnknown` | packages/core/inbox/mutations.ts:39-49 | archiving an unknown id changes nothing |
| `Inbox.ArchiveCountsOnce` | packages/core/inbox/queries.ts:25-31 | archiving a group lowers the unread count by one exactly when its row is unread |
| `SocketLifecycle.WSClient.Connect` | packages/core/api/ws-client.ts:49-104 | a new socket with a reconnecting close handler becomes the current one |
| `SocketLifecycle.WSClient.OnOpen` | packages/core/api/ws-client.ts:66-75 | token mode sends on the socket held at that time, cookie mode authenticates |
| `SocketLifecycle.WSClient.OnMessage` | packages/core/api/ws-client.ts:77-93 | an acknowledgement authenticates, anything else goes to the registered handlers |
| `SocketLifecycle.WSClient.OnClose` | packages/core/api/ws-client.ts:95-98 | sets a reconnect timer if the handler is still there |
| `SocketLifecycle.WSClient.OnTimer` | packages/core/api/ws-client.ts:97 | the timer connects again |
| `SocketLifecycle.WSClient.Authenticate` | packages/core/api/ws-client.ts:106-118 | every authentication but the first runs the reconnect callbacks |
| `SocketLifecycle.WSClient.Disconnect` | packages/core/api/ws-client.ts:120-136 | clears timer, close handler, socket and all registrations |
| `SocketLifecycle.WSClient.On` | packages/core/api/ws-client.ts:138-142 | adds a handler to its event's set |
| `SocketLifecycle.WSClient.Off` | packages/core/api/ws-client.ts:143-145 | the returned closure removes it |
| `SocketLifecycle.WSClient.OnAny` | packages/core/api/ws-client.ts:148-149 | adds a handler for every message |
| `SocketLifecycle.WSClient.OnReconnect` | packages/core/api/ws-client.ts:155-156 | adds a reconnect callback |
| `SocketLifecycle.WSClient.OffAny` | packages/core/api/ws-client.ts:150-152 | the returned closure removes it |
| `SocketLifecycle.WSClient.OffReconnect` | packages/core/api/ws-client.ts:157-159 | the returned closure removes it |
| `SocketLifecycle.HandlersFollowHistory` | packages/core/api/ws-client.ts:120-160 | in every run the client holds exactly the handlers and callbacks registered by an earlier event and neither removed nor disconnected since |
| `SocketLifecycle.EffectsFollowHistory` | packages/core/api/ws-client.ts:66-118 | in every run a message reaches exactly the handlers the history registered for its kind and for all kinds, an authentication that is not the first since the last disconnect runs exactly the registered reconnect callbacks, the token goes out on the socket that opened, and nothing else runs |
| `SocketLifecycle.LiveRun` | packages/core/api/ws-client.ts:49-136 | in every run, through any number of connections: while connected there is exactly one of a live current socket and the remembered pending timer, otherwise nothing that could run |
| `SocketLifecycle.OneAtATime` | packages/core/api/ws-client.ts:66-72 | an open event belongs to the current socket, so the token goes out on the socket that opened |
| `SocketLifecycle.RoundsRun` | packages/core/api/ws-client.ts:106-118 | until a disconnect, reconnect rounds are authentications minus one |
| `SocketLifecycle.QuietForever` | packages/core/api/ws-client.ts:120-136 | once quiet, and until the owner connects again, no handler, callback or timer runs, whatever happens |
| `SocketLifecycle.LifecycleIsSafe` | packages/core/api/ws-client.ts:49-136 | any run, disconnect, any run without connecting: all of the above together |
| `SocketLifecycle.SecondConnectLeaksIff` | packages/core/api/ws-client.ts:49-136 | a second connect always breaks the one-at-a-time rule, and disconnect then leaves nothing that could run if and only if the first socket was not alive |
| `WorkspaceChat.ChatWorkspace.constructor` | packages/core/chat/store.ts:135-144 | a new store reads session, agent and drafts of the keys without a workspace |
| `WorkspaceChat.InitialIsGood` | packages/core/chat/store.ts:135-144 | the initial state has nothing pending and memory equal to storage |
| `WorkspaceChat.ChatWorkspace.SetCurrentWorkspace` | packages/core/platform/workspace-storage.ts:34-64 | same slug: only the id changes; else each deferred effect is queued at most once |
| `WorkspaceChat.ChatWorkspace.RunNextMicrotask` | packages/core/platform/workspace-storage.ts:46-62 | the next effect runs with the slug current at that time |
| `WorkspaceChat.ChatWorkspace.SubscribeToSlug` | packages/core/platform/workspace-storage.ts:80-83 | adds a subscriber, which reads the current slug |
| `WorkspaceChat.ChatWorkspace.UnsubscribeFromSlug` | packages/core/platform/workspace-storage.ts:84-86 | the returned closure removes it |
| `WorkspaceChat.ChatWorkspace.SetActiveSessionTo` | packages/core/chat/store.ts:156-164 | memory and the workspace's session key are written together |
| `WorkspaceChat.ChatWorkspace.SetSelectedAgentTo` | packages/core/chat/store.ts:165-169 | the same for the agent |
| `WorkspaceChat.ChatWorkspace.SaveDrafts` | packages/core/chat/store.ts:39-50 | the loop keeps exactly the nonempty drafts; none left removes the key |
| `WorkspaceChat.ChatWorkspace.SetInputDraftTo` | packages/core/chat/store.ts:174-180 | memory and stored drafts change together |
| `WorkspaceChat.ChatWorkspace.ClearInputDraftOf` | packages/core/chat/store.ts:187-198 | the same; nothing happens without a draft |
| `WorkspaceChat.KeysAreDistinct` | packages/core/chat/store.ts:124-127 | different kinds of data or different workspaces never share a storage key |
| `WorkspaceChat.WriteThenRead` | packages/core/chat/store.ts:28-50 | reading after writing gives the pruned drafts |
| `WorkspaceChat.EachDraftIsStored` | packages/core/chat/store.ts:28-50 | after writing, reading gives exactly the drafts that are not empty, each with its text; the key is there if and only if there is one |
| `WorkspaceChat.StoredChatMeans` | packages/core/chat/store.ts:124-144 | the stored chat, key by key: session, agent and nonempty drafts |
| `WorkspaceChat.KeyFormat` | packages/core/chat/store.ts:124-127 | the three storage keys with and without a workspace |
| `WorkspaceChat.OtherKeysUntouched` | packages/core/chat/store.ts:156-234 | no event touches a key of another workspace |
| `WorkspaceChat.ActionShowsAtOnce` | packages/core/chat/store.ts:156-198 | an action shows in memory at once, whatever is pending |
| `WorkspaceChat.CurrentIsLastSet` | packages/core/platform/workspace-storage.ts:34-87 | in every run the current workspace is the one last set, and the subscribers are those that subscribed and did not unsubscribe since |
| `WorkspaceChat.DrainsInTwo` | packages/core/platform/workspace-storage.ts:44-63 | two microtasks empty the queue, whatever it holds, and leave memory and subscribers with the current workspace |
| `WorkspaceChat.GoodRun` | packages/core/platform/workspace-storage.ts:34-64 | in every run, unless an effect is pending, memory is the current workspace's stored chat and every subscriber knows the current slug; the queue holds each effect once |
| `WorkspaceChat.DrainedIsSettled` | packages/core/platform/workspace-storage.ts:44-63 | in every run of a new page, once the microtasks have drained, memory is the current workspace's stored chat and every subscriber knows the current slug |
| `WorkspaceChat.TypedDraftReturns` | packages/core/chat/store.ts:174-234 | a typed draft is never lost: after any undisturbed run that does not edit it in its workspace, it is in memory whenever that workspace is current and rehydrated |
| `WorkspaceChat.SessionReturns` | packages/core/chat/store.ts:156-234 | the same for a chosen session, in every run |
| `WorkspaceChat.AgentReturns` | packages/core/chat/store.ts:165-234 | the same for a chosen agent |
| `WorkspaceChat.ActionAsMeantIff` | packages/core/chat/store.ts:156-198 | at any moment an action does to the current workspace's stored chat what it says if and only if it concerns session or agent, or memory and storage agree on the drafts it does not name |
| `WorkspaceChat.OutsideTheWindow` | packages/core/chat/store.ts:156-198 | outside the window between a switch and its rehydration that is always so |
| `WorkspaceChat.WorkspacesAreIsolatedIff` | packages/core/chat/store.ts:124-234 | at every moment of a run each workspace's stored chat is what its own actions made of it if and only if every action met that condition |
| `WorkspaceChat.QuietWindowIsUndisturbed` | packages/core/chat/store.ts:218-234 | in particular when no draft is edited in the window |
| `WorkspaceChat.DraftIsolatedIff` | packages/core/chat/store.ts:174-180 | a typed draft is stored correctly if and only if memory and storage agree on every other session |
| `WorkspaceChat.ClearIsolatedIff` | packages/core/chat/store.ts:187-198 | a cleared draft: the same if memory has the session, else if and only if storage has none for it |

## Assumptions about the outside

- TanStack Query is reduced to get, set, remove and mark-stale. An updater that returns nothing changes
  nothing; writing data makes an entry fresh. A missing entry and one without data are treated alike.
- JavaScript's `sort` is stable (`StableSort`). Sequence numbers and timestamps are integers.
- A browser socket opens only while connecting, delivers messages only while open, and closes once
  (`SocketLifecycle.Enabled`); a cleared timer does not fire. The owner calls `connect` when there is no
  connection: at first, and again only after `disconnect`.
- `linkify-it` returns ordered, disjoint, nonempty slices of the text it is given, with a URL at least as
  long as the text; the file-path expression returns slices of the text that contain their path.
- A subscriber to the workspace slug reads it when it subscribes (`useSyncExternalStore`).
- Whole delivery sequences of a transcript are taken from a pool in which a sequence number identifies a segment id.
- `JSON.parse` gives back the object `JSON.stringify` was given.
- The server counts the progress of a parent from the parents and statuses of its sub-issues; how it counts is not part of
  this model, so the cached progress is represented by what it was counted from.
- The issue of an event has the id of the event; patches carry no explicit `undefined`; ids are never empty strings.

## Left out

- `findCodeRanges` and the regular expressions: the rewriter is proved for arbitrary code ranges.
- The internals of `linkify-it` and the quick test before scanning: an oracle table and a flag.
- `preprocessLinks` is not idempotent (a backslash before a URL escapes the inserted bracket), and nothing of the sort is claimed.
- The hash function behind block keys: the key result holds for any hash.
- Network fetching, cancellation, retry, garbage collection and pagination failures: a failed page only clears the loading flag.
- The values fetched after a stale mark: coherence speaks of entries that are not stale.
- Timeline, reactions and subscriber caches removed with an issue, and the recent-issues store.
- Meeting summaries and insights marked stale beside the transcript, and the rollback of a comment deletion (a plain assignment of the remembered timeline).
- The parent lookup treats a parent id as present or absent; an empty string as parent is not modelled.
- `isExpanded`, window size, focus mode and open state of the chat: not rehydrated or not per workspace.
- Reentrancy: subscribers that switch workspaces, handlers that register, connect, disconnect or throw while they run.
- The order of handlers within one event, `send`, URL building, `setAuth` and logging in the WebSocket client.
- Sort comparators that return `NaN` for malformed dates.
- UTF-16 code units: text is a sequence of characters.
- Snapshots, rollbacks and stale marks of the batch mutations and of single deletion, whose detail cache is dropped and not restored.
- Ideas, missions, councils, ASR jobs, permissions, presence and routes: easy members or plumbing.
