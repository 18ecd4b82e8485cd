# Workspace-edit consolidation, modelled in Dafny

This project models the layer of Sorbet's language server that folds a burst
of workspace notifications into one batch for the typechecker. The
notifications are editor didOpen, didChange and didClose, plus Watchman
filesystem queries. The batch is built in two steps:

- Each notification is reduced into a map from local path to a pending record
  `{contents, newlyOpened, newlyClosed}`.
- The map is then committed as an epoch-stamped `FileUpdates` batch. An empty
  map skips typechecking and hands the snapshot back unchanged.

Modules:

- `WorkspaceTypes` (`types.dfy`): the data model. It holds the edit variants,
  the pending record, file snapshots, the batch, the commit outcome, and
  `Loop`. `Loop` is the read-only state of the server loop the reducers
  consult: the root URI and root path, the URI-to-path mapping, the ignore
  matcher, the offset resolver, the disk, the open-files set and the initial
  snapshot.
- `ContentChanges` (`content_changes.dfy`): applies the content changes of
  one didChange, left to right. A ranged change splices; a range-less change
  replaces the buffer.
- `Preprocess` (`preprocess.dfy`): the four reducers, each a pure function
  on `map<string, FileUpdate>`.
- `Commit` (`commit.dfy`): the committer, the dispatcher that left-folds a
  sequence of edits, and the entry points.
- `Properties` (`properties.dfy`): facts that relate several reducers or
  several applications of one.

Behaviour of the code worth noting:

- A change is seeded from the loop's `initialGS`, not from the snapshot passed
  to the entry point (sorbet_workspace_edit.cc line 44 passes `*initialGS`).
  `Loop.initialGS` and the `gs` argument of the entry points are therefore
  separate.
- For every non-ignored path, the filesystem reducer inserts a default record
  `{"", false, false}` through `updates[localPath]` (line 97). It does this
  even when the editor owns the file and the disk read is skipped. So a
  filesystem notification for an open file still produces a record, and a
  change that follows it in the same batch is seeded from `""`
  (`WatchmanThenChangeSeedsEmpty`).
  A notification on its own for such a file commits an empty buffer for it
  (`WatchmanOnOpenFileCommitsEmptyBuffer`).
- Filesystem paths are built as `rootPath + "/" + file` and get no root-URI
  check. Editor paths must start with `rootUri` and are then mapped by
  `remoteName2Local`.
- The batch lists are vectors filled in hash-map order. They are modelled as
  sets.

Every record in the map satisfies `Consistent`: it is never both newly opened
and newly closed. Each reducer and the fold preserve this.

## Model

| member | source | states |
|---|---|---|
| ContentChanges.Splice | main/lsp/requests/sorbet_workspace_edit.cc:57 | Replacing [start, end) with the text keeps the prefix before start and the suffix from end. The text sits between them, and the length changes by the text's length minus the span's. |
| ContentChanges.ApplyContentChange | main/lsp/requests/sorbet_workspace_edit.cc:46-61 | A range-less change yields exactly its text, whatever the buffer held. A ranged change resolves both LSP positions, shifted by one to one-based line and column, against the buffer before the change. It replaces that span with the text and keeps the prefix and suffix. |
| ContentChanges.ApplyContentChangesAppend | main/lsp/requests/sorbet_workspace_edit.cc:45-62 | The changes are applied in order: applying a ++ b equals applying b to the result of a. The offset side condition splits the same way. |
| ContentChanges.FullReplaceResets | main/lsp/requests/sorbet_workspace_edit.cc:58-61 | A range-less change at index i discards the seed and every earlier change. The result equals applying the changes after i to its text. |
| ContentChanges.LastFullReplaceWins | main/lsp/requests/sorbet_workspace_edit.cc:58-61 | A change list that ends in a range-less change yields that change's text. |
| Preprocess.PreprocessChange | main/lsp/requests/sorbet_workspace_edit.cc:22-66 | Out-of-root or ignored URI: the map is unchanged. Otherwise only the path's record changes. Seed: the pending record if present, else the initial snapshot's source, else "". Existing flags are kept; a new record gets both false. The invariant is preserved. |
| Preprocess.PreprocessOpen | main/lsp/requests/sorbet_workspace_edit.cc:68-78 | Out-of-root or ignored URI: the map is unchanged. Otherwise the path's record becomes {text, opened, not closed}, all other keys are unchanged, and the invariant is preserved. |
| Preprocess.PreprocessClose | main/lsp/requests/sorbet_workspace_edit.cc:80-90 | Out-of-root or ignored URI: the map is unchanged. Otherwise the record becomes {disk contents, not opened, closed}. A file missing from disk reads as "" and nothing fails. All other keys are unchanged and the invariant is preserved. |
| Preprocess.WatchmanFile | main/lsp/requests/sorbet_workspace_edit.cc:94-103 | An ignored path leaves the map unchanged. Otherwise the key is present afterwards and its flags are those it had (false, false if new). Its contents are kept (or "" if new) when the editor owns the file, and read from disk otherwise. No other key changes. |
| Preprocess.PreprocessWatchman | main/lsp/requests/sorbet_workspace_edit.cc:92-105 | The keys afterwards are the old keys plus the non-ignored joined paths, and no other record changes. Each listed path ends as WatchmanFile would leave it from the original map, with no flag changed. The invariant is preserved. |
| Commit.FilesOfCardinality | main/lsp/requests/sorbet_workspace_edit.cc:113-124 | The set of snapshots built from the map has exactly as many elements as the map has keys. |
| Commit.BuildFileUpdates | main/lsp/requests/sorbet_workspace_edit.cc:110-124 | The batch carries the given epoch and exactly one Normal snapshot per key, holding that key's contents. A path is closed iff its record is newlyClosed and opened iff it is newlyOpened. The two lists are disjoint for a consistent map. |
| Commit.CommitWorkspaceEdits | main/lsp/requests/sorbet_workspace_edit.cc:107-129 | No typecheck happens exactly when the map is empty, and the snapshot is handed on unchanged. Otherwise the batch built from the map goes to the typechecker. |
| Commit.ApplyEdit | main/lsp/requests/sorbet_workspace_edit.cc:163-182 | Dispatching one edit to its reducer adds exactly the paths that edit touches to the keys: the local path of an in-scope editor edit, or the non-ignored joined paths of a notification. It preserves the invariant. |
| Commit.ApplyEdits | main/lsp/requests/sorbet_workspace_edit.cc:159-184 | The left fold of the reducers over the edit list preserves the invariant. |
| Commit.FoldKeys | main/lsp/requests/sorbet_workspace_edit.cc:159-182 | The keys after the fold are the starting keys plus every path some edit in the list touched. |
| Commit.HandleWorkspaceEdits | main/lsp/requests/sorbet_workspace_edit.cc:159-184 | Folding from an empty map and committing once hands the snapshot on. Typechecking is skipped exactly when no edit touches a path. Otherwise the batch carries the epoch and one snapshot per touched path, and no others. Its opened and closed lists are disjoint. |
| Commit.SingleEditEntryPoints | main/lsp/requests/sorbet_workspace_edit.cc:131-157 | Each single-kind entry point equals the multi-edit entry point on a one-element list. |
| Properties.WatchmanIdempotent | main/lsp/requests/sorbet_workspace_edit.cc:94-103 | Applying the same filesystem notification twice equals applying it once. |
| Properties.WatchmanRespectsEditor | main/lsp/requests/sorbet_workspace_edit.cc:98-102 | A record the editor owns (newly opened, or in the open set and not newly closed) is left unchanged by any filesystem notification. |
| Properties.ChangeThenWatchmanKeepsEditorText | main/lsp/requests/sorbet_workspace_edit.cc:92-105 | The path is open in the editor and not closed in this batch. A filesystem notification after a change keeps the contents that change produced. |
| Properties.WatchmanThenChangeSeedsEmpty | main/lsp/requests/sorbet_workspace_edit.cc:94-101 | An open file not yet in the map gets a default record from a filesystem notification. A change that follows is then seeded from "" through line 24, not from the initial snapshot. |
| Properties.WatchmanOnOpenFileCommitsEmptyBuffer | main/lsp/requests/sorbet_workspace_edit.cc:94-102 | Take a notification naming a non-ignored file that is in the open set and has no record. It triggers a typecheck whose batch holds that file with empty contents, flagged neither opened nor closed. |
| Properties.ApplyEditsAppend | main/lsp/requests/sorbet_workspace_edit.cc:163-182 | The dispatcher is a left fold: folding a ++ b equals folding b from the map a leaves. |
| Properties.InertEditIsNoOp | main/lsp/requests/sorbet_workspace_edit.cc:36-105 | An editor edit outside the root URI or on an ignored path, or a notification naming only ignored paths, leaves the map unchanged. |
| Properties.InertEditsAreNoOp | main/lsp/requests/sorbet_workspace_edit.cc:159-184 | A list of such edits leaves the map unchanged. |
| Properties.InertBatchSkipsTypecheck | main/lsp/requests/sorbet_workspace_edit.cc:110-128 | A batch of only such edits hands back the input snapshot and triggers no typecheck. |
| Properties.OpenThenClose | main/lsp/requests/sorbet_workspace_edit.cc:68-90 | Open then close of one path in a batch leaves {disk contents, not opened, closed}. The opened text is discarded. |
| Properties.TwoPathsTwoSnapshots | main/lsp/requests/sorbet_workspace_edit.cc:110-124 | Opening one path and closing another gives a batch with the epoch and exactly two snapshots. The first path is listed as opened, the second as closed. |
| Properties.SequentialSplices | main/lsp/requests/sorbet_workspace_edit.cc:45-61 | Take a one-line resolver and "hello world". Replacing columns 7-11 with "there", then columns 1-5 with "hi", gives "hi there". |

## Left out

- File reading: the reader and its FileNotFoundException catch are a lookup in `Loop.disk`, where a missing key reads as "". Other I/O failures are not modelled.
- Ignore matching: `FileOps::isFileIgnored` is the uninterpreted predicate `Loop.isIgnored`, with the root path and ignore patterns already applied. Its code is not part of this model.
- URI mapping: `remoteName2Local` is the uninterpreted function `Loop.remoteName2Local`.
- Offsets: `core::Loc::pos2Offset` is the uninterpreted function `Loop.pos2Offset`. Out-of-range positions are unspecified, so the splice is guarded by a precondition. `ContentChangesFit`, `ChangeFits` and `EditsFit` require the resolved start and end to satisfy 0 <= start <= end <= |buffer| against the buffer before each change.
- `std::string::replace` edge cases are not modelled: the exception for a start past the end, and clamping of a count that overruns or wraps.
- Typechecking: `runTypechecking` is out of scope. A commit returns the snapshot together with the batch it would typecheck.
- Ownership: `unique_ptr`/`move` and the `shared_ptr<core::File>` wrappers reduce to plain values.
- Iteration order: `UnorderedMap` order is not modelled, so `updatedFiles`, `openedFiles` and `closedFiles` are sets.
- The open-files set: how `openFiles` is maintained between batches is not part of this model. It is a read-only field of `Loop`.
- Strings stand for byte strings, one `char` per byte. `pos2Offset` indexes bytes, so `Splice` offsets are the byte offsets that `std::string::replace` uses. Character encodings are not modelled.
- LSP/JSON parameter types are reduced to the `Edit` and `ContentChange` datatypes.
- The epoch is an unbounded `int`. The source's `int msgEpoch` is only carried through, so its width does not matter here.
- The default-constructed `SorbetWorkspaceFileUpdate` is taken to be {"", false, false}. Its declaration is not part of this model.
- Commit.HandleOpen, Commit.HandleChange, Commit.HandleClose and Commit.HandleWatchman carry no contract of their own. `Commit.SingleEditEntryPoints` equates each with the multi-edit entry point.
