/** The data model of the workspace-edit consolidation layer: inbound edits,
    the pending per-path update record, the snapshot handed to the
    typechecker, and the read-only state of the language-server loop that
    the reducers consult. */
module WorkspaceTypes {

  datatype Option<+T> = None | Some(value: T)

  /** A zero-based LSP position (line, character). */
  datatype Position = Position(line: nat, character: nat)

  datatype Range = Range(start: Position, end: Position)

  /** A one-based (line, column) pair, the analyzer's own convention. */
  datatype Detail = Detail(line: nat, column: nat)

  /** One entry of a didChange notification: with a range it is an
      incremental splice, without one it replaces the whole document. */
  datatype ContentChange = ContentChange(range: Option<Range>, text: string)

  /** The tagged union of inbound edits the dispatcher folds over. */
  datatype Edit =
    | EditorOpen(uri: string, text: string)
    | EditorChange(uri: string, contentChanges: seq<ContentChange>)
    | EditorClose(uri: string)
    | FileSystem(files: seq<string>)

  datatype FileType = Normal

  /** A file snapshot: path, full source, type tag. */
  datatype File = File(path: string, source: string, fileType: FileType)

  /** The pending record kept per path while a batch is consolidated. */
  datatype FileUpdate = FileUpdate(contents: string, newlyOpened: bool, newlyClosed: bool)

  /** The record a map lookup by subscript default-constructs for a new key. */
  const DefaultUpdate := FileUpdate("", false, false)

  type Updates = map<string, FileUpdate>

  /** The analyzer's last committed view of file contents, path to source. */
  datatype GlobalState = GlobalState(files: map<string, string>)

  /** The read-only state of the server loop that the reducers consult.
      `isIgnored` stands for the ignore matcher with the root path and the
      absolute and relative ignore patterns already applied; `disk` is what
      the file reader would find, a missing key being a missing file. */
  datatype Loop = Loop(
    rootUri: string,
    rootPath: string,
    remoteName2Local: string -> string,
    isIgnored: string -> bool,
    pos2Offset: (File, Detail) -> nat,
    disk: map<string, string>,
    openFiles: set<string>,
    initialGS: GlobalState)

  /** The epoch-stamped batch handed to the typechecker. Sorbet keeps
      vectors filled in hash-map order; only their contents are modelled. */
  datatype FileUpdates = FileUpdates(
    updateEpoch: int,
    updatedFiles: set<File>,
    openedFiles: set<string>,
    closedFiles: set<string>)

  /** What a commit hands on: the snapshot alone when nothing changed, or the
      snapshot together with the batch to typecheck. */
  datatype TypecheckRun =
    | Unchanged(gs: GlobalState)
    | Typecheck(gs: GlobalState, batch: FileUpdates)

  /** No record is both newly opened and newly closed. */
  ghost predicate Consistent(m: Updates)
  {
    forall p :: p in m ==> !(m[p].newlyOpened && m[p].newlyClosed)
  }

  /** `r` agrees with `m` on every key outside `keys`, presence included. */
  ghost predicate UnchangedExcept(m: Updates, r: Updates, keys: set<string>)
  {
    forall p :: p !in keys ==> (p in r <==> p in m) && (p in m ==> r[p] == m[p])
  }
}
