/** Turning the consolidated map into an epoch-tagged batch, and the entry
    points that fold edits into a fresh map and commit it once. */
module Commit {
  import opened WorkspaceTypes
  import opened ContentChanges
  import opened Preprocess

  /** One snapshot per pending record. */
  function FilesOf(m: Updates): set<File>
  {
    set p | p in m :: File(p, m[p].contents, Normal)
  }

  lemma {:induction false} FilesOfCardinality(m: Updates)
    ensures |FilesOf(m)| == |m|
    decreases |m|
  {
    if |m| > 0 {
      var k :| k in m;
      var rest := m - {k};
      FilesOfCardinality(rest);
      forall f ensures f in FilesOf(m) <==> f in FilesOf(rest) + {File(k, m[k].contents, Normal)} {
        if f in FilesOf(m) && f.path != k {
          assert f.path in rest;
        }
      }
      assert FilesOf(m) == FilesOf(rest) + {File(k, m[k].contents, Normal)};
      assert File(k, m[k].contents, Normal) !in FilesOf(rest);
      assert |rest| == |m| - 1 by {
        assert rest.Keys == m.Keys - {k};
      }
    }
  }

  function BuildFileUpdates(msgEpoch: int, m: Updates): (u: FileUpdates)
    ensures u.updateEpoch == msgEpoch
    ensures |u.updatedFiles| == |m|
    ensures forall f :: f in u.updatedFiles ==>
      f.path in m && f.source == m[f.path].contents && f.fileType == Normal
    ensures forall p :: p in m ==> File(p, m[p].contents, Normal) in u.updatedFiles
    ensures forall f, g :: f in u.updatedFiles && g in u.updatedFiles && f.path == g.path ==> f == g
    ensures forall p :: p in u.closedFiles <==> p in m && m[p].newlyClosed
    ensures forall p :: p in u.openedFiles <==> p in m && m[p].newlyOpened
    ensures Consistent(m) ==> u.openedFiles !! u.closedFiles
  {
    FilesOfCardinality(m);
    FileUpdates(msgEpoch,
                FilesOf(m),
                set p | p in m && m[p].newlyOpened,
                set p | p in m && m[p].newlyClosed)
  }

  /** An empty map hands the snapshot back untouched; otherwise the snapshot
      and the batch go to the typechecker. */
  function CommitWorkspaceEdits(gs: GlobalState, msgEpoch: int, m: Updates): (run: TypecheckRun)
    ensures run.gs == gs
    ensures run.Unchanged? <==> |m| == 0
    ensures run.Typecheck? ==> run.batch == BuildFileUpdates(msgEpoch, m)
  {
    if |m| != 0 then Typecheck(gs, BuildFileUpdates(msgEpoch, m))
    else Unchanged(gs)
  }

  predicate EditFits(ctx: Loop, m: Updates, e: Edit)
  {
    e.EditorChange? ==> ChangeFits(ctx, m, e.uri, e.contentChanges)
  }

  /** The paths an edit writes into the map: the local path of an editor
      edit in scope, or the non-ignored joined paths of a notification. */
  ghost function Touched(ctx: Loop, e: Edit): set<string>
  {
    match e
    case EditorOpen(uri, _) => if InScope(ctx, uri) then {EditorPath(ctx, uri)} else {}
    case EditorChange(uri, _) => if InScope(ctx, uri) then {EditorPath(ctx, uri)} else {}
    case EditorClose(uri) => if InScope(ctx, uri) then {EditorPath(ctx, uri)} else {}
    case FileSystem(files) => WatchmanPaths(ctx, files)
  }

  ghost function TouchedAll(ctx: Loop, edits: seq<Edit>): set<string>
    decreases |edits|
  {
    if |edits| == 0 then {} else Touched(ctx, edits[0]) + TouchedAll(ctx, edits[1..])
  }

  /** Route one edit to its reducer. */
  function ApplyEdit(ctx: Loop, m: Updates, e: Edit): (r: Updates)
    requires EditFits(ctx, m, e)
    ensures r.Keys == m.Keys + Touched(ctx, e)
    ensures Consistent(m) ==> Consistent(r)
  {
    match e
    case EditorOpen(uri, text) => PreprocessOpen(ctx, m, uri, text)
    case EditorChange(uri, changes) => PreprocessChange(ctx, m, uri, changes)
    case EditorClose(uri) => PreprocessClose(ctx, m, uri)
    case FileSystem(files) => PreprocessWatchman(ctx, m, files)
  }

  /** Every change in the list fits the map as it stands when it is reached. */
  predicate EditsFit(ctx: Loop, m: Updates, edits: seq<Edit>)
    decreases |edits|
  {
    |edits| == 0 ||
    (EditFits(ctx, m, edits[0]) && EditsFit(ctx, ApplyEdit(ctx, m, edits[0]), edits[1..]))
  }

  /** The left fold of the reducers over the edit list. */
  function ApplyEdits(ctx: Loop, m: Updates, edits: seq<Edit>): (r: Updates)
    requires EditsFit(ctx, m, edits)
    ensures Consistent(m) ==> Consistent(r)
    decreases |edits|
  {
    if |edits| == 0 then m
    else ApplyEdits(ctx, ApplyEdit(ctx, m, edits[0]), edits[1..])
  }

  /** The fold's keys are the starting keys plus every path some edit touched. */
  lemma {:induction false} FoldKeys(ctx: Loop, m: Updates, edits: seq<Edit>)
    requires EditsFit(ctx, m, edits)
    ensures ApplyEdits(ctx, m, edits).Keys == m.Keys + TouchedAll(ctx, edits)
    decreases |edits|
  {
    if |edits| > 0 {
      var m1 := ApplyEdit(ctx, m, edits[0]);
      FoldKeys(ctx, m1, edits[1..]);
    }
  }

  /** The multi-edit entry point: fold into a fresh map, commit once. */
  function HandleWorkspaceEdits(ctx: Loop, gs: GlobalState, msgEpoch: int, edits: seq<Edit>): (run: TypecheckRun)
    requires EditsFit(ctx, map[], edits)
    ensures run.gs == gs
    ensures run.Unchanged? <==> TouchedAll(ctx, edits) == {}
    ensures run.Typecheck? ==>
      && run.batch.updateEpoch == msgEpoch
      && (set f | f in run.batch.updatedFiles :: f.path) == TouchedAll(ctx, edits)
      && |run.batch.updatedFiles| == |TouchedAll(ctx, edits)|
      && run.batch.openedFiles !! run.batch.closedFiles
  {
    var m := ApplyEdits(ctx, map[], edits);
    FoldKeys(ctx, map[], edits);
    assert m.Keys == TouchedAll(ctx, edits);
    CommitWorkspaceEdits(gs, msgEpoch, m)
  }

  function HandleOpen(ctx: Loop, gs: GlobalState, msgEpoch: int, uri: string, text: string): TypecheckRun
  {
    CommitWorkspaceEdits(gs, msgEpoch, PreprocessOpen(ctx, map[], uri, text))
  }

  function HandleChange(ctx: Loop, gs: GlobalState, msgEpoch: int, uri: string, changes: seq<ContentChange>): TypecheckRun
    requires ChangeFits(ctx, map[], uri, changes)
  {
    CommitWorkspaceEdits(gs, msgEpoch, PreprocessChange(ctx, map[], uri, changes))
  }

  function HandleClose(ctx: Loop, gs: GlobalState, msgEpoch: int, uri: string): TypecheckRun
  {
    CommitWorkspaceEdits(gs, msgEpoch, PreprocessClose(ctx, map[], uri))
  }

  function HandleWatchman(ctx: Loop, gs: GlobalState, msgEpoch: int, files: seq<string>): TypecheckRun
  {
    CommitWorkspaceEdits(gs, msgEpoch, PreprocessWatchman(ctx, map[], files))
  }

  /** Each single-kind entry point is the multi-edit one on a one-element list. */
  lemma SingleEditEntryPoints(ctx: Loop, gs: GlobalState, msgEpoch: int, e: Edit)
    requires EditFits(ctx, map[], e)
    ensures EditsFit(ctx, map[], [e])
    ensures e.EditorOpen? ==> HandleOpen(ctx, gs, msgEpoch, e.uri, e.text) == HandleWorkspaceEdits(ctx, gs, msgEpoch, [e])
    ensures e.EditorChange? ==> HandleChange(ctx, gs, msgEpoch, e.uri, e.contentChanges) == HandleWorkspaceEdits(ctx, gs, msgEpoch, [e])
    ensures e.EditorClose? ==> HandleClose(ctx, gs, msgEpoch, e.uri) == HandleWorkspaceEdits(ctx, gs, msgEpoch, [e])
    ensures e.FileSystem? ==> HandleWatchman(ctx, gs, msgEpoch, e.files) == HandleWorkspaceEdits(ctx, gs, msgEpoch, [e])
  {
    assert [e][1..] == [];
    assert ApplyEdits(ctx, map[], [e]) == ApplyEdit(ctx, map[], e);
  }
}
