/** Properties that relate several reducers, or several applications of one. */
module Properties {
  import opened WorkspaceTypes
  import opened ContentChanges
  import opened Preprocess
  import opened Commit

  /** Applying a filesystem notification a second time changes nothing. */
  lemma WatchmanIdempotent(ctx: Loop, m: Updates, files: seq<string>)
    ensures PreprocessWatchman(ctx, PreprocessWatchman(ctx, m, files), files) ==
            PreprocessWatchman(ctx, m, files)
  {
    var paths := WatchmanPaths(ctx, files);
    var m1 := PreprocessWatchman(ctx, m, files);
    var m2 := PreprocessWatchman(ctx, m1, files);
    forall p | p in m2
      ensures p in m1 && m2[p] == m1[p]
    {
      if p in paths {
        assert WatchmanResult(ctx, m, p, m1[p]);
        assert WatchmanResult(ctx, m1, p, m2[p]);
        assert EditorOwns(ctx, m1, p) == EditorOwns(ctx, m, p);
      }
    }
    assert m2.Keys == m1.Keys;
  }

  /** A record the editor owns is left exactly as it is by any filesystem
      notification. */
  lemma WatchmanRespectsEditor(ctx: Loop, m: Updates, files: seq<string>, path: string)
    requires path in m && EditorOwns(ctx, m, path)
    ensures path in PreprocessWatchman(ctx, m, files)
    ensures PreprocessWatchman(ctx, m, files)[path] == m[path]
  {
    var r := PreprocessWatchman(ctx, m, files);
    if path in WatchmanPaths(ctx, files) {
      assert WatchmanResult(ctx, m, path, r[path]);
    }
  }

  /** The precedence rule: for a file open in the editor and not closed in
      this batch, a filesystem notification after a change keeps the text
      the change produced. */
  lemma ChangeThenWatchmanKeepsEditorText(ctx: Loop, m: Updates, uri: string,
                                          changes: seq<ContentChange>, files: seq<string>)
    requires InScope(ctx, uri) && ChangeFits(ctx, m, uri, changes)
    requires EditorPath(ctx, uri) in ctx.openFiles
    requires !(EditorPath(ctx, uri) in m && m[EditorPath(ctx, uri)].newlyClosed)
    ensures var path := EditorPath(ctx, uri);
            var m1 := PreprocessChange(ctx, m, uri, changes);
            path in PreprocessWatchman(ctx, m1, files) &&
            PreprocessWatchman(ctx, m1, files)[path].contents == m1[path].contents
  {
    var m1 := PreprocessChange(ctx, m, uri, changes);
    WatchmanRespectsEditor(ctx, m1, files, EditorPath(ctx, uri));
  }

  /** In the other order the filesystem reducer inserts a default record for
      the open file, so the change that follows seeds from the empty string
      rather than from the initial snapshot. */
  lemma WatchmanThenChangeSeedsEmpty(ctx: Loop, m: Updates, file: string, uri: string,
                                     changes: seq<ContentChange>)
    requires InScope(ctx, uri)
    requires WatchmanPath(ctx, file) == EditorPath(ctx, uri)
    requires EditorPath(ctx, uri) !in m && EditorPath(ctx, uri) in ctx.openFiles
    requires ContentChangesFit(ctx, EditorPath(ctx, uri), "", changes)
    ensures var path := EditorPath(ctx, uri);
            var m1 := PreprocessWatchman(ctx, m, [file]);
            && path in m1 && m1[path] == DefaultUpdate
            && ChangeFits(ctx, m1, uri, changes)
            && PreprocessChange(ctx, m1, uri, changes)[path].contents ==
               ApplyContentChanges(ctx, path, "", changes)
  {
    var path := EditorPath(ctx, uri);
    var m1 := PreprocessWatchman(ctx, m, [file]);
    assert path in WatchmanPaths(ctx, [file]);
    assert WatchmanResult(ctx, m, path, m1[path]);
  }

  /** A notification alone for an open file with no pending record commits
      an empty buffer for that file: the default record is inserted and the
      disk read is skipped, so the typechecker is handed "" for it. */
  lemma WatchmanOnOpenFileCommitsEmptyBuffer(ctx: Loop, gs: GlobalState, msgEpoch: int, file: string)
    requires !ctx.isIgnored(WatchmanPath(ctx, file))
    requires WatchmanPath(ctx, file) in ctx.openFiles
    ensures var run := HandleWatchman(ctx, gs, msgEpoch, [file]);
            && run.Typecheck?
            && File(WatchmanPath(ctx, file), "", Normal) in run.batch.updatedFiles
            && WatchmanPath(ctx, file) !in run.batch.openedFiles
            && WatchmanPath(ctx, file) !in run.batch.closedFiles
  {
    var path := WatchmanPath(ctx, file);
    var m := PreprocessWatchman(ctx, map[], [file]);
    assert path in WatchmanPaths(ctx, [file]);
    assert WatchmanResult(ctx, map[], path, m[path]);
  }

  /** Folding `a ++ b` is folding `a`, then `b` from where `a` left off. */
  lemma {:induction false} ApplyEditsAppend(ctx: Loop, m: Updates, a: seq<Edit>, b: seq<Edit>)
    ensures EditsFit(ctx, m, a + b) <==>
      (EditsFit(ctx, m, a) && EditsFit(ctx, ApplyEdits(ctx, m, a), b))
    ensures EditsFit(ctx, m, a + b) ==>
      ApplyEdits(ctx, m, a + b) == ApplyEdits(ctx, ApplyEdits(ctx, m, a), b)
    decreases |a|
  {
    if |a| == 0 {
      assert a + b == b;
    } else {
      assert (a + b)[0] == a[0];
      assert (a + b)[1..] == a[1..] + b;
      if EditFits(ctx, m, a[0]) {
        ApplyEditsAppend(ctx, ApplyEdit(ctx, m, a[0]), a[1..], b);
      }
    }
  }

  /** An edit every reducer drops: an editor edit outside the root URI or on
      an ignored path, or a notification naming only ignored paths. */
  predicate Inert(ctx: Loop, e: Edit)
  {
    match e
    case EditorOpen(uri, _) => !InScope(ctx, uri)
    case EditorChange(uri, _) => !InScope(ctx, uri)
    case EditorClose(uri) => !InScope(ctx, uri)
    case FileSystem(files) => forall i :: 0 <= i < |files| ==> ctx.isIgnored(WatchmanPath(ctx, files[i]))
  }

  lemma InertEditIsNoOp(ctx: Loop, m: Updates, e: Edit)
    requires Inert(ctx, e)
    ensures EditFits(ctx, m, e)
    ensures ApplyEdit(ctx, m, e) == m
  {
    if e.FileSystem? {
      assert WatchmanPaths(ctx, e.files) == {};
      var r := PreprocessWatchman(ctx, m, e.files);
      assert r.Keys == m.Keys;
    }
  }

  lemma {:induction false} InertEditsAreNoOp(ctx: Loop, m: Updates, edits: seq<Edit>)
    requires forall i :: 0 <= i < |edits| ==> Inert(ctx, edits[i])
    ensures EditsFit(ctx, m, edits)
    ensures ApplyEdits(ctx, m, edits) == m
    decreases |edits|
  {
    if |edits| > 0 {
      InertEditIsNoOp(ctx, m, edits[0]);
      InertEditsAreNoOp(ctx, m, edits[1..]);
    }
  }

  /** A batch of dropped edits hands back the snapshot with no typecheck. */
  lemma InertBatchSkipsTypecheck(ctx: Loop, gs: GlobalState, msgEpoch: int, edits: seq<Edit>)
    requires forall i :: 0 <= i < |edits| ==> Inert(ctx, edits[i])
    ensures EditsFit(ctx, map[], edits)
    ensures HandleWorkspaceEdits(ctx, gs, msgEpoch, edits) == Unchanged(gs)
  {
    InertEditsAreNoOp(ctx, map[], edits);
  }

  /** Closing after opening in one batch discards the editor text: the record
      is the disk's contents, flagged closed only. */
  lemma OpenThenClose(ctx: Loop, m: Updates, uri: string, text: string)
    requires InScope(ctx, uri)
    ensures EditsFit(ctx, m, [EditorOpen(uri, text), EditorClose(uri)])
    ensures var r := ApplyEdits(ctx, m, [EditorOpen(uri, text), EditorClose(uri)]);
            EditorPath(ctx, uri) in r &&
            r[EditorPath(ctx, uri)] == FileUpdate(ReadFile(ctx.disk, EditorPath(ctx, uri)), false, true)
  {
    var edits := [EditorOpen(uri, text), EditorClose(uri)];
    assert edits[1..] == [EditorClose(uri)];
    assert edits[1..][1..] == [];
    var m1 := PreprocessOpen(ctx, m, uri, text);
    var m2 := PreprocessClose(ctx, m1, uri);
    assert ApplyEdits(ctx, m1, edits[1..]) == ApplyEdits(ctx, m2, []);
    assert ApplyEdits(ctx, m, edits) == m2;
  }

  /** Opening one file and closing another yields one snapshot each, the
      first listed as opened and the second as closed. */
  lemma TwoPathsTwoSnapshots(ctx: Loop, gs: GlobalState, msgEpoch: int,
                             uri1: string, text: string, uri2: string)
    requires InScope(ctx, uri1) && InScope(ctx, uri2)
    requires EditorPath(ctx, uri1) != EditorPath(ctx, uri2)
    ensures EditsFit(ctx, map[], [EditorOpen(uri1, text), EditorClose(uri2)])
    ensures var run := HandleWorkspaceEdits(ctx, gs, msgEpoch, [EditorOpen(uri1, text), EditorClose(uri2)]);
            && run.Typecheck?
            && run.batch.updateEpoch == msgEpoch
            && run.batch.updatedFiles ==
               {File(EditorPath(ctx, uri1), text, Normal),
                File(EditorPath(ctx, uri2), ReadFile(ctx.disk, EditorPath(ctx, uri2)), Normal)}
            && run.batch.openedFiles == {EditorPath(ctx, uri1)}
            && run.batch.closedFiles == {EditorPath(ctx, uri2)}
  {
    var edits := [EditorOpen(uri1, text), EditorClose(uri2)];
    assert edits[1..] == [EditorClose(uri2)];
    assert edits[1..][1..] == [];
    var p1, p2 := EditorPath(ctx, uri1), EditorPath(ctx, uri2);
    var m1 := PreprocessOpen(ctx, map[], uri1, text);
    var m2 := PreprocessClose(ctx, m1, uri2);
    assert ApplyEdits(ctx, m1, edits[1..]) == ApplyEdits(ctx, m2, []);
    var m := ApplyEdits(ctx, map[], edits);
    assert m == m2;
    assert m == map[p1 := FileUpdate(text, true, false),
                     p2 := FileUpdate(ReadFile(ctx.disk, p2), false, true)];
    var batch := BuildFileUpdates(msgEpoch, m);
    assert batch.updatedFiles ==
           {File(p1, text, Normal), File(p2, ReadFile(ctx.disk, p2), Normal)};
  }

  /** The worked splice example: in "hello world", replace columns 7 to 11
      with "there", then columns 1 to 5 with "hi", for a resolver on a
      one-line buffer whose offset is the column minus one. */
  lemma SequentialSplices(ctx: Loop)
    requires forall f: File, d: Detail {:trigger ctx.pos2Offset(f, d)} ::
      d.line == 1 && d.column >= 1 ==> ctx.pos2Offset(f, d) == d.column - 1
    ensures var changes := [
              ContentChange(Some(Range(Position(0, 6), Position(0, 11))), "there"),
              ContentChange(Some(Range(Position(0, 0), Position(0, 5))), "hi")];
            ContentChangesFit(ctx, "greeting.rb", "hello world", changes) &&
            ApplyContentChanges(ctx, "greeting.rb", "hello world", changes) == "hi there"
  {
    var changes := [
      ContentChange(Some(Range(Position(0, 6), Position(0, 11))), "there"),
      ContentChange(Some(Range(Position(0, 0), Position(0, 5))), "hi")];
    var path := "greeting.rb";
    assert ctx.pos2Offset(File(path, "hello world", Normal), Detail(1, 7)) == 6;
    assert ctx.pos2Offset(File(path, "hello world", Normal), Detail(1, 12)) == 11;
    var first := ApplyContentChange(ctx, path, "hello world", changes[0]);
    assert first == Splice("hello world", 6, 11, "there");
    assert "hello world"[..6] == "hello ";
    assert first == "hello there";
    assert ctx.pos2Offset(File(path, first, Normal), Detail(1, 1)) == 0;
    assert ctx.pos2Offset(File(path, first, Normal), Detail(1, 6)) == 5;
    var second := ApplyContentChange(ctx, path, first, changes[1]);
    assert second == Splice(first, 0, 5, "hi");
    assert first[5..] == " there";
    assert second == "hi there";
    assert changes[1..] == [changes[1]];
    assert changes[1..][1..] == [];
    assert ApplyContentChanges(ctx, path, second, []) == second;
  }
}
