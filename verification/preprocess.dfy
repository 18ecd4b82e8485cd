/** The four reducers that fold one inbound edit into the pending-update map. */
module Preprocess {
  import opened WorkspaceTypes
  import opened ContentChanges

  /** The file reader with its not-found case downgraded to an empty file. */
  function ReadFile(disk: map<string, string>, path: string): string
  {
    if path in disk then disk[path] else ""
  }

  predicate StartsWith(s: string, prefix: string)
  {
    prefix <= s
  }

  function EditorPath(ctx: Loop, uri: string): string
  {
    ctx.remoteName2Local(uri)
  }

  /** An editor edit is acted on only when its URI lies under the root URI
      and the local path it names is not ignored. */
  predicate InScope(ctx: Loop, uri: string)
  {
    StartsWith(uri, ctx.rootUri) && !ctx.isIgnored(EditorPath(ctx, uri))
  }

  /** Filesystem paths are joined to the root path; no URI check applies. */
  function WatchmanPath(ctx: Loop, file: string): string
  {
    ctx.rootPath + "/" + file
  }

  /** Whether editor contents take precedence over the disk for `path`. */
  predicate EditorOwns(ctx: Loop, m: Updates, path: string)
  {
    (path in m && m[path].newlyOpened) ||
    (path in ctx.openFiles && !(path in m && m[path].newlyClosed))
  }

  /** The text a change starts from: the pending record, else the initial
      snapshot, else nothing. */
  function GetFileContents(m: Updates, gs: GlobalState, path: string): string
  {
    if path in m then m[path].contents
    else if path in gs.files then gs.files[path]
    else ""
  }

  predicate ChangeFits(ctx: Loop, m: Updates, uri: string, changes: seq<ContentChange>)
  {
    InScope(ctx, uri) ==>
      var path := EditorPath(ctx, uri);
      ContentChangesFit(ctx, path, GetFileContents(m, ctx.initialGS, path), changes)
  }

  function PreprocessChange(ctx: Loop, m: Updates, uri: string, changes: seq<ContentChange>): (r: Updates)
    requires ChangeFits(ctx, m, uri, changes)
    ensures !InScope(ctx, uri) ==> r == m
    ensures InScope(ctx, uri) ==>
      var path := EditorPath(ctx, uri);
      && r.Keys == m.Keys + {path}
      && UnchangedExcept(m, r, {path})
      && (path in m ==>
            && r[path].newlyOpened == m[path].newlyOpened
            && r[path].newlyClosed == m[path].newlyClosed
            && r[path].contents == ApplyContentChanges(ctx, path, m[path].contents, changes))
      && (path !in m ==> !r[path].newlyOpened && !r[path].newlyClosed)
      && (path !in m && path in ctx.initialGS.files ==>
            r[path].contents == ApplyContentChanges(ctx, path, ctx.initialGS.files[path], changes))
      && (path !in m && path !in ctx.initialGS.files ==>
            r[path].contents == ApplyContentChanges(ctx, path, "", changes))
    ensures Consistent(m) ==> Consistent(r)
  {
    if !StartsWith(uri, ctx.rootUri) then m
    else
      var path := EditorPath(ctx, uri);
      if ctx.isIgnored(path) then m
      else
        var contents := ApplyContentChanges(ctx, path, GetFileContents(m, ctx.initialGS, path), changes);
        var entry := if path in m then m[path] else DefaultUpdate;
        m[path := entry.(contents := contents)]
  }

  function PreprocessOpen(ctx: Loop, m: Updates, uri: string, text: string): (r: Updates)
    ensures !InScope(ctx, uri) ==> r == m
    ensures InScope(ctx, uri) ==>
      var path := EditorPath(ctx, uri);
      && r.Keys == m.Keys + {path}
      && UnchangedExcept(m, r, {path})
      && r[path].contents == text
      && r[path].newlyOpened && !r[path].newlyClosed
    ensures Consistent(m) ==> Consistent(r)
  {
    if StartsWith(uri, ctx.rootUri) then
      var path := EditorPath(ctx, uri);
      if !ctx.isIgnored(path) then m[path := FileUpdate(text, true, false)]
      else m
    else m
  }

  function PreprocessClose(ctx: Loop, m: Updates, uri: string): (r: Updates)
    ensures !InScope(ctx, uri) ==> r == m
    ensures InScope(ctx, uri) ==>
      var path := EditorPath(ctx, uri);
      && r.Keys == m.Keys + {path}
      && UnchangedExcept(m, r, {path})
      && (path in ctx.disk ==> r[path].contents == ctx.disk[path])
      && (path !in ctx.disk ==> r[path].contents == "")
      && !r[path].newlyOpened && r[path].newlyClosed
    ensures Consistent(m) ==> Consistent(r)
  {
    if StartsWith(uri, ctx.rootUri) then
      var path := EditorPath(ctx, uri);
      if !ctx.isIgnored(path) then m[path := FileUpdate(ReadFile(ctx.disk, path), false, true)]
      else m
    else m
  }

  /** The non-ignored paths a filesystem notification names. */
  ghost function WatchmanPaths(ctx: Loop, files: seq<string>): set<string>
  {
    set f | f in files && !ctx.isIgnored(WatchmanPath(ctx, f)) :: WatchmanPath(ctx, f)
  }

  /** What the filesystem reducer leaves for a non-ignored `path`, given the
      map `m` before the notification: the flags `m` had (none for a new
      record), and the disk's contents unless the editor owns the file. */
  ghost predicate WatchmanResult(ctx: Loop, m: Updates, path: string, u: FileUpdate)
  {
    && u.newlyOpened == (path in m && m[path].newlyOpened)
    && u.newlyClosed == (path in m && m[path].newlyClosed)
    && u.contents == (if !EditorOwns(ctx, m, path) then ReadFile(ctx.disk, path)
                      else if path in m then m[path].contents
                      else "")
  }

  /** One path of a filesystem notification. The subscript inserts a
      default record even when the editor owns the file. */
  function WatchmanFile(ctx: Loop, m: Updates, file: string): (r: Updates)
    ensures ctx.isIgnored(WatchmanPath(ctx, file)) ==> r == m
    ensures !ctx.isIgnored(WatchmanPath(ctx, file)) ==>
      var path := WatchmanPath(ctx, file);
      && r.Keys == m.Keys + {path}
      && UnchangedExcept(m, r, {path})
      && WatchmanResult(ctx, m, path, r[path])
  {
    var path := WatchmanPath(ctx, file);
    if ctx.isIgnored(path) then m
    else
      var entry := if path in m then m[path] else DefaultUpdate;
      var isFileOpenInEditor := entry.newlyOpened || (path in ctx.openFiles && !entry.newlyClosed);
      if !isFileOpenInEditor then m[path := entry.(contents := ReadFile(ctx.disk, path))]
      else m[path := entry]
  }

  /** A whole filesystem notification, its paths taken in order. */
  function PreprocessWatchman(ctx: Loop, m: Updates, files: seq<string>): (r: Updates)
    ensures r.Keys == m.Keys + WatchmanPaths(ctx, files)
    ensures UnchangedExcept(m, r, WatchmanPaths(ctx, files))
    ensures forall p :: p in WatchmanPaths(ctx, files) ==> WatchmanResult(ctx, m, p, r[p])
    ensures Consistent(m) ==> Consistent(r)
    decreases |files|
  {
    if |files| == 0 then m
    else
      var m1 := WatchmanFile(ctx, m, files[0]);
      var r := PreprocessWatchman(ctx, m1, files[1..]);
      WatchmanPathsCons(ctx, files);
      WatchmanStep(ctx, m, files[0], m1, files[1..], r);
      r
  }

  lemma WatchmanPathsCons(ctx: Loop, files: seq<string>)
    requires |files| > 0
    ensures WatchmanPaths(ctx, files) ==
      (if ctx.isIgnored(WatchmanPath(ctx, files[0])) then {} else {WatchmanPath(ctx, files[0])})
      + WatchmanPaths(ctx, files[1..])
  {
    assert forall f :: f in files <==> f == files[0] || f in files[1..];
  }

  /** Reprocessing a path the filesystem reducer already handled leaves the
      same record: its flags are kept, so the ownership decision repeats. */
  lemma WatchmanStep(ctx: Loop, m: Updates, file: string, m1: Updates, rest: seq<string>, r: Updates)
    requires m1 == WatchmanFile(ctx, m, file)
    requires r.Keys == m1.Keys + WatchmanPaths(ctx, rest)
    requires UnchangedExcept(m1, r, WatchmanPaths(ctx, rest))
    requires forall p :: p in WatchmanPaths(ctx, rest) ==> WatchmanResult(ctx, m1, p, r[p])
    ensures forall p :: p in WatchmanPaths(ctx, rest) ==> WatchmanResult(ctx, m, p, r[p])
    ensures Consistent(m) ==> Consistent(r)
  {
    forall p | p in WatchmanPaths(ctx, rest)
      ensures WatchmanResult(ctx, m, p, r[p])
    {
      assert WatchmanResult(ctx, m1, p, r[p]);
      if p == WatchmanPath(ctx, file) && !ctx.isIgnored(p) {
        assert EditorOwns(ctx, m1, p) == EditorOwns(ctx, m, p);
      }
    }
  }
}
