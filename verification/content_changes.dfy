/** Applying the content changes of one didChange notification to a buffer:
    ranged changes splice, range-less changes replace, in order. */
module ContentChanges {
  import opened WorkspaceTypes

  /** Replace the span [start, end) of `s` with `text`. */
  function Splice(s: string, start: nat, end: nat, text: string): (r: string)
    requires start <= end <= |s|
    ensures |r| == |s| - (end - start) + |text|
    ensures r[..start] == s[..start]
    ensures r[start..start + |text|] == text
    ensures r[start + |text|..] == s[end..]
  {
    s[..start] + text + s[end..]
  }

  /** An LSP position shifted to the one-based convention. */
  function ToDetail(p: Position): Detail
  {
    Detail(p.line + 1, p.character + 1)
  }

  /** The offset of an LSP position in `contents`, resolved as if `contents`
      were the file at `path`. */
  function Offset(ctx: Loop, path: string, contents: string, p: Position): nat
  {
    ctx.pos2Offset(File(path, contents, Normal), ToDetail(p))
  }

  /** The offsets of a ranged change describe a span of the buffer. */
  predicate ContentChangeFits(ctx: Loop, path: string, contents: string, change: ContentChange)
  {
    change.range.Some? ==>
      Offset(ctx, path, contents, change.range.value.start)
        <= Offset(ctx, path, contents, change.range.value.end)
        <= |contents|
  }

  function ApplyContentChange(ctx: Loop, path: string, contents: string, change: ContentChange): (r: string)
    requires ContentChangeFits(ctx, path, contents, change)
    ensures change.range.None? ==> r == change.text
    ensures change.range.Some? ==>
      var start := Offset(ctx, path, contents, change.range.value.start);
      var end := Offset(ctx, path, contents, change.range.value.end);
      && |r| == |contents| - (end - start) + |change.text|
      && r[..start] == contents[..start]
      && r[start..start + |change.text|] == change.text
      && r[start + |change.text|..] == contents[end..]
  {
    match change.range
    case None => change.text
    case Some(range) =>
      Splice(contents, Offset(ctx, path, contents, range.start),
             Offset(ctx, path, contents, range.end), change.text)
  }

  /** Every change's offsets fit the buffer as it stands just before it. */
  predicate ContentChangesFit(ctx: Loop, path: string, contents: string, changes: seq<ContentChange>)
    decreases |changes|
  {
    |changes| == 0 ||
    (ContentChangeFits(ctx, path, contents, changes[0]) &&
     ContentChangesFit(ctx, path, ApplyContentChange(ctx, path, contents, changes[0]), changes[1..]))
  }

  /** The changes applied left to right, each to the result of the ones before. */
  function ApplyContentChanges(ctx: Loop, path: string, contents: string, changes: seq<ContentChange>): string
    requires ContentChangesFit(ctx, path, contents, changes)
    decreases |changes|
  {
    if |changes| == 0 then contents
    else ApplyContentChanges(ctx, path, ApplyContentChange(ctx, path, contents, changes[0]), changes[1..])
  }

  /** Applying `a ++ b` is applying `a`, then `b` to the result. */
  lemma {:induction false} ApplyContentChangesAppend(ctx: Loop, path: string, contents: string,
                                                      a: seq<ContentChange>, b: seq<ContentChange>)
    ensures ContentChangesFit(ctx, path, contents, a + b) <==>
      (ContentChangesFit(ctx, path, contents, a) &&
       ContentChangesFit(ctx, path, ApplyContentChanges(ctx, path, contents, a), b))
    ensures ContentChangesFit(ctx, path, contents, a + b) ==>
      ApplyContentChanges(ctx, path, contents, a + b) ==
      ApplyContentChanges(ctx, path, ApplyContentChanges(ctx, path, contents, a), b)
    decreases |a|
  {
    if |a| == 0 {
      assert a + b == b;
    } else {
      assert (a + b)[0] == a[0];
      assert (a + b)[1..] == a[1..] + b;
      if ContentChangeFits(ctx, path, contents, a[0]) {
        ApplyContentChangesAppend(ctx, path, ApplyContentChange(ctx, path, contents, a[0]), a[1..], b);
      }
    }
  }

  /** A range-less change wipes out everything before it: the result depends
      only on its text and the changes after it, never on the seed. */
  lemma {:induction false} FullReplaceResets(ctx: Loop, path: string, contents: string,
                                             changes: seq<ContentChange>, i: nat)
    requires i < |changes| && changes[i].range.None?
    requires ContentChangesFit(ctx, path, contents, changes)
    ensures ContentChangesFit(ctx, path, changes[i].text, changes[i + 1..])
    ensures ApplyContentChanges(ctx, path, contents, changes) ==
            ApplyContentChanges(ctx, path, changes[i].text, changes[i + 1..])
    decreases i
  {
    if i > 0 {
      assert changes[1..][i - 1] == changes[i];
      assert changes[1..][i - 1 + 1..] == changes[i + 1..];
      FullReplaceResets(ctx, path, ApplyContentChange(ctx, path, contents, changes[0]), changes[1..], i - 1);
    }
  }

  /** A change list ending in a range-less change yields exactly its text. */
  lemma LastFullReplaceWins(ctx: Loop, path: string, contents: string, changes: seq<ContentChange>)
    requires |changes| > 0 && changes[|changes| - 1].range.None?
    requires ContentChangesFit(ctx, path, contents, changes)
    ensures ApplyContentChanges(ctx, path, contents, changes) == changes[|changes| - 1].text
  {
    FullReplaceResets(ctx, path, contents, changes, |changes| - 1);
    assert changes[|changes|..] == [];
  }
}
