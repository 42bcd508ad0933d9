/** Rewriting a backup's archive with the items that finished asynchronously. */
module FinalTarball {
  /** One file of a tar archive. */
  datatype File = File(name: string, content: int)

  /** What is on disk once the archive is extracted: a later file overwrites an earlier one. */
  function Extracted(tar: seq<File>): map<string, int> {
    if tar == [] then map[]
    else Extracted(tar[..|tar| - 1])[tar[|tar| - 1].name := tar[|tar| - 1].content]
  }

  /** The contents of the files called `n`, in order. */
  function Copies(tar: seq<File>, n: string): seq<int> {
    if tar == [] then []
    else
      var last := tar[|tar| - 1];
      Copies(tar[..|tar| - 1], n) + if last.name == n then [last.content] else []
  }

  ghost predicate ByName(updates: map<string, File>) {
    forall n | n in updates :: updates[n].name == n
  }

  /** The first of the copies `was` of file `n` gives way to the update. */
  function Replaced(updates: map<string, File>, n: string, was: seq<int>): seq<int> {
    if n in updates && was != [] then [updates[n].content] + was[1..] else was
  }

  function Rewritten(updates: map<string, File>, n: string, was: seq<int>): seq<int> {
    if n in updates && was == [] then [updates[n].content] else Replaced(updates, n, was)
  }

  lemma OneMoreCopy(tar: seq<File>, f: File, n: string)
    ensures Copies(tar + [f], n) == Copies(tar, n) + if f.name == n then [f.content] else []
  {
    assert (tar + [f])[..|tar|] == tar;
  }

  /** `out` holds the copies of file `n` in `tar` with its update put in; `left` holds the updates not used yet. */
  ghost predicate MergedAt(tar: seq<File>, updates: map<string, File>, left: map<string, File>, out: seq<File>, n: string) {
    && (n in left <==> n in updates && Copies(tar, n) == [])
    && (n in left ==> left[n] == updates[n])
    && Copies(out, n) == Replaced(updates, n, Copies(tar, n))
  }

  ghost predicate Merged(tar: seq<File>, updates: map<string, File>, left: map<string, File>, out: seq<File>) {
    forall n :: MergedAt(tar, updates, left, out, n)
  }

  lemma MergeOne(tar: seq<File>, updates: map<string, File>, left: map<string, File>, out: seq<File>, header: File)
    requires ByName(updates) && Merged(tar, updates, left, out)
    ensures if header.name in left
            then Merged(tar + [header], updates, left - {header.name}, out + [left[header.name]])
            else Merged(tar + [header], updates, left, out + [header])
  {
    assert MergedAt(tar, updates, left, out, header.name);
    var f := if header.name in left then left[header.name] else header;
    var left' := if header.name in left then left - {header.name} else left;
    forall n
      ensures MergedAt(tar + [header], updates, left', out + [f], n)
    {
      assert MergedAt(tar, updates, left, out, n);
      OneMoreCopy(tar, header, n);
      OneMoreCopy(out, f, n);
    }
  }

  ghost predicate CompletedAt(tar: seq<File>, updates: map<string, File>, left: map<string, File>, out: seq<File>, n: string) {
    if n in left then n in updates && left[n] == updates[n] && Copies(tar, n) == [] && Copies(out, n) == []
    else Copies(out, n) == Rewritten(updates, n, Copies(tar, n))
  }

  ghost predicate Completed(tar: seq<File>, updates: map<string, File>, left: map<string, File>, out: seq<File>) {
    forall n :: CompletedAt(tar, updates, left, out, n)
  }

  lemma CompleteOne(tar: seq<File>, updates: map<string, File>, left: map<string, File>, out: seq<File>, name: string)
    requires ByName(updates) && Completed(tar, updates, left, out) && name in left
    ensures Completed(tar, updates, left - {name}, out + [left[name]])
  {
    assert CompletedAt(tar, updates, left, out, name);
    forall n
      ensures CompletedAt(tar, updates, left - {name}, out + [left[name]], n)
    {
      assert CompletedAt(tar, updates, left, out, n);
      OneMoreCopy(out, left[name], n);
    }
  }

  /** `out` is `tar` rewritten with `updates`. */
  ghost predicate IsRewritten(tar: seq<File>, updates: map<string, File>, out: seq<File>) {
    forall n :: Copies(out, n) == Rewritten(updates, n, Copies(tar, n))
  }

  /** Every file keeps its copies, but for the first one of an updated file; the rest of the updates follow. */
  method BuildFinalTarball(tar: seq<File>, updates: map<string, File>) returns (out: seq<File>)
    requires ByName(updates)
    ensures IsRewritten(tar, updates, out)
  {
    out := [];
    var updateFiles := updates;
    for i := 0 to |tar|
      invariant Merged(tar[..i], updates, updateFiles, out)
    {
      assert tar[..i + 1] == tar[..i] + [tar[i]];
      var header := tar[i];
      MergeOne(tar[..i], updates, updateFiles, out, header);
      if header.name in updateFiles {
        out := out + [updateFiles[header.name]];
        updateFiles := updateFiles - {header.name};
      } else {
        out := out + [header];
      }
    }
    assert tar[..|tar|] == tar;
    forall n
      ensures CompletedAt(tar, updates, updateFiles, out, n)
    {
      assert MergedAt(tar, updates, updateFiles, out, n);
    }
    out := WriteRemaining(updateFiles, out, tar, updates);
  }

  method WriteRemaining(remaining: map<string, File>, written: seq<File>, ghost tar: seq<File>, ghost updates: map<string, File>)
    returns (out: seq<File>)
    requires ByName(updates) && Completed(tar, updates, remaining, written)
    ensures IsRewritten(tar, updates, out)
  {
    out := written;
    var updateFiles := remaining;
    while updateFiles.Keys != {}
      invariant Completed(tar, updates, updateFiles, out)
      decreases updateFiles.Keys
    {
      var n :| n in updateFiles.Keys;
      CompleteOne(tar, updates, updateFiles, out, n);
      out := out + [updateFiles[n]];
      updateFiles := updateFiles - {n};
    }
    forall n
      ensures Copies(out, n) == Rewritten(updates, n, Copies(tar, n))
    {
      assert CompletedAt(tar, updates, updateFiles, out, n);
    }
  }

  lemma {:induction false} LastCopyIsExtracted(tar: seq<File>, n: string)
    ensures n in Extracted(tar) <==> Copies(tar, n) != []
    ensures n in Extracted(tar) ==> Extracted(tar)[n] == Copies(tar, n)[|Copies(tar, n)| - 1]
  {
    if tar != [] {
      LastCopyIsExtracted(tar[..|tar| - 1], n);
    }
  }

  /** A later copy that the rewriting leaves in place hides the update of its file. */
  ghost predicate HidesUpdate(tar: seq<File>, updates: map<string, File>, n: string) {
    && n in updates && |Copies(tar, n)| > 1
    && Copies(tar, n)[|Copies(tar, n)| - 1] != updates[n].content
  }

  ghost predicate SameAt(a: map<string, int>, b: map<string, int>, n: string) {
    (n in a <==> n in b) && (n in a && n in b ==> a[n] == b[n])
  }

  lemma SameEverywhere(a: map<string, int>, b: map<string, int>)
    ensures a == b <==> forall n :: SameAt(a, b, n)
  {
    if forall n :: SameAt(a, b, n) {
      forall n
        ensures n in a <==> n in b
        ensures n in a && n in b ==> a[n] == b[n]
      {
        assert SameAt(a, b, n);
      }
      assert a == b;
    }
  }

  function Overwritten(files: map<string, int>, updates: map<string, File>): map<string, int> {
    files + map n | n in updates :: updates[n].content
  }

  lemma RewritingUpdatesFile(tar: seq<File>, updates: map<string, File>, out: seq<File>, n: string)
    requires Copies(out, n) == Rewritten(updates, n, Copies(tar, n))
    ensures SameAt(Extracted(out), Overwritten(Extracted(tar), updates), n) <==> !HidesUpdate(tar, updates, n)
  {
    LastCopyIsExtracted(tar, n);
    LastCopyIsExtracted(out, n);
  }

  ghost predicate HidesNone(tar: seq<File>, updates: map<string, File>) {
    forall n :: !HidesUpdate(tar, updates, n)
  }

  /** Extracting the new archive gives the old files overwritten by the updates, unless a copy hides one. */
  lemma RewritingUpdatesTheFiles(tar: seq<File>, updates: map<string, File>, out: seq<File>)
    requires IsRewritten(tar, updates, out)
    ensures Extracted(out) == Overwritten(Extracted(tar), updates) <==> HidesNone(tar, updates)
  {
    var was, wanted := Extracted(out), Overwritten(Extracted(tar), updates);
    SameEverywhere(was, wanted);
    if HidesNone(tar, updates) {
      forall n
        ensures SameAt(was, wanted, n)
      {
        RewritingUpdatesFile(tar, updates, out, n);
        assert !HidesUpdate(tar, updates, n);
      }
    } else {
      var n :| HidesUpdate(tar, updates, n);
      RewritingUpdatesFile(tar, updates, out, n);
      assert !SameAt(was, wanted, n);
    }
  }

  /** Two copies of an updated file: the stale one survives the extraction. */
  lemma StaleCopySurvives(n: string, stale: int, updated: int, out: seq<File>)
    requires stale != updated
    requires IsRewritten([File(n, stale), File(n, stale)], map[n := File(n, updated)], out)
    ensures n in Extracted(out) && Extracted(out)[n] == stale
  {
    var tar := [File(n, stale), File(n, stale)];
    var f := File(n, stale);
    OneMoreCopy([], f, n);
    OneMoreCopy([f], f, n);
    assert [] + [f] == [f] && tar == [f] + [f];
    assert Copies(tar, n) == [stale, stale];
    LastCopyIsExtracted(out, n);
  }
}
