/** `cleanHLSFiles` of `cleanup.js` over an abstract HLS cache directory: the base directory
    lists camera directories (and maybe other entries), each camera directory lists names.
    Whether an unlink fails is the oracle `unlinkFails(cameraDir, file)`. */
module Cleanup {
  import opened Text
  import opened Seqs

  /** An entry of the base directory: a non-directory, a camera directory with the names
      `readdirSync` gives for it, or an entry whose `statSync` or `readdirSync` throws. */
  datatype Entry = Plain(name: string) | Folder(name: string, files: seq<string>) | Broken(name: string)

  /** The names the sweep tries to remove. */
  predicate IsHlsFile(f: string) {
    EndsWith(f, ".ts") || EndsWith(f, ".m3u8")
  }

  /** An HLS file whose unlink succeeds: it is removed and counted. */
  function Unlinked(dir: string, unlinkFails: (string, string) -> bool): string -> bool {
    (f: string) => IsHlsFile(f) && !unlinkFails(dir, f)
  }

  /** Everything else stays. */
  function Survives(dir: string, unlinkFails: (string, string) -> bool): string -> bool {
    (f: string) => !IsHlsFile(f) || unlinkFails(dir, f)
  }

  /** The names left in one camera directory after the inner `forEach`. */
  function Remaining(dir: string, files: seq<string>, unlinkFails: (string, string) -> bool): (r: seq<string>)
    ensures forall f :: f in files && !IsHlsFile(f) ==> f in r
    ensures forall f :: f in r <==> f in files && (!IsHlsFile(f) || unlinkFails(dir, f))
    ensures |r| + |Filter(files, Unlinked(dir, unlinkFails))| == |files|
  {
    FilterPartition(files, Survives(dir, unlinkFails), Unlinked(dir, unlinkFails));
    Filter(files, Survives(dir, unlinkFails))
  }

  /** The entry after the sweep visited it: only camera directories change. */
  function CleanEntry(e: Entry, unlinkFails: (string, string) -> bool): Entry {
    match e
    case Folder(name, files) => Folder(name, Remaining(name, files, unlinkFails))
    case _ => e
  }

  /** How many files the sweep unlinks in one entry. */
  function RemovedFrom(e: Entry, unlinkFails: (string, string) -> bool): nat {
    match e
    case Folder(name, files) => |Filter(files, Unlinked(name, unlinkFails))|
    case _ => 0
  }

  /** Where the outer `forEach` stops: the first entry that throws, or the end. */
  function FirstBroken(entries: seq<Entry>): (k: nat)
    ensures k <= |entries|
    ensures forall i :: 0 <= i < k ==> !entries[i].Broken?
    ensures k < |entries| ==> entries[k].Broken?
  {
    if entries == [] then 0
    else if entries[0].Broken? then 0
    else 1 + FirstBroken(entries[1..])
  }

  /** The number of successful unlinks in `entries`. */
  function TotalRemoved(entries: seq<Entry>, unlinkFails: (string, string) -> bool): nat {
    if entries == [] then 0
    else TotalRemoved(entries[..|entries| - 1], unlinkFails) + RemovedFrom(entries[|entries| - 1], unlinkFails)
  }

  /** The base directory after the sweep: entries before the first broken one cleaned, the rest as they were. */
  function Swept(entries: seq<Entry>, unlinkFails: (string, string) -> bool): (r: seq<Entry>)
    ensures |r| == |entries|
    ensures forall i :: 0 <= i < |r| ==> r[i].name == entries[i].name
  {
    var stop := FirstBroken(entries);
    seq(|entries|, i requires 0 <= i < |entries| =>
      if i < stop then CleanEntry(entries[i], unlinkFails) else entries[i])
  }

  /** The log line `cleanHLSFiles` ends with. */
  datatype CleanOutcome = BaseMissing | Cleaned(totalFiles: nat) | Aborted

  /** The HLS cache: whether the base directory exists, and its entries in listing order. */
  class HlsCache {
    const baseExists: bool
    var entries: seq<Entry>

    constructor (baseExists: bool, entries: seq<Entry>)
      ensures this.baseExists == baseExists && this.entries == entries
    {
      this.baseExists := baseExists;
      this.entries := entries;
    }

    /** `cleanHLSFiles(basePath)`. */
    method CleanHlsFiles(unlinkFails: (string, string) -> bool) returns (outcome: CleanOutcome)
      modifies this`entries
      ensures !baseExists ==> outcome == BaseMissing && entries == old(entries)
      ensures baseExists ==> entries == Swept(old(entries), unlinkFails)
      ensures baseExists && FirstBroken(old(entries)) == |old(entries)| ==>
        outcome == Cleaned(TotalRemoved(old(entries), unlinkFails))
      ensures baseExists && FirstBroken(old(entries)) < |old(entries)| ==> outcome == Aborted
    {
      if !baseExists {
        return BaseMissing;
      }
      ghost var original := entries;
      ghost var stop := FirstBroken(original);
      var totalFiles := 0;
      var i := 0;
      while i < |entries|
        invariant 0 <= i <= |entries| == |original|
        invariant i <= stop
        invariant stop < |original| ==> original[stop].Broken?
        invariant forall k :: 0 <= k < stop ==> !original[k].Broken?
        invariant forall k :: 0 <= k < i ==> entries[k] == CleanEntry(original[k], unlinkFails)
        invariant forall k :: i <= k < |entries| ==> entries[k] == original[k]
        invariant totalFiles == TotalRemoved(original[..i], unlinkFails)
        decreases |original| - i
      {
        TotalRemovedStep(original, i, unlinkFails);
        if entries[i].Broken? {
          SweptUpTo(original, i, entries, unlinkFails);
          return Aborted;
        }
        var cleaned, removed := CleanEntryOf(entries[i], unlinkFails);
        totalFiles := totalFiles + removed;
        entries := entries[i := cleaned];
        i := i + 1;
      }
      assert original[..i] == original;
      SweptUpTo(original, i, entries, unlinkFails);
      return Cleaned(totalFiles);
    }
  }

  /** One step of the outer `forEach`: a camera directory is swept, anything else is skipped. */
  method CleanEntryOf(e: Entry, unlinkFails: (string, string) -> bool) returns (cleaned: Entry, removed: nat)
    requires !e.Broken?
    ensures cleaned == CleanEntry(e, unlinkFails)
    ensures removed == RemovedFrom(e, unlinkFails)
  {
    match e
    case Plain(_) =>
      return e, 0;
    case Folder(name, files) =>
      var kept, n := CleanFolder(name, files, unlinkFails);
      return Folder(name, kept), n;
  }

  /** The inner `forEach` over one camera directory: the names kept and the number unlinked. */
  method CleanFolder(dir: string, files: seq<string>, unlinkFails: (string, string) -> bool)
    returns (kept: seq<string>, removed: nat)
    ensures kept == Remaining(dir, files, unlinkFails)
    ensures removed == |Filter(files, Unlinked(dir, unlinkFails))|
  {
    ghost var keep := Survives(dir, unlinkFails);
    ghost var drop := Unlinked(dir, unlinkFails);
    kept := [];
    removed := 0;
    var j := 0;
    while j < |files|
      invariant 0 <= j <= |files|
      invariant kept == Filter(files[..j], keep)
      invariant removed == |Filter(files[..j], drop)|
    {
      var file := files[j];
      SweepStep(dir, files, j, unlinkFails);
      if IsHlsFile(file) && !unlinkFails(dir, file) {
        removed := removed + 1;
      } else {
        kept := kept + [file];
      }
      j := j + 1;
    }
    assert files[..j] == files;
  }

  /** One more name of a camera directory: it is either kept or counted. */
  lemma SweepStep(dir: string, files: seq<string>, j: nat, unlinkFails: (string, string) -> bool)
    requires j < |files|
    ensures var f := files[j];
      && Filter(files[..j + 1], Survives(dir, unlinkFails)) ==
        Filter(files[..j], Survives(dir, unlinkFails)) + (if IsHlsFile(f) && !unlinkFails(dir, f) then [] else [f])
      && |Filter(files[..j + 1], Unlinked(dir, unlinkFails))| ==
        |Filter(files[..j], Unlinked(dir, unlinkFails))| + (if IsHlsFile(f) && !unlinkFails(dir, f) then 1 else 0)
  {
    assert files[..j + 1] == files[..j] + [files[j]];
    FilterSnoc(files[..j], files[j], Survives(dir, unlinkFails));
    FilterSnoc(files[..j], files[j], Unlinked(dir, unlinkFails));
  }

  lemma TotalRemovedStep(entries: seq<Entry>, i: nat, unlinkFails: (string, string) -> bool)
    requires i < |entries|
    ensures TotalRemoved(entries[..i + 1], unlinkFails) ==
      TotalRemoved(entries[..i], unlinkFails) + RemovedFrom(entries[i], unlinkFails)
  {
    assert entries[..i + 1][..i] == entries[..i];
  }

  /** Entries cleaned up to the first broken one, untouched after it, are the swept directory. */
  lemma SweptUpTo(original: seq<Entry>, i: nat, entries: seq<Entry>, unlinkFails: (string, string) -> bool)
    requires i <= |original| == |entries|
    requires i == FirstBroken(original)
    requires forall k :: 0 <= k < i ==> entries[k] == CleanEntry(original[k], unlinkFails)
    requires forall k :: i <= k < |entries| ==> entries[k] == original[k]
    ensures entries == Swept(original, unlinkFails)
  {
  }

  /** With no broken entry and no failed unlink, no camera directory keeps a `.ts` or `.m3u8` file. */
  lemma NoHlsFileLeft(entries: seq<Entry>, unlinkFails: (string, string) -> bool)
    requires FirstBroken(entries) == |entries|
    requires forall d, f :: !unlinkFails(d, f)
    ensures forall i, f ::
      (0 <= i < |entries| && Swept(entries, unlinkFails)[i].Folder? && f in Swept(entries, unlinkFails)[i].files)
      ==> !IsHlsFile(f)
  {
  }

  /** Plain files at the base level, deeper names and every non-HLS name are left alone. */
  lemma OnlyHlsFilesGo(entries: seq<Entry>, unlinkFails: (string, string) -> bool)
    ensures var r := Swept(entries, unlinkFails);
      forall i :: 0 <= i < |entries| ==>
        && (!entries[i].Folder? ==> r[i] == entries[i])
        && (entries[i].Folder? ==> r[i].Folder? && r[i].name == entries[i].name)
        && (entries[i].Folder? ==> forall f :: f in entries[i].files && !IsHlsFile(f) ==> f in r[i].files)
        && (entries[i].Folder? ==> forall f :: f in r[i].files ==> f in entries[i].files)
  {
  }

  /** The count equals the HLS names that left the directories. */
  lemma {:induction false} CountMatchesRemovals(entries: seq<Entry>, unlinkFails: (string, string) -> bool)
    requires FirstBroken(entries) == |entries|
    ensures TotalRemoved(entries, unlinkFails) + FilesIn(Swept(entries, unlinkFails)) == FilesIn(entries)
  {
    if entries != [] {
      var init := entries[..|entries| - 1];
      var last := entries[|entries| - 1];
      assert FirstBroken(init) == |init| by {
        FirstBrokenPrefix(entries, |init|);
      }
      CountMatchesRemovals(init, unlinkFails);
      var s := Swept(entries, unlinkFails);
      assert s[..|s| - 1] == Swept(init, unlinkFails);
      assert s[|s| - 1] == CleanEntry(last, unlinkFails);
    }
  }

  /** The names listed in all camera directories. */
  function FilesIn(entries: seq<Entry>): nat {
    if entries == [] then 0
    else
      var last := entries[|entries| - 1];
      FilesIn(entries[..|entries| - 1]) + (if last.Folder? then |last.files| else 0)
  }

  lemma FirstBrokenPrefix(entries: seq<Entry>, n: nat)
    requires n <= FirstBroken(entries)
    ensures FirstBroken(entries[..n]) == n
  {
  }
}
