/** The entries the enumeration collaborator hands to the engines: each one
 *  a source path and the stat record taken when it was listed. */
module Entries {
  import opened Paths
  import opened FileSystem

  datatype Kind = RegularFile | Directory | SymbolicLink | BlockDevice | CharacterDevice | Fifo | Socket

  datatype StatInfo = StatInfo(kind: Kind, size: nat, mode: Mode, atime: int, mtime: int)

  datatype Entry = Entry(path: Path, stat: StatInfo)

  /** `item.stat.isFile()`. */
  predicate IsFile(e: Entry) {
    e.stat.kind == RegularFile
  }

  /** The kinds both engines hand to `onFile` and copy byte by byte. */
  predicate IsByteCopied(e: Entry) {
    e.stat.kind == RegularFile || e.stat.kind == BlockDevice || e.stat.kind == CharacterDevice
  }

  /** Total `stat.size` of the regular files among `items`: what
   *  `loadStatistics` stores as the size to copy. Folded from the end, as
   *  `forEach` visits the items. */
  function FileSizeSum(items: seq<Entry>): nat {
    if items == [] then 0
    else
      var last := items[|items| - 1];
      FileSizeSum(items[..|items| - 1]) + (if IsFile(last) then last.stat.size else 0)
  }

  lemma {:induction false} FileSizeSumAppend(a: seq<Entry>, b: seq<Entry>)
    ensures FileSizeSum(a + b) == FileSizeSum(a) + FileSizeSum(b)
    decreases |b|
  {
    if b == [] {
      assert a + b == a;
    } else {
      var n := |b| - 1;
      assert (a + b)[..|a + b| - 1] == a + b[..n];
      assert b[..|b| - 1] == b[..n];
      FileSizeSumAppend(a, b[..n]);
    }
  }

  /** Directories, links and devices add nothing to the total. */
  lemma {:induction false} FileSizeSumOfNonFiles(items: seq<Entry>)
    requires forall i :: 0 <= i < |items| ==> !IsFile(items[i])
    ensures FileSizeSum(items) == 0
  {
    if items != [] {
      FileSizeSumOfNonFiles(items[..|items| - 1]);
    }
  }

  /** Number of entries of kind `k`. */
  function CountKind(items: seq<Entry>, k: Kind): (n: nat)
    ensures n <= |items|
  {
    if items == [] then 0
    else (if items[0].stat.kind == k then 1 else 0) + CountKind(items[1..], k)
  }

  /** Number of entries copied byte by byte. */
  function CountByteCopied(items: seq<Entry>): (n: nat)
    ensures n <= |items|
  {
    if items == [] then 0
    else (if IsByteCopied(items[0]) then 1 else 0) + CountByteCopied(items[1..])
  }

  /** The count of a kind is zero exactly when no entry has it, and the
   *  whole list exactly when every entry has it. */
  lemma {:induction false} CountKindExtremes(items: seq<Entry>, k: Kind)
    ensures CountKind(items, k) == 0 <==> forall i :: 0 <= i < |items| ==> items[i].stat.kind != k
    ensures CountKind(items, k) == |items| <==> forall i :: 0 <= i < |items| ==> items[i].stat.kind == k
  {
    if items != [] {
      CountKindExtremes(items[1..], k);
      assert forall i :: 1 <= i < |items| ==> items[i] == items[1..][i - 1];
    }
  }

  /** The same for the entries copied byte by byte. */
  lemma {:induction false} CountByteCopiedExtremes(items: seq<Entry>)
    ensures CountByteCopied(items) == 0 <==> forall i :: 0 <= i < |items| ==> !IsByteCopied(items[i])
    ensures CountByteCopied(items) == |items| <==> forall i :: 0 <= i < |items| ==> IsByteCopied(items[i])
  {
    if items != [] {
      CountByteCopiedExtremes(items[1..]);
      assert forall i :: 1 <= i < |items| ==> items[i] == items[1..][i - 1];
    }
  }

  /** Total `stat.size` of the entries copied byte by byte: what a run adds
   *  to `copied.size`, devices included. */
  function CopiedSize(items: seq<Entry>): nat {
    if items == [] then 0
    else (if IsByteCopied(items[0]) then items[0].stat.size else 0) + CopiedSize(items[1..])
  }

  /** Without device entries, the bytes a run reports as copied are the
   *  size computed up front. */
  lemma {:induction false} CopiedSizeIsFileSize(items: seq<Entry>)
    requires forall i :: 0 <= i < |items| ==> items[i].stat.kind != BlockDevice && items[i].stat.kind != CharacterDevice
    ensures CopiedSize(items) == FileSizeSum(items)
  {
    if items != [] {
      CopiedSizeIsFileSize(items[1..]);
      FileSizeSumAppend([items[0]], items[1..]);
      assert [items[0]] + items[1..] == items;
      assert [items[0]][..0] == [];
    }
  }
}

/** The statistics record both engines keep and report. */
module Stats {
  datatype Copied = Copied(files: nat, directories: nat, links: nat, size: nat)

  /** `overwrited` is the source's own spelling. */
  datatype Statistics = Statistics(
    copied: Copied,
    overwrited: nat,
    skipped: nat,
    size: nat,
    errors: nat,
    items: nat)

  const Zero: Statistics := Statistics(Copied(0, 0, 0, 0), 0, 0, 0, 0, 0)

  /** `copied.files++` and `copied.size += size`. */
  function WithFile(s: Statistics, size: nat): Statistics {
    s.(copied := s.copied.(files := s.copied.files + 1, size := s.copied.size + size))
  }

  /** `copied.directories++`. */
  function WithDirectory(s: Statistics): Statistics {
    s.(copied := s.copied.(directories := s.copied.directories + 1))
  }

  /** `copied.links++`. */
  function WithLink(s: Statistics): Statistics {
    s.(copied := s.copied.(links := s.copied.links + 1))
  }

  /** `overwrited++`. */
  function WithOverwrite(s: Statistics): Statistics {
    s.(overwrited := s.overwrited + 1)
  }

  /** `errors++`. */
  function WithError(s: Statistics): Statistics {
    s.(errors := s.errors + 1)
  }
}
