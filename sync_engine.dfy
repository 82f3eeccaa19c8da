/** The synchronous engine: the `CopyFiles` object of the synchronous
 *  module, whose methods update its statistics and the filesystem in
 *  place. Every method is proved to compute the matching function of
 *  SyncSpec; a thrown exception is returned as `Threw`. */
module SyncEngine {
  import opened Wrappers
  import opened Paths
  import opened FileSystem
  import opened Entries
  import opened Stats
  import opened Options
  import opened SyncSpec

  /** `BUF_LENGTH`: the bytes one `readSync` asks for. */
  const BufLength: nat := 64 * 1024

  /** `readSync` at position `pos`: up to `BufLength` bytes, none at the
   *  end. */
  function ReadAt(data: seq<byte>, pos: nat): (chunk: seq<byte>)
    requires pos <= |data|
    ensures |chunk| <= BufLength && pos + |chunk| <= |data|
    ensures chunk == [] <==> pos == |data|
    ensures data[..pos] + chunk == data[..pos + |chunk|]
  {
    var end := if pos + BufLength < |data| then pos + BufLength else |data|;
    data[pos..end]
  }

  class CopyFiles {
    const src: Path
    const dst: Path
    const basePath: Path
    const options: CopyOptions
    /** The filesystem the injected `fs` module acts on. */
    var fs: Fs
    var statistics: Statistics
    var itemsToCopy: seq<Entry>
    var hasErrors: bool
    /** `null` with `stopOnError`, otherwise the collected errors. */
    var errors: Option<seq<Error>>

    predicate Valid()
      reads this`errors
    {
      errors.Some? <==> !options.stopOnError
    }

    function Cfg(): Config {
      Config(src, dst, basePath, options)
    }

    function Now(): World
      reads this`fs, this`statistics
    {
      World(fs, statistics)
    }

    /** The roots are resolved against the working directory `cwd`. */
    constructor(cwd: Path, source: Path, destination: Path, opts: CopyOptions, fs0: Fs)
      ensures Valid()
      ensures src == Absolute(cwd, source) && dst == Absolute(cwd, destination)
      ensures basePath == cwd && options == opts
      ensures fs == fs0 && statistics == Zero && itemsToCopy == []
      ensures !hasErrors && errors == (if opts.stopOnError then None else Some([]))
    {
      basePath := cwd;
      src := Absolute(cwd, source);
      dst := Absolute(cwd, destination);
      options := opts;
      fs := fs0;
      statistics := Zero;
      itemsToCopy := [];
      hasErrors := false;
      errors := if opts.stopOnError then None else Some([]);
    }

    /** `onError`: record the error, then rethrow it or collect it. */
    method OnError(err: Error) returns (out: Outcome)
      requires Valid()
      modifies this`hasErrors, this`statistics, this`errors
      ensures Valid() && hasErrors && statistics == WithError(old(statistics))
      ensures options.stopOnError ==> out == Threw(err) && errors == old(errors)
      ensures !options.stopOnError ==> out == Completed && errors == Some(old(errors).value + [err])
    {
      hasErrors := true;
      statistics := WithError(statistics);
      if options.stopOnError {
        return Threw(err);
      }
      errors := Some(errors.value + [err]);
      return Completed;
    }

    /** `start`, given what the enumeration of the source produces. */
    method Start(found: Result<seq<Entry>>) returns (r: StartResult)
      modifies this`fs, this`statistics, this`itemsToCopy
      ensures (r, Now()) == SyncSpec.Start(Cfg(), old(Now()), found)
    {
      if src == dst {
        return ReturnedStatistics(statistics);
      }
      if IndexOf(dst + [Sep], src + [Sep]) == 0 {
        return StartThrew(Error(ESELF, dst));
      }
      var st := StatBy(fs, options.dereference, src);
      if st.Fail? {
        return StartThrew(st.error);
      }
      var made := Mkdirp(fs, Dirname(dst), DefaultDirMode);
      if made.Fail? {
        return StartThrew(made.error);
      }
      fs := made.value;
      var out := LoadItems(found);
      r := if out.Threw? then StartThrew(out.error) else ReturnedNothing;
    }

    /** `loadItems`: an empty enumeration ends the copy. */
    method LoadItems(found: Result<seq<Entry>>) returns (out: Outcome)
      modifies this`fs, this`statistics, this`itemsToCopy
      ensures Step(Now(), out) == SyncSpec.LoadItems(Cfg(), old(Now()), found)
    {
      if found.Fail? {
        return Threw(found.error);
      }
      var items := found.value;
      if |items| == 0 {
        return Completed;
      }
      itemsToCopy := items;
      out := LoadStatistics(items);
    }

    /** The first half of `loadStatistics`: the entry count, and the
     *  sizes of the regular files added up. */
    method Tally(items: seq<Entry>)
      modifies this`statistics
      ensures statistics == SyncSpec.Loaded(old(statistics), items)
    {
      statistics := statistics.(items := |items|);
      ghost var base := statistics.size;
      for i := 0 to |items|
        modifies this`statistics
        invariant statistics == old(statistics).(items := |items|, size := base + FileSizeSum(items[..i]))
      {
        assert items[..i + 1][..i] == items[..i];
        if IsFile(items[i]) {
          statistics := statistics.(size := statistics.size + items[i].stat.size);
        }
      }
      assert items[..|items|] == items;
    }

    /** `loadStatistics`: count the entries, add up the sizes of the
     *  regular files, then copy. */
    method LoadStatistics(items: seq<Entry>) returns (out: Outcome)
      requires items != [] && itemsToCopy == items
      modifies this`fs, this`statistics, this`itemsToCopy
      ensures Step(Now(), out) == Run(Cfg(), World(old(fs), Loaded(old(statistics), items)), items)
    {
      Tally(items);
      var stats;
      out, stats := StartCopy();
    }

    /** `startCopy`: take entries from the front of `itemsToCopy` until it
     *  is empty, handing each to the operation for its kind; returns the
     *  statistics. */
    method StartCopy() returns (out: Outcome, stats: Statistics)
      requires itemsToCopy != []
      modifies this`fs, this`statistics, this`itemsToCopy
      ensures Step(Now(), out) == Run(Cfg(), old(Now()), old(itemsToCopy))
      ensures out.Completed? ==> itemsToCopy == [] && stats == statistics
    {
      ghost var w0 := Now();
      ghost var all := itemsToCopy;
      while true
        invariant itemsToCopy != []
        invariant Run(Cfg(), w0, all) == Run(Cfg(), Now(), itemsToCopy)
        decreases |itemsToCopy|
      {
        var item := itemsToCopy[0];
        ghost var rest := itemsToCopy[1..];
        itemsToCopy := itemsToCopy[1..];
        var o;
        if item.stat.kind == Directory {
          o := MakeDir(item);
        } else if IsByteCopied(item) {
          o := OnFile(item);
        } else if item.stat.kind == SymbolicLink {
          o := OnLink(item);
        } else {
          o := Completed;
        }
        if o.Threw? {
          return o, statistics;
        }
        if itemsToCopy == [] {
          return Completed, statistics;
        }
      }
    }

    /** `makeDir`. */
    method MakeDir(item: Entry) returns (out: Outcome)
      modifies this`fs, this`statistics
      ensures Step(Now(), out) == SyncSpec.MakeDir(Cfg(), old(Now()), item)
    {
      var target := Target(item.path, src, dst);
      var made := Mkdirp(fs, target, item.stat.mode);
      if made.Fail? {
        return Threw(made.error);
      }
      fs := made.value;
      statistics := WithDirectory(statistics);
      var changed := Chmod(fs, target, item.stat.mode);
      if changed.Fail? {
        return Threw(changed.error);
      }
      fs := changed.value;
      return Completed;
    }

    /** `isWritable`. */
    method IsWritable(target: Path) returns (b: bool)
      ensures b == SyncSpec.IsWritable(Cfg(), fs, target)
    {
      var st := StatBy(fs, options.dereference, target);
      if st.Fail? && st.error.code == ENOENT {
        return true;
      }
      return false;
    }

    /** `onFile`. */
    method OnFile(item: Entry) returns (out: Outcome)
      modifies this`fs, this`statistics
      ensures Step(Now(), out) == SyncSpec.OnFile(Cfg(), old(Now()), item)
    {
      var target := Target(item.path, src, dst);
      var writable := IsWritable(target);
      if writable {
        out := CopyFile(item, target);
      } else if options.overwrite && item.path != target {
        out := RmFile(target);
        if out.Completed? {
          out := CopyFile(item, target);
        }
      } else {
        out := Completed;
      }
    }

    /** `rmFile`. */
    method RmFile(target: Path) returns (out: Outcome)
      modifies this`fs, this`statistics
      ensures Step(Now(), out) == SyncSpec.RmFile(old(Now()), target)
    {
      var removed := Unlink(fs, target);
      if removed.Fail? {
        return Threw(removed.error);
      }
      fs := removed.value;
      statistics := WithOverwrite(statistics);
      return Completed;
    }

    /** `copyFile`: the chunked read and write loop. Each `readSync` reads
     *  the source at `pos`; each `writeSync` appends to the target. */
    method CopyFile(item: Entry, target: Path) returns (out: Outcome)
      modifies this`fs, this`statistics
      ensures Step(Now(), out) == SyncSpec.CopyFile(Cfg(), old(Now()), item, target)
    {
      var reader := OpenRead(fs, item.path);
      if reader.Fail? {
        return Threw(reader.error);
      }
      var rq := reader.value.0;
      var writer := OpenWrite(fs, target, item.stat.mode);
      if writer.Fail? {
        return Threw(writer.error);
      }
      var q := writer.value.0;
      fs := writer.value.1;
      ghost var truncated := fs;
      ghost var data := ReadableAt(truncated, rq);
      assert rq == q ==> data == [];
      var bytesRead := 1;
      var pos := 0;
      while bytesRead > 0
        modifies this`fs
        invariant 0 <= pos <= |data| && bytesRead >= 0
        invariant q in fs.nodes && fs.nodes[q].File?
        invariant fs == Fill(truncated, q, data[..pos])
        invariant ReadableAt(fs, rq) == data
        invariant bytesRead == 0 ==> pos == |data|
        decreases |data| - pos + (if bytesRead > 0 then 1 else 0)
      {
        var chunk := ReadAt(ReadableAt(fs, rq), pos);
        bytesRead := |chunk|;
        fs := Append(fs, q, chunk);
        pos := pos + bytesRead;
      }
      assert data[..pos] == data;
      if options.preserveTimestamps {
        fs := Stamp(fs, q, item.stat.atime, item.stat.mtime);
      }
      statistics := WithFile(statistics, item.stat.size);
      return Completed;
    }

    /** `onLink`. */
    method OnLink(item: Entry) returns (out: Outcome)
      modifies this`fs, this`statistics
      ensures Step(Now(), out) == SyncSpec.OnLink(Cfg(), old(Now()), item)
    {
      var target := Target(item.path, src, dst);
      var link := Readlink(fs, item.path);
      if link.Fail? {
        return Threw(link.error);
      }
      out := CheckLink(link.value, target);
    }

    /** `checkLink`. */
    method CheckLink(resolvedPath: Path, target: Path) returns (out: Outcome)
      modifies this`fs, this`statistics
      ensures Step(Now(), out) == SyncSpec.CheckLink(Cfg(), old(Now()), resolvedPath, target)
    {
      var resolved := resolvedPath;
      if options.dereference {
        resolved := Absolute(basePath, resolved);
      }
      if resolved == target {
        return Completed;
      }
      var writable := IsWritable(target);
      if writable {
        out := MakeLink(resolved, target);
        return;
      }
      var existing := Readlink(fs, target);
      if existing.Fail? {
        if existing.error.code == EINVAL {
          statistics := WithLink(statistics);
          return Completed;
        }
        return Threw(existing.error);
      }
      var targetDst := existing.value;
      if options.dereference {
        targetDst := Absolute(basePath, targetDst);
      }
      if targetDst == resolved {
        statistics := WithLink(statistics);
        return Completed;
      }
      out := RmFile(target);
      if out.Completed? {
        out := MakeLink(resolved, target);
      }
    }

    /** `makeLink`. */
    method MakeLink(resolved: Path, target: Path) returns (out: Outcome)
      modifies this`fs, this`statistics
      ensures Step(Now(), out) == SyncSpec.MakeLink(old(Now()), resolved, target)
    {
      var made := Symlink(fs, resolved, target);
      if made.Fail? {
        return Threw(made.error);
      }
      fs := made.value;
      statistics := WithLink(statistics);
      return Completed;
    }
  }
}
