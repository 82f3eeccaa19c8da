/** The asynchronous engine: the `CopyFiles` object of the asynchronous
 *  module. Its counters, statistics and the filesystem are updated in
 *  place by `copyItem` and by the callbacks of the filesystem calls it
 *  issues. Each callback is a method here, run when the environment
 *  delivers it; every method is proved to compute the matching function
 *  of AsyncSpec. Ghost fields keep the books on the entries in flight,
 *  and `Valid` ties them to the counters. */
module AsyncEngine {
  import opened Wrappers
  import opened Paths
  import opened FileSystem
  import opened Entries
  import opened Stats
  import opened Options
  import opened Scheduler
  import opened AsyncSpec
  import SyncSpec

  class AsyncCopy {
    const src: Path
    const dst: Path
    const basePath: Path
    const options: CopyOptions
    var fs: Fs
    var statistics: Statistics
    var itemsToCopy: seq<Entry>
    var started: int
    var running: int
    var finished: int
    var hasErrors: bool
    /** `null` with `stopOnError`, otherwise the collected errors. */
    var errors: Option<seq<Error>>
    /** The invocations of the user's callback so far. */
    var replies: seq<Reply>

    /** Where every call and entry stands (see AsyncSpec.Books). */
    ghost var books: Books

    ghost predicate Valid()
      reads this`errors, this`started, this`running, this`finished, this`books
    {
      && (errors.Some? <==> !options.stopOnError)
      && Consistent(Progress(started, running, finished), books, options.limit)
    }

    function Cfg(): Config {
      SyncSpec.Config(src, dst, basePath, options)
    }

    function Visible(): State
      reads this`fs, this`statistics, this`started, this`running, this`finished,
        this`hasErrors, this`errors, this`replies
    {
      State(fs, statistics, Progress(started, running, finished), hasErrors, errors, replies)
    }

    /** The roots are resolved against the working directory `cwd`; the
     *  source then calls `start`. */
    constructor(cwd: Path, source: Path, destination: Path, opts: CopyOptions, fs0: Fs)
      ensures Valid() && books == NoBooks
      ensures src == Absolute(cwd, source) && dst == Absolute(cwd, destination)
      ensures basePath == cwd && options == opts && itemsToCopy == []
      ensures Visible() == State(fs0, Zero, Idle, false, if opts.stopOnError then None else Some([]), [])
    {
      basePath := cwd;
      src := Absolute(cwd, source);
      dst := Absolute(cwd, destination);
      options := opts;
      fs := fs0;
      statistics := Zero;
      itemsToCopy := [];
      started, running, finished := 0, 0, 0;
      hasErrors := false;
      errors := if opts.stopOnError then None else Some([]);
      replies := [];
      books := NoBooks;
    }

    // ----- Ending -----

    /** `_end`. */
    method End()
      modifies this`replies
      ensures Visible() == AsyncSpec.End(old(Visible()))
    {
      replies := replies + [Ended(if hasErrors then errors else None, statistics)];
    }

    /** `done`. */
    method Done(skipped: bool)
      modifies this`running, this`finished, this`replies
      ensures Visible() == AsyncSpec.Done(old(Visible()), skipped)
    {
      if !skipped {
        running := running - 1;
      }
      finished := finished + 1;
      if started == finished && running == 0 {
        End();
      }
    }

    /** `onError`; `stopped` says the error went straight to the callback. */
    method OnError(err: Error) returns (stopped: bool)
      modifies this`hasErrors, this`statistics, this`errors, this`replies, this`running, this`finished
      ensures stopped == options.stopOnError
      ensures Visible() == AsyncSpec.OnError(Cfg(), old(Visible()), err)
    {
      hasErrors := true;
      statistics := WithError(statistics);
      if options.stopOnError {
        replies := replies + [Failed(err)];
        return true;
      }
      if errors.Some? {
        errors := Some(errors.value + [err]);
      }
      Done(false);
      return false;
    }

    /** The books kept when a callback returns, having turned `s` into
     *  the state `n` describes. */
    ghost method Settle(s: State, t: Task, n: Next)
      requires Consistent(s.progress, books, options.limit) && t in books.pending && Accounted(s, n)
      requires Visible() == n.state && (errors.Some? <==> !options.stopOnError)
      modifies this`books
      ensures Valid() && books == Settled(old(books), t, n.after)
    {
      SettledKeeps(Cfg(), s, books, t, n);
      books := Settled(books, t, n.after);
    }

    // ----- start -----

    /** The synchronous part of `start`. */
    method Start()
      requires Valid() && books.stage == Created
      modifies this`replies, this`books
      ensures Valid()
      ensures (Visible(), books.stage) == AsyncSpec.Start(Cfg(), old(Visible()))
      ensures books == old(books).(stage := books.stage)
    {
      RestagedKeeps(Progress(started, running, finished), books, options.limit, Halted);
      RestagedKeeps(Progress(started, running, finished), books, options.limit, Statting);
      if src == dst {
        End();
        books := books.(stage := Halted);
        return;
      }
      if IndexOf(dst + [Sep], src + [Sep]) == 0 {
        replies := replies + [Failed(Error(ESELF, dst))];
        books := books.(stage := Halted);
        return;
      }
      books := books.(stage := Statting);
    }

    /** An error in `start`: `onError`, whose `done` runs from the
     *  zeroed counters. */
    method StartError(err: Error)
      requires Valid() && books.stage != Copying && books.stage != Halted
      modifies this`hasErrors, this`statistics, this`errors, this`replies, this`running, this`finished, this`books
      ensures Valid() && books.stage == Halted
      ensures Visible() == AsyncSpec.OnError(Cfg(), old(Visible()), err)
    {
      var p := Progress(started, running, finished);
      RestagedKeeps(p, books, options.limit, Halted);
      StartErrorKeeps(p, books, options.limit);
      var stopped := OnError(err);
      if stopped {
        books := books.(stage := Halted);
      } else {
        books := books.(stage := Halted, startDone := 1);
      }
    }

    /** The callback of the stat of the source. */
    method OnSourceStat()
      requires Valid() && books.stage == Statting
      modifies this`hasErrors, this`statistics, this`errors, this`replies, this`running, this`finished, this`books
      ensures Valid()
      ensures (Visible(), books.stage) == SourceStatted(Cfg(), old(Visible()))
    {
      var st := StatBy(fs, options.dereference, src);
      if st.Fail? {
        StartError(st.error);
        return;
      }
      RestagedKeeps(Progress(started, running, finished), books, options.limit, MakingParent);
      books := books.(stage := MakingParent);
    }

    /** The callback of `mkdirp(dirname(dst))`. */
    method OnDestinationParent()
      requires Valid() && books.stage == MakingParent
      modifies this`fs, this`hasErrors, this`statistics, this`errors, this`replies, this`running,
        this`finished, this`books
      ensures Valid()
      ensures (Visible(), books.stage) == DestinationParentMade(Cfg(), old(Visible()))
    {
      var made := Mkdirp(fs, Dirname(dst), DefaultDirMode);
      if made.Fail? {
        StartError(made.error);
        return;
      }
      fs := made.value;
      RestagedKeeps(Progress(started, running, finished), books, options.limit, Finding);
      books := books.(stage := Finding);
    }

    /** `loadItems`, given what the enumeration of the source produced. */
    method LoadItems(found: Result<seq<Entry>>)
      requires Valid() && books.stage == Finding
      modifies this`hasErrors, this`statistics, this`errors, this`replies, this`running, this`finished,
        this`itemsToCopy, this`started, this`books
      ensures Valid()
      ensures var (s1, next) := Listed(Cfg(), old(Visible()), found);
        && books.stage == next
        && (next != Copying ==> Visible() == s1)
        && (next == Copying ==>
              (Visible(), books) == AsyncSpec.StartCopy(Cfg(), s1, old(books).(stage := Copying), found.value))
    {
      if found.Fail? {
        StartError(found.error);
        return;
      }
      var items := found.value;
      RestagedKeeps(Progress(started, running, finished), books, options.limit, Halted);
      if |items| == 0 {
        End();
        books := books.(stage := Halted);
        return;
      }
      itemsToCopy := items;
      RestagedKeeps(Progress(started, running, finished), books, options.limit, Copying);
      books := books.(stage := Copying);
      LoadStatistics(items);
    }

    /** The first half of `loadStatistics`: the entry count, and the
     *  sizes of the regular files added up. */
    method Tally(items: seq<Entry>)
      modifies this`statistics
      ensures statistics == SyncSpec.Loaded(old(statistics), items)
    {
      statistics := statistics.(items := |items|);
      ghost var base := statistics.size;
      for i := 0 to |items|
        modifies this`statistics
        invariant statistics == old(statistics).(items := |items|, size := base + FileSizeSum(items[..i]))
      {
        assert items[..i + 1][..i] == items[..i];
        if IsFile(items[i]) {
          statistics := statistics.(size := statistics.size + items[i].stat.size);
        }
      }
      assert items[..|items|] == items;
    }

    /** `loadStatistics`: count the entries, add up the sizes of the
     *  regular files, then start the copy. */
    method LoadStatistics(items: seq<Entry>)
      requires Valid() && books.stage == Copying && itemsToCopy == items
      modifies this`statistics, this`started, this`running, this`books
      ensures Valid()
      ensures (Visible(), books)
        == AsyncSpec.StartCopy(Cfg(), old(Visible()).(stats := SyncSpec.Loaded(old(statistics), items)), old(books), items)
    {
      Tally(items);
      StartCopy();
    }

    /** `startCopy`: `copyItem` for every entry, in order. */
    method StartCopy()
      requires Valid() && books.stage == Copying
      modifies this`started, this`running, this`books
      ensures Valid()
      ensures (Visible(), books) == AsyncSpec.StartCopy(Cfg(), old(Visible()), old(books), itemsToCopy)
    {
      ghost var s0, b0 := Visible(), books;
      for i := 0 to |itemsToCopy|
        modifies this`started, this`running, this`books
        invariant Valid() && books.stage == Copying
        invariant (Visible(), books) == AsyncSpec.StartCopy(Cfg(), s0, b0, itemsToCopy[..i])
      {
        assert itemsToCopy[..i + 1][..i] == itemsToCopy[..i];
        CopyItem(itemsToCopy[i]);
      }
      assert itemsToCopy[..|itemsToCopy|] == itemsToCopy;
    }

    // ----- copyItem -----

    /** `copyItem`: deferred at the limit, otherwise dispatched to the
     *  handler for the entry's kind, which issues its first call. */
    method CopyItem(item: Entry)
      requires Valid() && books.stage == Copying
      modifies this`started, this`running, this`books
      ensures Valid() && books.stage == Copying
      ensures var r := AsyncSpec.CopyItem(Cfg(), old(Visible()), item);
        Visible() == r.0 && books == Entered(old(books), item, r.1)
    {
      ghost var r := AsyncSpec.CopyItem(Cfg(), Visible(), item);
      EnteredKeeps(Cfg(), Visible(), books, item);
      started := started + 1;
      if running < options.limit {
        running := running + 1;
      }
      assert Visible() == r.0;
      books := Entered(books, item, r.1);
    }

    /** The `setImmediate` callback: `copyItem` again for a deferred entry. */
    method Retry(item: Entry)
      requires Valid() && item in books.deferred
      modifies this`started, this`running, this`books
      ensures Valid()
      ensures var r := AsyncSpec.CopyItem(Cfg(), old(Visible()), item);
        Visible() == r.0 && books == Entered(old(books).(deferred := old(books).deferred - multiset{item}), item, r.1)
    {
      ghost var r := AsyncSpec.CopyItem(Cfg(), Visible(), item);
      ghost var withdrawn := books.(deferred := books.deferred - multiset{item});
      RetriedKeeps(Cfg(), Visible(), books, item);
      started := started + 1;
      if running < options.limit {
        running := running + 1;
      }
      assert Visible() == r.0;
      books := Entered(withdrawn, item, r.1);
    }

    // ----- Directories -----

    /** The `mkdirp` callback of `onDir`. */
    method OnDirMkdirp(item: Entry)
      requires Valid() && DirMkdirp(item) in books.pending
      modifies this`fs, this`hasErrors, this`statistics, this`errors, this`replies, this`running,
        this`finished, this`books
      ensures Valid()
      ensures var n := DirMade(Cfg(), old(Visible()), item);
        Visible() == n.state && books == Settled(old(books), DirMkdirp(item), n.after)
    {
      ghost var s0 := Visible();
      ghost var n := DirMade(Cfg(), s0, item);
      var target := Target(item.path, src, dst);
      var made := Mkdirp(fs, target, item.stat.mode);
      if made.Fail? {
        var _ := OnError(made.error);
      } else {
        fs := made.value;
        statistics := WithDirectory(statistics);
      }
      Settle(s0, DirMkdirp(item), n);
    }

    /** The `chmod` callback of `onDir`. */
    method OnDirChmod(item: Entry)
      requires Valid() && DirChmod(item) in books.pending
      modifies this`fs, this`hasErrors, this`statistics, this`errors, this`replies, this`running,
        this`finished, this`books
      ensures Valid()
      ensures var n := DirChmodded(Cfg(), old(Visible()), item);
        Visible() == n.state && books == Settled(old(books), DirChmod(item), n.after)
    {
      ghost var s0 := Visible();
      ghost var n := DirChmodded(Cfg(), s0, item);
      var target := Target(item.path, src, dst);
      var changed := Chmod(fs, target, item.stat.mode);
      if changed.Fail? {
        var _ := OnError(changed.error);
      } else {
        fs := changed.value;
        Done(false);
      }
      Settle(s0, DirChmod(item), n);
    }

    // ----- Files and devices -----

    /** `isWritable`. */
    method IsWritable(target: Path) returns (b: bool)
      ensures b == SyncSpec.IsWritable(Cfg(), fs, target)
    {
      var st := StatBy(fs, options.dereference, target);
      return st.Fail? && st.error.code == ENOENT;
    }

    /** The callback of `mkdirp(dirname(target))` in `onFile`; its error is
     *  ignored. */
    method OnFileMkdirp(item: Entry)
      requires Valid() && FileParent(item) in books.pending
      modifies this`fs, this`hasErrors, this`statistics, this`errors, this`replies, this`running,
        this`finished, this`books
      ensures Valid()
      ensures var n := ParentMade(Cfg(), old(Visible()), item);
        Visible() == n.state && books == Settled(old(books), FileParent(item), n.after)
    {
      ghost var s0 := Visible();
      ghost var n := ParentMade(Cfg(), s0, item);
      var target := Target(item.path, src, dst);
      var made := Mkdirp(fs, Dirname(target), DefaultDirMode);
      if made.Ok? {
        fs := made.value;
      }
      Settle(s0, FileParent(item), n);
    }

    /** The `isWritable` callback of `onFile`. */
    method OnFileWritable(item: Entry)
      requires Valid() && FileProbe(item) in books.pending
      modifies this`fs, this`hasErrors, this`statistics, this`errors, this`replies, this`running,
        this`finished, this`books
      ensures Valid()
      ensures var n := FileProbed(Cfg(), old(Visible()), item);
        Visible() == n.state && books == Settled(old(books), FileProbe(item), n.after)
    {
      ghost var s0 := Visible();
      ghost var n := FileProbed(Cfg(), s0, item);
      var target := Target(item.path, src, dst);
      var writable := IsWritable(target);
      if !writable && !(options.overwrite && item.path != target) {
        Done(false);
      }
      Settle(s0, FileProbe(item), n);
    }

    /** The `unlink` callback of `rmFile`, before `copyFile`. */
    method OnFileUnlink(item: Entry)
      requires Valid() && FileUnlink(item) in books.pending
      modifies this`fs, this`hasErrors, this`statistics, this`errors, this`replies, this`running,
        this`finished, this`books
      ensures Valid()
      ensures var n := FileUnlinked(Cfg(), old(Visible()), item);
        Visible() == n.state && books == Settled(old(books), FileUnlink(item), n.after)
    {
      ghost var s0 := Visible();
      ghost var n := FileUnlinked(Cfg(), s0, item);
      var target := Target(item.path, src, dst);
      var removed := Unlink(fs, target);
      if removed.Fail? {
        var _ := OnError(removed.error);
      } else {
        fs := removed.value;
        statistics := WithOverwrite(statistics);
      }
      Settle(s0, FileUnlink(item), n);
    }

    /** The streams of `copyFile`, up to `finish`: the target is opened
     *  with the source mode, then the source is piped into it. */
    method OnStreamFinish(item: Entry)
      requires Valid() && FileStream(item) in books.pending
      modifies this`fs, this`hasErrors, this`statistics, this`errors, this`replies, this`running,
        this`finished, this`books
      ensures Valid()
      ensures var n := Streamed(Cfg(), old(Visible()), item);
        Visible() == n.state && books == Settled(old(books), FileStream(item), n.after)
    {
      ghost var s0 := Visible();
      ghost var n := Streamed(Cfg(), s0, item);
      var target := Target(item.path, src, dst);
      var reader := OpenRead(fs, item.path);
      var writer := OpenWrite(fs, target, item.stat.mode);
      if reader.Fail? {
        if writer.Ok? {
          fs := writer.value.1;
        }
        assert n == AsyncSpec.Fail(Cfg(), Visible(), reader.error);
        var _ := OnError(reader.error);
      } else if writer.Fail? {
        assert n == AsyncSpec.Fail(Cfg(), Visible(), writer.error);
        var _ := OnError(writer.error);
      } else {
        var rq := reader.value.0;
        var q := writer.value.0;
        fs := writer.value.1;
        fs := Fill(fs, q, SyncSpec.ReadableAt(fs, rq));
        statistics := WithFile(statistics, item.stat.size);
        assert n == Next(Visible(), Await(FileChmod(item)));
      }
      Settle(s0, FileStream(item), n);
    }

    /** The `chmod` callback after `finish`. */
    method OnFileChmod(item: Entry)
      requires Valid() && FileChmod(item) in books.pending
      modifies this`fs, this`hasErrors, this`statistics, this`errors, this`replies, this`running,
        this`finished, this`books
      ensures Valid()
      ensures var n := FileChmodded(Cfg(), old(Visible()), item);
        Visible() == n.state && books == Settled(old(books), FileChmod(item), n.after)
    {
      ghost var s0 := Visible();
      ghost var n := FileChmodded(Cfg(), s0, item);
      var target := Target(item.path, src, dst);
      var changed := Chmod(fs, target, item.stat.mode);
      if changed.Fail? {
        var _ := OnError(changed.error);
      } else {
        fs := changed.value;
        if !options.preserveTimestamps {
          Done(false);
        }
      }
      Settle(s0, FileChmod(item), n);
    }

    /** The `utimesMillis` callback. */
    method OnFileUtimes(item: Entry)
      requires Valid() && FileUtimes(item) in books.pending
      modifies this`fs, this`hasErrors, this`statistics, this`errors, this`replies, this`running,
        this`finished, this`books
      ensures Valid()
      ensures var n := FileTimed(Cfg(), old(Visible()), item);
        Visible() == n.state && books == Settled(old(books), FileUtimes(item), n.after)
    {
      ghost var s0 := Visible();
      ghost var n := FileTimed(Cfg(), s0, item);
      var target := Target(item.path, src, dst);
      var stamped := SetTimes(fs, target, item.stat.atime, item.stat.mtime);
      if stamped.Fail? {
        var _ := OnError(stamped.error);
      } else {
        fs := stamped.value;
        Done(false);
      }
      Settle(s0, FileUtimes(item), n);
    }

    // ----- Symbolic links -----

    /** The `readlink` callback of `onLink`, with the head of `checkLink`. */
    method OnLinkRead(item: Entry)
      requires Valid() && LinkRead(item) in books.pending
      modifies this`fs, this`hasErrors, this`statistics, this`errors, this`replies, this`running,
        this`finished, this`books
      ensures Valid()
      ensures var n := LinkReadDone(Cfg(), old(Visible()), item);
        Visible() == n.state && books == Settled(old(books), LinkRead(item), n.after)
    {
      ghost var s0 := Visible();
      ghost var n := LinkReadDone(Cfg(), s0, item);
      var target := Target(item.path, src, dst);
      var link := Readlink(fs, item.path);
      if link.Fail? {
        var _ := OnError(link.error);
      } else {
        var resolved := link.value;
        if options.dereference {
          resolved := Absolute(basePath, resolved);
        }
        if resolved == target {
          Done(false);
        }
      }
      Settle(s0, LinkRead(item), n);
    }

    /** The `isWritable` callback of `checkLink`: its answer only chooses
     *  the call issued next (`symlink` or `readlink`), which the books
     *  record. */
    method OnLinkWritable(item: Entry, resolved: Path) returns (writable: bool)
      requires Valid() && LinkProbe(item, resolved) in books.pending
      modifies this`books
      ensures Valid()
      ensures var n := LinkProbed(Cfg(), old(Visible()), item, resolved);
        Visible() == n.state && books == Settled(old(books), LinkProbe(item, resolved), n.after)
      ensures writable <==> books.pending - old(books).pending == multiset{LinkCreate(item, resolved)}
    {
      ghost var s0 := Visible();
      ghost var n := LinkProbed(Cfg(), s0, item, resolved);
      writable := IsWritable(Target(item.path, src, dst));
      Settle(s0, LinkProbe(item, resolved), n);
    }

    /** The `readlink(target)` callback of `checkLink`. */
    method OnTargetRead(item: Entry, resolved: Path)
      requires Valid() && LinkReadTarget(item, resolved) in books.pending
      modifies this`fs, this`hasErrors, this`statistics, this`errors, this`replies, this`running,
        this`finished, this`books
      ensures Valid()
      ensures var n := LinkTargetRead(Cfg(), old(Visible()), item, resolved);
        Visible() == n.state && books == Settled(old(books), LinkReadTarget(item, resolved), n.after)
    {
      ghost var s0 := Visible();
      ghost var n := LinkTargetRead(Cfg(), s0, item, resolved);
      var target := Target(item.path, src, dst);
      var existing := Readlink(fs, target);
      if existing.Fail? {
        if existing.error.code == EINVAL {
          Done(false);
        } else {
          var _ := OnError(existing.error);
        }
      } else {
        var targetDst := existing.value;
        if options.dereference {
          targetDst := Absolute(basePath, targetDst);
        }
        if targetDst == resolved {
          Done(false);
        }
      }
      Settle(s0, LinkReadTarget(item, resolved), n);
    }

    /** The `unlink` callback of `rmFile`, before `makeLink`. */
    method OnLinkUnlink(item: Entry, resolved: Path)
      requires Valid() && LinkUnlink(item, resolved) in books.pending
      modifies this`fs, this`hasErrors, this`statistics, this`errors, this`replies, this`running,
        this`finished, this`books
      ensures Valid()
      ensures var n := LinkUnlinked(Cfg(), old(Visible()), item, resolved);
        Visible() == n.state && books == Settled(old(books), LinkUnlink(item, resolved), n.after)
    {
      ghost var s0 := Visible();
      ghost var n := LinkUnlinked(Cfg(), s0, item, resolved);
      var target := Target(item.path, src, dst);
      var removed := Unlink(fs, target);
      if removed.Fail? {
        var _ := OnError(removed.error);
      } else {
        fs := removed.value;
        statistics := WithOverwrite(statistics);
      }
      Settle(s0, LinkUnlink(item, resolved), n);
    }

    /** The `symlink` callback of `makeLink`. */
    method OnSymlink(item: Entry, resolved: Path)
      requires Valid() && LinkCreate(item, resolved) in books.pending
      modifies this`fs, this`hasErrors, this`statistics, this`errors, this`replies, this`running,
        this`finished, this`books
      ensures Valid()
      ensures var n := LinkMade(Cfg(), old(Visible()), item, resolved);
        Visible() == n.state && books == Settled(old(books), LinkCreate(item, resolved), n.after)
    {
      ghost var s0 := Visible();
      ghost var n := LinkMade(Cfg(), s0, item, resolved);
      var target := Target(item.path, src, dst);
      var made := Symlink(fs, resolved, target);
      if made.Fail? {
        var _ := OnError(made.error);
      } else {
        fs := made.value;
        statistics := WithLink(statistics);
        Done(false);
      }
      Settle(s0, LinkCreate(item, resolved), n);
    }
  }
}
