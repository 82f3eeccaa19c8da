/** What the synchronous engine does to the filesystem and to its
 *  statistics, one operation at a time, as functions from the state before
 *  to the state after. A thrown exception ends the whole copy; the
 *  filesystem changes made before it stay. The class in SyncEngine is
 *  proved to compute exactly these functions. */
module SyncSpec {
  import opened Paths
  import opened FileSystem
  import opened Entries
  import opened Stats
  import opened Options

  /** The fixed part of a copy: resolved roots, the working directory and
   *  the normalised options. */
  datatype Config = Config(src: Path, dst: Path, basePath: Path, options: CopyOptions)

  datatype World = World(fs: Fs, stats: Statistics)

  datatype Outcome = Completed | Threw(error: Error)

  datatype Step = Step(world: World, outcome: Outcome)

  /** What `start` gives back to `copy`. */
  datatype StartResult = ReturnedStatistics(stats: Statistics) | ReturnedNothing | StartThrew(error: Error)

  /** Only the copy counters and `overwrited` move, and never down. */
  predicate Progressed(a: Statistics, b: Statistics) {
    && a.copied.files <= b.copied.files
    && a.copied.directories <= b.copied.directories
    && a.copied.links <= b.copied.links
    && a.copied.size <= b.copied.size
    && a.overwrited <= b.overwrited
    && b.skipped == a.skipped && b.size == a.size && b.errors == a.errors && b.items == a.items
  }

  function TargetOf(c: Config, item: Entry): Path {
    Target(item.path, c.src, c.dst)
  }

  /** A link text as the engine compares it: resolved against the working
   *  directory when dereferencing. */
  function Norm(c: Config, p: Path): Path {
    if c.options.dereference then Absolute(c.basePath, p) else p
  }

  /** `isWritable`: the stat of the target fails, and with ENOENT. */
  predicate IsWritable(c: Config, fs: Fs, target: Path) {
    var r := StatBy(fs, c.options.dereference, target);
    r.Fail? && r.error.code == ENOENT
  }

  /** `makeDir`: create the target directory with the source mode, count
   *  it, then set the mode. The count comes before the `chmod`, so a
   *  failing `chmod` leaves the directory counted. */
  function MakeDir(c: Config, w: World, item: Entry): (s: Step)
    ensures s.outcome.Completed? ==> Stat(s.world.fs, TargetOf(c, item)) == Ok(Dir(item.stat.mode))
    ensures s.outcome.Completed? ==> s.world.stats == WithDirectory(w.stats)
    ensures s.world.stats == w.stats || s.world.stats == WithDirectory(w.stats)
  {
    var target := TargetOf(c, item);
    match Mkdirp(w.fs, target, item.stat.mode)
    case Fail(e) => Step(w, Threw(e))
    case Ok(fs1) =>
      var stats := WithDirectory(w.stats);
      match Chmod(fs1, target, item.stat.mode)
      case Fail(e) => Step(World(fs1, stats), Threw(e))
      case Ok(fs2) => Step(World(fs2, stats), Completed)
  }

  /** `rmFile`: unlink the target, then count an overwrite. */
  function RmFile(w: World, target: Path): (s: Step)
    ensures s.outcome.Completed? <==> Unlink(w.fs, target).Ok?
    ensures s.outcome.Completed? ==> s.world == World(w.fs.(nodes := w.fs.nodes - {target}), WithOverwrite(w.stats))
    ensures s.outcome.Threw? ==> s.world == w
  {
    match Unlink(w.fs, target)
    case Fail(e) => Step(w, Threw(e))
    case Ok(fs1) => Step(World(fs1, WithOverwrite(w.stats)), Completed)
  }

  /** Bytes a reader of the node at `p` gets. */
  function ReadableAt(fs: Fs, p: Path): seq<byte> {
    if p in fs.nodes then Readable(fs.nodes[p]) else []
  }

  /** `copyFile`: open the source, open (create or truncate) the target
   *  with the source mode, copy every byte the source yields, stamp the
   *  source times when asked, and count the file with its listed size.
   *  The source is read after the target is truncated, so a target that
   *  leads to the source file itself ends up empty. */
  function CopyFile(c: Config, w: World, item: Entry, target: Path): (s: Step)
    ensures s.outcome.Completed? ==> s.world.stats == WithFile(w.stats, item.stat.size)
    ensures s.outcome.Threw? ==> s.world == w
  {
    match OpenRead(w.fs, item.path)
    case Fail(e) => Step(w, Threw(e))
    case Ok((rq, _)) =>
      match OpenWrite(w.fs, target, item.stat.mode)
      case Fail(e) => Step(w, Threw(e))
      case Ok((q, fs1)) =>
        var fs2 := Fill(fs1, q, ReadableAt(fs1, rq));
        var fs3 := if c.options.preserveTimestamps then Stamp(fs2, q, item.stat.atime, item.stat.mtime) else fs2;
        Step(World(fs3, WithFile(w.stats, item.stat.size)), Completed)
  }

  /** `onFile`: copy onto a free target; replace an occupied one only with
   *  `overwrite` and a target path differing from the source path; leave
   *  it alone otherwise. */
  function OnFile(c: Config, w: World, item: Entry): (s: Step)
    ensures s.outcome.Completed? && s.world.stats.copied.files == w.stats.copied.files ==> s.world == w
    ensures s.world.stats.overwrited != w.stats.overwrited ==>
      !IsWritable(c, w.fs, TargetOf(c, item)) && c.options.overwrite && item.path != TargetOf(c, item)
    ensures IsWritable(c, w.fs, TargetOf(c, item)) && s.outcome.Completed? ==>
      s.world.stats == WithFile(w.stats, item.stat.size)
    ensures !IsWritable(c, w.fs, TargetOf(c, item)) && c.options.overwrite && item.path != TargetOf(c, item) && s.outcome.Completed? ==>
      s.world.stats == WithFile(WithOverwrite(w.stats), item.stat.size)
    ensures !IsWritable(c, w.fs, TargetOf(c, item)) && !(c.options.overwrite && item.path != TargetOf(c, item)) ==>
      s == Step(w, Completed)
    ensures Progressed(w.stats, s.world.stats)
  {
    var target := TargetOf(c, item);
    if IsWritable(c, w.fs, target) then CopyFile(c, w, item, target)
    else if c.options.overwrite && item.path != target then
      var r := RmFile(w, target);
      if r.outcome.Threw? then r else CopyFile(c, r.world, item, target)
    else Step(w, Completed)
  }

  /** `makeLink`: create the link, then count it. */
  function MakeLink(w: World, resolved: Path, target: Path): (s: Step)
    ensures s.outcome.Completed? <==> Symlink(w.fs, resolved, target).Ok?
    ensures s.outcome.Completed? ==> s.world == World(w.fs.(nodes := w.fs.nodes[target := Link(resolved)]), WithLink(w.stats))
    ensures s.outcome.Threw? ==> s.world == w
  {
    match Symlink(w.fs, resolved, target)
    case Fail(e) => Step(w, Threw(e))
    case Ok(fs1) => Step(World(fs1, WithLink(w.stats)), Completed)
  }

  /** `checkLink`. A link that would point at itself is skipped; the
   *  source bumps a `copied.link` field that does not exist, so no count
   *  moves. A free target gets the link. An occupied target that is not
   *  a link, or is a link with the same text, is counted as copied; one
   *  with another text is replaced whatever `overwrite` says. */
  function CheckLink(c: Config, w: World, resolvedPath: Path, target: Path): (s: Step)
    ensures Norm(c, resolvedPath) == target ==> s == Step(w, Completed)
    ensures s.outcome.Completed? && Norm(c, resolvedPath) != target ==> s.world.stats.copied.links == w.stats.copied.links + 1
    ensures Norm(c, resolvedPath) != target && IsWritable(c, w.fs, target) ==>
      (s.outcome.Completed? <==> Symlink(w.fs, Norm(c, resolvedPath), target).Ok?)
    ensures Norm(c, resolvedPath) != target && !IsWritable(c, w.fs, target) && Readlink(w.fs, target).Fail? ==>
      s == if Readlink(w.fs, target).error.code == EINVAL then Step(World(w.fs, WithLink(w.stats)), Completed)
           else Step(w, Threw(Readlink(w.fs, target).error))
    ensures
      && Norm(c, resolvedPath) != target && !IsWritable(c, w.fs, target)
      && Readlink(w.fs, target).Ok? && Norm(c, Readlink(w.fs, target).value) == Norm(c, resolvedPath)
      ==> s == Step(World(w.fs, WithLink(w.stats)), Completed)
    ensures s.world.stats.overwrited != w.stats.overwrited <==>
      && Norm(c, resolvedPath) != target && !IsWritable(c, w.fs, target)
      && Readlink(w.fs, target).Ok? && Norm(c, Readlink(w.fs, target).value) != Norm(c, resolvedPath)
      && Unlink(w.fs, target).Ok?
    ensures s.world.stats.overwrited != w.stats.overwrited && s.outcome.Completed? ==>
      s.world.stats == WithLink(WithOverwrite(w.stats))
    ensures Progressed(w.stats, s.world.stats)
  {
    var resolved := Norm(c, resolvedPath);
    if resolved == target then Step(w, Completed)
    else if IsWritable(c, w.fs, target) then MakeLink(w, resolved, target)
    else match Readlink(w.fs, target)
      case Fail(e) =>
        if e.code == EINVAL then Step(World(w.fs, WithLink(w.stats)), Completed)
        else Step(w, Threw(e))
      case Ok(targetDst) =>
        if Norm(c, targetDst) == resolved then Step(World(w.fs, WithLink(w.stats)), Completed)
        else
          var r := RmFile(w, target);
          if r.outcome.Threw? then r else MakeLink(r.world, resolved, target)
  }

  /** `onLink`: read the source link's text and hand it to `checkLink`. */
  function OnLink(c: Config, w: World, item: Entry): (s: Step)
    ensures Readlink(w.fs, item.path).Fail? ==> s == Step(w, Threw(Readlink(w.fs, item.path).error))
    ensures s.outcome.Completed? ==> Readlink(w.fs, item.path).Ok?
    ensures s.outcome.Completed? && Norm(c, Readlink(w.fs, item.path).value) != TargetOf(c, item) ==>
      s.world.stats.copied.links == w.stats.copied.links + 1
    ensures Progressed(w.stats, s.world.stats)
  {
    match Readlink(w.fs, item.path)
    case Fail(e) => Step(w, Threw(e))
    case Ok(resolvedPath) => CheckLink(c, w, resolvedPath, TargetOf(c, item))
  }

  /** The dispatch in `startCopy`: directories, then files and devices,
   *  then links; any other kind is passed over. */
  function Handle(c: Config, w: World, item: Entry): (s: Step)
    ensures Progressed(w.stats, s.world.stats)
    ensures !IsByteCopied(item) && item.stat.kind != Directory && item.stat.kind != SymbolicLink ==> s == Step(w, Completed)
  {
    if item.stat.kind == Directory then MakeDir(c, w, item)
    else if IsByteCopied(item) then OnFile(c, w, item)
    else if item.stat.kind == SymbolicLink then OnLink(c, w, item)
    else Step(w, Completed)
  }

  /** `startCopy`: the entries handled in order until one throws. */
  function Run(c: Config, w: World, items: seq<Entry>): (s: Step)
    ensures Progressed(w.stats, s.world.stats)
    ensures s.world.stats.skipped == w.stats.skipped
    decreases |items|
  {
    if items == [] then Step(w, Completed)
    else
      var s1 := Handle(c, w, items[0]);
      if s1.outcome.Threw? then s1 else Run(c, s1.world, items[1..])
  }

  /** `loadStatistics`: the entry count and the size to copy. */
  function Loaded(s: Statistics, items: seq<Entry>): Statistics {
    s.(items := |items|, size := s.size + FileSizeSum(items))
  }

  /** `loadItems`, given what the enumeration produced (or threw). */
  function LoadItems(c: Config, w: World, found: Result<seq<Entry>>): (s: Step)
  {
    match found
    case Fail(e) => Step(w, Threw(e))
    case Ok(items) =>
      if items == [] then Step(w, Completed)
      else Run(c, World(w.fs, Loaded(w.stats, items)), items)
  }

  /** `start`: the two path guards, the stat of the source, the creation
   *  of the destination's parent, then the copy. Only the first guard
   *  returns the statistics; every other path returns nothing or throws. */
  function Start(c: Config, w: World, found: Result<seq<Entry>>): (r: (StartResult, World))
    ensures r.0.ReturnedStatistics? ==> c.src == c.dst && r == (ReturnedStatistics(w.stats), w)
  {
    if c.src == c.dst then (ReturnedStatistics(w.stats), w)
    else if IntoItself(c.src, c.dst) then (StartThrew(Error(ESELF, c.dst)), w)
    else match StatBy(w.fs, c.options.dereference, c.src)
      case Fail(e) => (StartThrew(e), w)
      case Ok(_) =>
        match Mkdirp(w.fs, Dirname(c.dst), DefaultDirMode)
        case Fail(e) => (StartThrew(e), w)
        case Ok(fs1) =>
          var s := LoadItems(c, World(fs1, w.stats), found);
          (if s.outcome.Threw? then StartThrew(s.outcome.error) else ReturnedNothing, s.world)
  }

  // ----- Properties -----

  /** Entries are handled in order: running `a + b` is running `a`, then,
   *  unless it threw, running `b` from where `a` left off. */
  lemma {:induction false} RunAppend(c: Config, w: World, a: seq<Entry>, b: seq<Entry>)
    ensures Run(c, w, a + b) ==
      (var s := Run(c, w, a); if s.outcome.Threw? then s else Run(c, s.world, b))
    decreases |a|
  {
    if a == [] {
      assert a + b == b;
    } else {
      assert (a + b)[0] == a[0];
      assert (a + b)[1..] == a[1..] + b;
      var s1 := Handle(c, w, a[0]);
      if !s1.outcome.Threw? {
        RunAppend(c, s1.world, a[1..], b);
      }
    }
  }

  /** A guard hit leaves the filesystem and statistics as they were: the
   *  same paths give the statistics back, a destination inside the source
   *  is refused with ESELF whatever the filesystem holds. */
  lemma StartGuards(c: Config, w: World, found: Result<seq<Entry>>)
    ensures c.src == c.dst ==> Start(c, w, found) == (ReturnedStatistics(w.stats), w)
    ensures c.src != c.dst && (StartsWith(c.dst, c.src + [Sep])) ==>
      Start(c, w, found) == (StartThrew(Error(ESELF, c.dst)), w)
  {
    IntoItselfIff(c.src, c.dst);
  }

  /** A destination that only shares a name prefix with the source, such
   *  as `src_out`, passes the guards and is statted like any other. */
  lemma SiblingProceeds(c: Config, w: World, found: Result<seq<Entry>>, suffix: string)
    requires c.dst == c.src + suffix && suffix != [] && suffix[0] != Sep
    requires StatBy(w.fs, c.options.dereference, c.src).Fail?
    ensures Start(c, w, found) == (StartThrew(StatBy(w.fs, c.options.dereference, c.src).error), w)
  {
    SiblingNotRefused(c.src, suffix);
  }

  /** When `copyFile` completes, opening the target for reading gives the
   *  bytes the source yielded beforehand, unless the target led to the
   *  source file itself, which is then empty. The new file has the source
   *  mode, and the source times when they are preserved. */
  lemma CopyFileContent(c: Config, w: World, item: Entry, target: Path)
    requires CopyFile(c, w, item, target).outcome.Completed?
    ensures OpenRead(w.fs, item.path).Ok? && Resolve(w.fs, target, MaxSymlinks).Ok?
    ensures
      var (rq, data) := OpenRead(w.fs, item.path).value;
      var q := Resolve(w.fs, target, MaxSymlinks).value;
      var after := CopyFile(c, w, item, target).world.fs;
      && OpenRead(after, target) == Ok((q, if rq == q then [] else data))
      && (q !in w.fs.nodes ==> after.nodes[q].mode == item.stat.mode)
      && (c.options.preserveTimestamps ==> after.nodes[q].times == Stamped(item.stat.atime, item.stat.mtime))
  {
    var (rq, data) := OpenRead(w.fs, item.path).value;
    var (q, fs1) := OpenWrite(w.fs, target, item.stat.mode).value;
    var fs2 := Fill(fs1, q, ReadableAt(fs1, rq));
    var fs3 := if c.options.preserveTimestamps then Stamp(fs2, q, item.stat.atime, item.stat.mtime) else fs2;
    assert fs3 == CopyFile(c, w, item, target).world.fs;
    assert fs3.nodes == w.fs.nodes[q := fs3.nodes[q]];
    ResolveStable(w.fs, fs3, target, MaxSymlinks);
    if rq != q {
      assert fs1.nodes[rq] == w.fs.nodes[rq];
    }
  }

  /** After `checkLink` completes, the target is the link it was meant to
   *  be, or something `readlink` calls no link (EINVAL) left untouched, or
   *  the target the link pointed at
   *  was the target path itself. An existing link with another text is
   *  replaced whether or not `overwrite` is set. */
  lemma CheckLinkOutcome(c: Config, w: World, resolvedPath: Path, target: Path)
    requires |c.basePath| > 0 && c.basePath[0] == Sep
    requires CheckLink(c, w, resolvedPath, target).outcome.Completed?
    ensures
      var r := Norm(c, resolvedPath);
      var after := CheckLink(c, w, resolvedPath, target).world.fs;
      || r == target
      || (after == w.fs && Readlink(after, target).Fail? && Readlink(after, target).error.code == EINVAL)
      || (Readlink(after, target).Ok? && Norm(c, Readlink(after, target).value) == r)
  {
    var r := Norm(c, resolvedPath);
    if c.options.dereference {
      AbsoluteIdempotent(c.basePath, resolvedPath);
    }
    assert Norm(c, r) == r;
    if r == target {
    } else if IsWritable(c, w.fs, target) {
      assert CheckLink(c, w, resolvedPath, target) == MakeLink(w, r, target);
      assert Readlink(MakeLink(w, r, target).world.fs, target) == Ok(r);
    } else if Readlink(w.fs, target).Fail? {
      assert Readlink(w.fs, target).error.code == EINVAL;
      assert CheckLink(c, w, resolvedPath, target).world.fs == w.fs;
    } else if Norm(c, Readlink(w.fs, target).value) != r {
      var w1 := RmFile(w, target).world;
      assert Readlink(MakeLink(w1, r, target).world.fs, target) == Ok(r);
    }
  }

  /** `onLink` completes only on a source link it could read, and leaves at
   *  the target what `checkLink` promises for that link's text. */
  lemma OnLinkOutcome(c: Config, w: World, item: Entry)
    requires |c.basePath| > 0 && c.basePath[0] == Sep
    requires OnLink(c, w, item).outcome.Completed?
    ensures Readlink(w.fs, item.path).Ok?
    ensures
      var r := Norm(c, Readlink(w.fs, item.path).value);
      var t := TargetOf(c, item);
      var after := OnLink(c, w, item).world.fs;
      || r == t
      || (after == w.fs && Readlink(after, t).Fail? && Readlink(after, t).error.code == EINVAL)
      || (Readlink(after, t).Ok? && Norm(c, Readlink(after, t).value) == r)
  {
    CheckLinkOutcome(c, w, Readlink(w.fs, item.path).value, TargetOf(c, item));
  }

  /** When `onFile` copies (the file count moves), the target reads back
   *  the bytes the source yielded: on the tree as it was for a free
   *  target, or with the old target removed for a replaced one. */
  lemma OnFileContent(c: Config, w: World, item: Entry)
    requires OnFile(c, w, item).outcome.Completed?
    requires OnFile(c, w, item).world.stats.copied.files != w.stats.copied.files
    ensures
      var t := TargetOf(c, item);
      var fs0 := if IsWritable(c, w.fs, t) then w.fs else w.fs.(nodes := w.fs.nodes - {t});
      && (!IsWritable(c, w.fs, t) ==> c.options.overwrite && item.path != t && Unlink(w.fs, t).Ok?)
      && OpenRead(fs0, item.path).Ok? && Resolve(fs0, t, MaxSymlinks).Ok?
      && var (rq, data) := OpenRead(fs0, item.path).value;
         var q := Resolve(fs0, t, MaxSymlinks).value;
         OpenRead(OnFile(c, w, item).world.fs, t) == Ok((q, if rq == q then [] else data))
  {
    var t := TargetOf(c, item);
    if IsWritable(c, w.fs, t) {
      CopyFileContent(c, w, item, t);
    } else {
      var r := RmFile(w, t);
      CopyFileContent(c, r.world, item, t);
    }
  }

  lemma AbsoluteIdempotent(base: Path, p: Path)
    requires |base| > 0 && base[0] == Sep
    ensures Absolute(base, Absolute(base, p)) == Absolute(base, p)
  {
    if !(|p| > 0 && p[0] == Sep) {
      assert (base + [Sep] + p)[0] == base[0];
    }
  }

  // ----- A copy onto a fresh destination -----

  /** Entries whose handling writes a node at their target. */
  predicate Copyable(item: Entry) {
    item.stat.kind == Directory || IsByteCopied(item) || item.stat.kind == SymbolicLink
  }

  /** Text of the link at `p`, if there is one. */
  function LinkText(fs: Fs, p: Path): Path {
    if IsLinkAt(fs, p) then fs.nodes[p].target else []
  }

  /** The node a copy places at an entry's target. */
  function Replica(c: Config, fs: Fs, item: Entry): Node {
    if item.stat.kind == Directory then Dir(item.stat.mode)
    else if item.stat.kind == SymbolicLink then Link(LinkText(fs, item.path))
    else File(ReadableAt(fs, item.path), item.stat.mode,
      if c.options.preserveTimestamps then Stamped(item.stat.atime, item.stat.mtime) else ClockTimes)
  }

  /** The statistics after one entry has been copied. */
  function Counted(s: Statistics, item: Entry): Statistics {
    if item.stat.kind == Directory then WithDirectory(s)
    else if IsByteCopied(item) then WithFile(s, item.stat.size)
    else if item.stat.kind == SymbolicLink then WithLink(s)
    else s
  }

  /** An entry whose target is free and whose source can be read as its
   *  kind says. */
  predicate Ready(c: Config, fs: Fs, item: Entry) {
    var t := TargetOf(c, item);
    && t !in fs.nodes && t !in fs.faults && item.path !in fs.faults
    && (IsByteCopied(item) ==> item.path in fs.nodes && (fs.nodes[item.path].File? || fs.nodes[item.path].Device?))
    && (item.stat.kind == SymbolicLink ==> IsLinkAt(fs, item.path) && fs.nodes[item.path].target != t)
  }

  /** A copy without dereferencing, onto free and pairwise distinct
   *  targets none of which is a source path. */
  predicate Clean(c: Config, fs: Fs, items: seq<Entry>) {
    && !c.options.dereference
    && (forall i :: 0 <= i < |items| ==> Ready(c, fs, items[i]))
    && (forall i, j :: 0 <= i < j < |items| ==> TargetOf(c, items[i]) != TargetOf(c, items[j]))
    && (forall i, j :: 0 <= i < |items| && 0 <= j < |items| ==> TargetOf(c, items[i]) != items[j].path)
  }

  /** One ready entry completes, writes its replica at its target and
   *  nothing else, and is counted once. */
  lemma HandleReady(c: Config, w: World, item: Entry)
    requires !c.options.dereference && Ready(c, w.fs, item)
    ensures var s := Handle(c, w, item); var t := TargetOf(c, item);
      && s.outcome.Completed?
      && s.world.stats == Counted(w.stats, item)
      && s.world.fs.faults == w.fs.faults
      && (Copyable(item) ==> s.world.fs.nodes == w.fs.nodes[t := Replica(c, w.fs, item)])
      && (!Copyable(item) ==> s.world.fs == w.fs)
  {
    var t := TargetOf(c, item);
    if item.stat.kind == Directory {
      var fs1 := w.fs.(nodes := w.fs.nodes[t := Dir(item.stat.mode)]);
      assert Mkdirp(w.fs, t, item.stat.mode) == Ok(fs1);
      assert Resolve(fs1, t, MaxSymlinks) == Ok(t);
    } else if IsByteCopied(item) {
      assert IsWritable(c, w.fs, t);
      assert Resolve(w.fs, item.path, MaxSymlinks) == Ok(item.path);
      assert Resolve(w.fs, t, MaxSymlinks) == Ok(t);
      var fs1 := w.fs.(nodes := w.fs.nodes[t := File([], item.stat.mode, ClockTimes)]);
      assert OpenWrite(w.fs, t, item.stat.mode) == Ok((t, fs1));
      assert ReadableAt(fs1, item.path) == ReadableAt(w.fs, item.path);
    } else if item.stat.kind == SymbolicLink {
      assert IsWritable(c, w.fs, t);
    }
  }

  /** Once the first entry is copied, the rest of a clean copy is still
   *  clean and their replicas are the same as before. */
  lemma CleanAfterFirst(c: Config, w: World, items: seq<Entry>)
    requires Clean(c, w.fs, items) && items != []
    ensures var w1 := Handle(c, w, items[0]).world;
      && Clean(c, w1.fs, items[1..])
      && forall j :: 1 <= j < |items| ==> Replica(c, w1.fs, items[j]) == Replica(c, w.fs, items[j])
  {
    assert Ready(c, w.fs, items[0]);
    HandleReady(c, w, items[0]);
    var w1 := Handle(c, w, items[0]).world;
    var rest := items[1..];
    forall j | 1 <= j < |items|
      ensures Ready(c, w1.fs, items[j]) && Replica(c, w1.fs, items[j]) == Replica(c, w.fs, items[j])
    {
      assert Ready(c, w.fs, items[j]);
      assert TargetOf(c, items[0]) != TargetOf(c, items[j]);
      assert TargetOf(c, items[0]) != items[j].path;
    }
    forall j | 0 <= j < |rest|
      ensures Ready(c, w1.fs, rest[j])
    {
      assert rest[j] == items[j + 1];
    }
    forall i, j | 0 <= i < j < |rest|
      ensures TargetOf(c, rest[i]) != TargetOf(c, rest[j])
    {
      assert rest[i] == items[i + 1] && rest[j] == items[j + 1];
    }
    forall i, j | 0 <= i < |rest| && 0 <= j < |rest|
      ensures TargetOf(c, rest[i]) != rest[j].path
    {
      assert rest[i] == items[i + 1] && rest[j] == items[j + 1];
    }
  }

  /** Copying onto a fresh destination completes, reproduces every entry
   *  at its target and leaves every node that was there before
   *  untouched. */
  lemma {:induction false} CleanRunCopiesTree(c: Config, w: World, items: seq<Entry>)
    requires Clean(c, w.fs, items)
    ensures var s := Run(c, w, items);
      && s.outcome.Completed?
      && s.world.fs.faults == w.fs.faults
      && (forall p :: p in w.fs.nodes ==> p in s.world.fs.nodes && s.world.fs.nodes[p] == w.fs.nodes[p])
      && (forall i :: 0 <= i < |items| && Copyable(items[i]) ==>
            TargetOf(c, items[i]) in s.world.fs.nodes
            && s.world.fs.nodes[TargetOf(c, items[i])] == Replica(c, w.fs, items[i]))
    decreases |items|
  {
    if items != [] {
      var item := items[0];
      assert Ready(c, w.fs, item);
      HandleReady(c, w, item);
      CleanAfterFirst(c, w, items);
      var w1 := Handle(c, w, item).world;
      var rest := items[1..];
      CleanRunCopiesTree(c, w1, rest);
      var s := Run(c, w1, rest);
      assert Run(c, w, items) == s;
      forall i | 0 <= i < |items| && Copyable(items[i])
        ensures TargetOf(c, items[i]) in s.world.fs.nodes
          && s.world.fs.nodes[TargetOf(c, items[i])] == Replica(c, w.fs, items[i])
      {
        if i > 0 {
          assert items[i] == rest[i - 1];
        }
      }
    }
  }

  /** Copying onto a fresh destination counts files, directories, links
   *  and copied bytes exactly, and overwrites nothing. */
  lemma {:induction false} CleanRunCounts(c: Config, w: World, items: seq<Entry>)
    requires Clean(c, w.fs, items)
    ensures var s := Run(c, w, items);
      && s.outcome.Completed?
      && s.world.stats.copied.files == w.stats.copied.files + CountByteCopied(items)
      && s.world.stats.copied.directories == w.stats.copied.directories + CountKind(items, Directory)
      && s.world.stats.copied.links == w.stats.copied.links + CountKind(items, SymbolicLink)
      && s.world.stats.copied.size == w.stats.copied.size + CopiedSize(items)
      && s.world.stats.overwrited == w.stats.overwrited
    decreases |items|
  {
    if items != [] {
      var item := items[0];
      assert Ready(c, w.fs, item);
      HandleReady(c, w, item);
      CleanAfterFirst(c, w, items);
      CleanRunCounts(c, Handle(c, w, item).world, items[1..]);
    }
  }
}
