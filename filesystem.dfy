module Wrappers {
  datatype Option<+T> = None | Some(value: T)
}

/** The filesystem both engines act on: a flat map from resolved path to
 *  node, plus a fixed set of paths on which every primitive fails with a
 *  given error code (a permission problem, an I/O error). Each primitive
 *  below follows the POSIX call that Node's `fs` module wraps. */
module FileSystem {
  import opened Paths

  newtype byte = b: int | 0 <= b < 256

  /** Permission bits, carried through opaquely. */
  type Mode = nat

  datatype Code = ENOENT | EINVAL | EEXIST | EISDIR | ENOTDIR | ELOOP | EACCES | EPERM | EIO | ESELF

  /** A Node error: its `code` and the path it concerns. */
  datatype Error = Error(code: Code, path: Path)

  datatype Result<+T> = Ok(value: T) | Fail(error: Error)

  /** Access and modification times of a file: those the clock gave it when
   *  it was created or last truncated, or those set explicitly. */
  datatype Times = ClockTimes | Stamped(atime: int, mtime: int)

  datatype DeviceKind = Block | Character

  datatype Node =
    | File(data: seq<byte>, mode: Mode, times: Times)
    | Dir(mode: Mode)
    | Link(target: Path)
    | Device(kind: DeviceKind, content: seq<byte>, mode: Mode)

  datatype Fs = Fs(nodes: map<Path, Node>, faults: map<Path, Code>)

  /** Linux's limit on symbolic links followed during one lookup. */
  const MaxSymlinks: nat := 40

  /** Mode of a directory created without an explicit mode (0o777). */
  const DefaultDirMode: Mode := 511

  predicate IsLinkAt(fs: Fs, p: Path) {
    p in fs.nodes && fs.nodes[p].Link?
  }

  /** Follows symbolic links from `p`, at most `hops` of them, to the path
   *  that a following call (stat, open, chmod) acts on. */
  function Resolve(fs: Fs, p: Path, hops: nat): (r: Result<Path>)
    ensures r.Ok? ==> r.value !in fs.faults && !IsLinkAt(fs, r.value)
    ensures p !in fs.faults && !IsLinkAt(fs, p) ==> r == Ok(p)
    decreases hops
  {
    if p in fs.faults then Fail(Error(fs.faults[p], p))
    else if IsLinkAt(fs, p) then
      if hops == 0 then Fail(Error(ELOOP, p)) else Resolve(fs, fs.nodes[p].target, hops - 1)
    else Ok(p)
  }

  /** Resolution only looks at links and faults: replacing a non-link node
   *  by another non-link node, or adding one where nothing was, changes
   *  no resolution. */
  lemma {:induction false} ResolveStable(fs: Fs, fs': Fs, p: Path, hops: nat)
    requires fs'.faults == fs.faults
    requires forall x :: IsLinkAt(fs', x) ==> IsLinkAt(fs, x)
    requires forall x :: IsLinkAt(fs, x) ==> IsLinkAt(fs', x) && fs'.nodes[x] == fs.nodes[x]
    ensures Resolve(fs', p, hops) == Resolve(fs, p, hops)
    decreases hops
  {
    if p !in fs.faults && IsLinkAt(fs, p) && hops > 0 {
      ResolveStable(fs, fs', fs.nodes[p].target, hops - 1);
    }
  }

  /** `lstat`: the node itself, links not followed. */
  function Lstat(fs: Fs, p: Path): (r: Result<Node>)
    ensures r.Ok? <==> p in fs.nodes && p !in fs.faults
    ensures r.Ok? ==> r.value == fs.nodes[p]
    ensures r.Fail? && p !in fs.faults ==> r.error.code == ENOENT
  {
    if p in fs.faults then Fail(Error(fs.faults[p], p))
    else if p in fs.nodes then Ok(fs.nodes[p])
    else Fail(Error(ENOENT, p))
  }

  /** `stat`: the node reached by following links. */
  function Stat(fs: Fs, p: Path): (r: Result<Node>)
    ensures r.Ok? ==> !r.value.Link?
    ensures p !in fs.faults && !IsLinkAt(fs, p) ==> r == Lstat(fs, p)
  {
    match Resolve(fs, p, MaxSymlinks)
    case Fail(e) => Fail(e)
    case Ok(q) => if q in fs.nodes then Ok(fs.nodes[q]) else Fail(Error(ENOENT, p))
  }

  /** The engines' `this.stat`: `stat` when dereferencing, `lstat` otherwise. */
  function StatBy(fs: Fs, dereference: bool, p: Path): Result<Node> {
    if dereference then Stat(fs, p) else Lstat(fs, p)
  }

  /** `readlink`: the text of a link; EINVAL on anything that is not one. */
  function Readlink(fs: Fs, p: Path): (r: Result<Path>)
    ensures r.Ok? <==> p !in fs.faults && IsLinkAt(fs, p)
    ensures r.Ok? ==> r.value == fs.nodes[p].target
    ensures p !in fs.faults && p in fs.nodes && !fs.nodes[p].Link? ==> r == Fail(Error(EINVAL, p))
  {
    if p in fs.faults then Fail(Error(fs.faults[p], p))
    else if p !in fs.nodes then Fail(Error(ENOENT, p))
    else if fs.nodes[p].Link? then Ok(fs.nodes[p].target)
    else Fail(Error(EINVAL, p))
  }

  /** `unlink`: removes any node but a directory. */
  function Unlink(fs: Fs, p: Path): (r: Result<Fs>)
    ensures r.Ok? <==> p !in fs.faults && p in fs.nodes && !fs.nodes[p].Dir?
    ensures r.Ok? ==> r.value == fs.(nodes := fs.nodes - {p})
  {
    if p in fs.faults then Fail(Error(fs.faults[p], p))
    else if p !in fs.nodes then Fail(Error(ENOENT, p))
    else if fs.nodes[p].Dir? then Fail(Error(EISDIR, p))
    else Ok(fs.(nodes := fs.nodes - {p}))
  }

  /** `symlink(target, p)`: creates a link; EEXIST when `p` is taken. */
  function Symlink(fs: Fs, target: Path, p: Path): (r: Result<Fs>)
    ensures r.Ok? <==> p !in fs.faults && p !in fs.nodes
    ensures r.Ok? ==> r.value == fs.(nodes := fs.nodes[p := Link(target)])
  {
    if p in fs.faults then Fail(Error(fs.faults[p], p))
    else if p in fs.nodes then Fail(Error(EEXIST, p))
    else Ok(fs.(nodes := fs.nodes[p := Link(target)]))
  }

  /** The recursive-mkdir collaborator: succeeds with nothing to do when `p`
   *  already leads to a directory, creates it when nothing is there, and
   *  fails with EEXIST when something else is. */
  function Mkdirp(fs: Fs, p: Path, mode: Mode): (r: Result<Fs>)
    ensures r.Ok? ==> Stat(r.value, p).Ok? && Stat(r.value, p).value.Dir?
    ensures r.Ok? && p in fs.nodes ==> r.value == fs
    ensures r.Ok? && p !in fs.nodes ==> r.value == fs.(nodes := fs.nodes[p := Dir(mode)])
  {
    if p in fs.faults then Fail(Error(fs.faults[p], p))
    else if p in fs.nodes then
      (if Stat(fs, p).Ok? && Stat(fs, p).value.Dir? then Ok(fs) else Fail(Error(EEXIST, p)))
    else Ok(fs.(nodes := fs.nodes[p := Dir(mode)]))
  }

  /** The node with its permission bits replaced (links have none). */
  function WithMode(n: Node, mode: Mode): (r: Node)
    ensures n.Link? ==> r == n
    ensures n.File? ==> r.File? && r.mode == mode && r.data == n.data && r.times == n.times
    ensures n.Dir? ==> r == Dir(mode)
    ensures n.Device? ==> r.Device? && r.mode == mode && r.kind == n.kind && r.content == n.content
  {
    match n
    case File(data, _, times) => File(data, mode, times)
    case Dir(_) => Dir(mode)
    case Link(t) => Link(t)
    case Device(kind, content, _) => Device(kind, content, mode)
  }

  /** `chmod`: follows links and sets the mode of what it reaches. */
  function Chmod(fs: Fs, p: Path, mode: Mode): (r: Result<Fs>)
    ensures r.Ok? <==> Stat(fs, p).Ok?
    ensures r.Ok? ==> Stat(r.value, p) == Ok(WithMode(Stat(fs, p).value, mode))
    ensures r.Ok? ==> r.value.faults == fs.faults
    ensures r.Ok? ==> var q := Resolve(fs, p, MaxSymlinks).value;
      q in fs.nodes && r.value.nodes == fs.nodes[q := WithMode(fs.nodes[q], mode)]
  {
    match Resolve(fs, p, MaxSymlinks)
    case Fail(e) => Fail(e)
    case Ok(q) =>
      if q !in fs.nodes then Fail(Error(ENOENT, p))
      else
        var fs' := fs.(nodes := fs.nodes[q := WithMode(fs.nodes[q], mode)]);
        ResolveStable(fs, fs', p, MaxSymlinks);
        Ok(fs')
  }

  /** Open for reading and read to the end: the resolved path and the bytes
   *  a reader sees (a device yields whatever it produces). */
  function OpenRead(fs: Fs, p: Path): (r: Result<(Path, seq<byte>)>)
    ensures r.Ok? ==> Stat(fs, p).Ok? && Resolve(fs, p, MaxSymlinks) == Ok(r.value.0)
    ensures r.Ok? ==> r.value.1 == Readable(Stat(fs, p).value)
  {
    match Resolve(fs, p, MaxSymlinks)
    case Fail(e) => Fail(e)
    case Ok(q) =>
      if q !in fs.nodes then Fail(Error(ENOENT, p))
      else match fs.nodes[q]
        case File(data, _, _) => Ok((q, data))
        case Device(_, content, _) => Ok((q, content))
        case Dir(_) => Fail(Error(EISDIR, p))
        case Link(_) => Fail(Error(ELOOP, p))
  }

  /** Bytes read from a node until end of file. */
  function Readable(n: Node): seq<byte> {
    match n
    case File(data, _, _) => data
    case Device(_, content, _) => content
    case _ => []
  }

  /** Open for writing with flag "w": follows links, creates a missing file
   *  with `mode`, truncates an existing one (keeping its mode). Returns the
   *  path the descriptor refers to. Opening a device for writing is not
   *  modelled and fails with EPERM. */
  function OpenWrite(fs: Fs, p: Path, mode: Mode): (r: Result<(Path, Fs)>)
    ensures r.Ok? ==> var (q, fs') := r.value;
      && Resolve(fs, p, MaxSymlinks) == Ok(q)
      && fs'.faults == fs.faults
      && q in fs'.nodes && fs'.nodes[q].File? && fs'.nodes[q].data == []
      && fs'.nodes == fs.nodes[q := fs'.nodes[q]]
      && (q !in fs.nodes ==> fs'.nodes[q] == File([], mode, ClockTimes))
      && (q in fs.nodes ==> fs.nodes[q].File? && fs'.nodes[q].mode == fs.nodes[q].mode)
  {
    match Resolve(fs, p, MaxSymlinks)
    case Fail(e) => Fail(e)
    case Ok(q) =>
      if q !in fs.nodes then Ok((q, fs.(nodes := fs.nodes[q := File([], mode, ClockTimes)])))
      else match fs.nodes[q]
        case File(_, m, _) => Ok((q, fs.(nodes := fs.nodes[q := File([], m, ClockTimes)])))
        case Dir(_) => Fail(Error(EISDIR, p))
        case Device(_, _, _) => Fail(Error(EPERM, p))
        case Link(_) => Fail(Error(ELOOP, p))
  }

  /** The file at `q` with its content replaced by `data`. */
  function Fill(fs: Fs, q: Path, data: seq<byte>): (r: Fs)
    ensures r.faults == fs.faults
  {
    if q in fs.nodes && fs.nodes[q].File? then
      fs.(nodes := fs.nodes[q := fs.nodes[q].(data := data)])
    else fs
  }

  /** `write` on a descriptor for the file at `q`: appends `chunk`. */
  function Append(fs: Fs, q: Path, chunk: seq<byte>): (r: Fs)
    ensures q in fs.nodes && fs.nodes[q].File? ==> r == Fill(fs, q, fs.nodes[q].data + chunk)
  {
    if q in fs.nodes && fs.nodes[q].File? then
      fs.(nodes := fs.nodes[q := fs.nodes[q].(data := fs.nodes[q].data + chunk)])
    else fs
  }

  /** `futimes` on a descriptor for the file at `q`. */
  function Stamp(fs: Fs, q: Path, atime: int, mtime: int): (r: Fs)
    ensures r.faults == fs.faults && r.nodes.Keys == fs.nodes.Keys
  {
    if q in fs.nodes && fs.nodes[q].File? then
      fs.(nodes := fs.nodes[q := fs.nodes[q].(times := Stamped(atime, mtime))])
    else fs
  }

  /** Open with flag "r+" and set the times of what `p` leads to (the body
   *  of `utimesMillis`); the times of devices are not tracked. */
  function SetTimes(fs: Fs, p: Path, atime: int, mtime: int): (r: Result<Fs>)
    ensures r.Ok? <==> Stat(fs, p).Ok? && !Stat(fs, p).value.Dir?
    ensures r.Ok? ==> Resolve(fs, p, MaxSymlinks).Ok? && r.value == Stamp(fs, Resolve(fs, p, MaxSymlinks).value, atime, mtime)
  {
    match Resolve(fs, p, MaxSymlinks)
    case Fail(e) => Fail(e)
    case Ok(q) =>
      if q !in fs.nodes then Fail(Error(ENOENT, p))
      else if fs.nodes[q].Dir? then Fail(Error(EISDIR, p))
      else Ok(Stamp(fs, q, atime, mtime))
  }
}
