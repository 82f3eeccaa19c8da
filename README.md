# enfscopy copy engines in Dafny

This project models the core of `enfscopy`, a Node.js library that copies a
file, a directory tree or a symbolic link from a source path to a
destination path. The library has a synchronous engine and an
asynchronous one. Both are a `CopyFiles` object that:

- refuses to copy a directory into itself;
- creates the destination's parent;
- takes the list of entries that the enumeration library finds under the
  source;
- counts the entries and the bytes to copy;
- copies each entry by kind.

For each kind:

- **Directories** are created with the source mode, then given that mode
  with `chmod`.
- **Regular files and devices** are copied byte for byte. A target that
  already exists is replaced only with the `overwrite` option, and only
  when its path differs from the source path. Otherwise it is left alone.
- **Symbolic links** are recreated with the same text. An existing link
  with another text is replaced whatever `overwrite` says.

Each engine keeps a `statistics` record: entries, bytes to copy, files,
directories, links and bytes copied, overwrites and errors. An error
either stops the copy (`stopOnError`, the default) or is collected. The
asynchronous engine also keeps three counters: `started`, `running` and
`finished`. Its `copyItem` defers an entry while `running` has reached
`limit`. Its `done` calls the user's callback once the counters say
nothing is left. `timeRemoveMillis` cuts a timestamp down to whole
seconds.

The modules:

- **Paths**: the self-copy guard, and the destination of an entry. The
  destination is JavaScript's `String.prototype.replace` with a string
  pattern, `$` patterns included. The module also has `dirname` and
  `resolve`.
- **FileSystem**: the filesystem as a map from resolved path to node
  (file, directory, link, device), plus a fixed map of paths on which
  every call fails with a given code. It holds the POSIX calls the
  engines make.
- **Entries**, **Stats**: the listed entries and the statistics record.
- **Options**: the normalisation of the options argument in `copy`.
- **Utimes**: `timeRemoveMillis`.
- **SyncSpec**: each operation of the synchronous engine as a function
  from the filesystem and statistics before to those after, with the
  properties of a whole copy.
- **SyncEngine**: the class `CopyFiles`. Its methods update the
  filesystem and the statistics in place, and each is proved to compute
  its SyncSpec function. The chunked `readSync`/`writeSync` loop of
  `copyFile` is a `while` loop proved to leave the target holding the
  source's bytes.
- **Scheduler**: the counters of the asynchronous engine, and a model of
  entries flowing through `copyItem` and `done`.
- **AsyncSpec**: each callback continuation of the asynchronous engine
  as a function from state to state. It also names the call the entry
  waits for next. The module defines the "books", a ghost account of
  every `copyItem` call and entry in flight, with lemmas that the
  counters always agree with it.
- **AsyncEngine**: the class `AsyncCopy`. Its fields are the source's
  fields, plus the ghost books. Every callback is one method, run when
  the environment delivers it, and is proved to compute its AsyncSpec
  function and to keep the counters consistent with the books.

Both engines follow the code as written, including the behaviours listed
under Findings. The corrected definitions for those behaviours sit beside
them, with the intended property proved.

The library's documentation and the code disagree in a few places. In
each case the model follows the code:

- `makeDir` and `onDir` count a directory before its `chmod` succeeds.
- The synchronous `copy()` returns nothing.
- The synchronous `onError` is defined but never called. A thrown
  exception ends the copy.

## Model

| member | source | states |
|---|---|---|
| Paths.IndexFrom | lib/copySync.js:112 | `indexOf` returns the first index at or after `from` where the pattern occurs, or -1 exactly when it occurs nowhere after `from` |
| Paths.IndexOfZero | lib/copySync.js:112 | `indexOf(...) === 0` holds exactly when the string starts with the pattern |
| Paths.IntoItselfIff | lib/copySync.js:112-116 | the self-copy guard refuses exactly a destination equal to the source or below it at a separator boundary |
| Paths.SiblingNotRefused | lib/copyAsync.js:133-137 | a sibling that only extends the source name (`src_out`) is not refused |
| Paths.DescendantRefused | lib/copyAsync.js:133-137 | every path below the source, at any depth, is refused |
| Paths.ReplaceFirst | lib/copySync.js:168 | `replace` changes nothing when the pattern is absent and keeps the text before the first occurrence |
| Paths.ReplaceFirstLiteral | lib/copySync.js:189 | the literal first-occurrence replace changes nothing without a match and otherwise is as long as the string less the pattern plus the replacement |
| Paths.ReplaceAgrees | lib/copyAsync.js:251 | without a `$` in the destination root, `replace` is the literal replace |
| Paths.TargetUnderSource | lib/copySync.js:229 | an entry under the source maps to the destination root followed by its path relative to the source, when the root has no `$` |
| Paths.LiteralUnderSource | lib/copyAsync.js:325 | the literal replace maps an entry under the source to the destination root followed by its relative path, for every root |
| Paths.DollarPatternInDestination | lib/copyAsync.js:233 | `/s/f` copied from `/s` to `/d$&` lands on `/d/s/f`, where the literal replace gives `/d$&/f` |
| Paths.Dirname | lib/copySync.js:119 | `dirname` is `.` without a separator, `/` when the only separator leads the path, and otherwise the prefix before the last separator |
| Paths.Absolute | lib/copySync.js:63-64 | `resolve(base, p)` keeps an absolute `p` and otherwise is `base`, a separator, then `p` |
| FileSystem.Resolve | lib/copySync.js:65 | following links ends on a path that is neither a link nor faulty, and a plain path resolves to itself |
| FileSystem.ResolveStable | lib/copySync.js:209 | writing a non-link node changes no resolution |
| FileSystem.Lstat | lib/copySync.js:65 | `lstat` succeeds exactly on a present path without a fault, returns its node, and fails with ENOENT on an absent one |
| FileSystem.Stat | lib/copySync.js:65 | `stat` never returns a link and agrees with `lstat` on a plain path |
| FileSystem.Readlink | lib/copySync.js:230 | `readlink` succeeds exactly on a link and gives its text; any other node gives EINVAL |
| FileSystem.Unlink | lib/copySync.js:202 | `unlink` succeeds exactly on a present non-directory and removes only that path |
| FileSystem.Symlink | lib/copySync.js:269 | `symlink` succeeds exactly on a free path and adds only that link |
| FileSystem.Mkdirp | lib/copySync.js:169 | after the recursive mkdir the path leads to a directory; an existing one is kept, a missing one is created with the mode |
| FileSystem.WithMode | lib/copySync.js:171 | setting a mode changes only the mode of a file, directory or device, keeping its data, times, kind and content; a link is left as it is |
| FileSystem.Chmod | lib/copySync.js:171 | `chmod` succeeds exactly when `stat` does; it then replaces the node the path resolves to with that node under the new mode, and changes nothing else |
| FileSystem.OpenRead | lib/copySync.js:208 | opening for reading succeeds only on something `stat` finds, and yields the bytes it holds |
| FileSystem.OpenWrite | lib/copySync.js:209 | flag `w` resolves the path, creates a missing file with the mode or truncates an existing file keeping its mode, and touches no other node |
| FileSystem.Fill | lib/copySync.js:214 | replacing a file's content leaves the faults alone |
| FileSystem.Append | lib/copySync.js:214 | `writeSync` appends the chunk to the file's content |
| FileSystem.Stamp | lib/copySync.js:218 | `futimesSync` changes no path and no fault |
| FileSystem.SetTimes | lib/utimes.js:20-32 | `utimesMillis` succeeds exactly on something `stat` finds that is not a directory, and then stamps the node the path resolves to |
| Entries.CountKindExtremes | lib/copySync.js:170 | the count of one kind is zero exactly when no entry has that kind, and the whole list exactly when every entry has it |
| Entries.CountByteCopiedExtremes | lib/copySync.js:222 | the count of byte-copied entries is zero exactly when none is a file or device, and the whole list exactly when all are |
| Entries.FileSizeSumAppend | lib/copySync.js:141-145 | the size to copy of two lists together is the sum of their sizes |
| Entries.FileSizeSumOfNonFiles | lib/copySync.js:141-143 | directories, links and devices add nothing to the size to copy |
| Entries.CopiedSizeIsFileSize | lib/copySync.js:222-223 | without devices, the bytes a copy counts equal the size computed up front |
| Options.FieldsOf | lib/copySync.js:44-47 | a bare filter function or RegExp becomes an options object holding only that filter |
| Options.Normalize | lib/copySync.js:47-54 | `overwrite`, `preserveTimestamps` and `dereference` are on only when `true`; `stopOnError` is off only when `false`; `limit` is the given one if truthy, else 512 when the module has none, never 0; `errors` is truthy or null |
| Options.NormalizeAsync | lib/copyAsync.js:45-61 | a function in the options position with no callback becomes the callback and the options become `{}`; otherwise the options are normalised as above; `noop` is called back only when no function was given |
| Utimes.Truncate | lib/utimes.js:89 | `floor(t / 1000) * 1000` is a multiple of 1000, at most `t`, and less than 1000 below it |
| Utimes.TimeRemoveMillis | lib/utimes.js:87-95 | a number gives a number and a Date a Date, each truncated to the second holding it; anything else throws |
| Utimes.MultiplesOrdered | lib/utimes.js:89 | two multiples of 1000 less than 1000 apart are ordered |
| Utimes.TruncateIsGreatest | lib/utimes.js:89 | the result is the greatest multiple of 1000 not after `t` |
| Utimes.TruncateMonotone | lib/utimes.js:89 | `t1 <= t2` implies `f(t1) <= f(t2)` |
| Utimes.TruncateFixesMultiples | lib/utimes.js:89 | multiples of 1000 are left unchanged |
| Utimes.TimeRemoveMillisIdempotent | lib/utimes.js:88-91 | applying it twice is applying it once |
| Utimes.DateAgreesWithNumber | lib/utimes.js:90-91 | a Date gives the same instant as the number branch on `getTime()` |
| SyncSpec.MakeDir | lib/copySync.js:166-172 | on success the target is a directory with the source mode and one directory is counted; the count moves by at most one directory, even when `chmod` throws |
| SyncSpec.RmFile | lib/copySync.js:201-204 | succeeds exactly when `unlink` does; then only the target is gone and one overwrite is counted; on a throw nothing changes |
| SyncSpec.CopyFile | lib/copySync.js:206-224 | on completion one file and the listed size are counted; a throw while opening changes nothing |
| SyncSpec.OnFile | lib/copySync.js:187-198 | a free target is copied to, counting one file; an occupied target with `overwrite` and a differing path is removed and copied to, counting one overwrite and one file; any other occupied target is left alone and nothing is counted; counters never go down |
| SyncSpec.MakeLink | lib/copySync.js:268-271 | succeeds exactly when `symlink` does; then the link is added and counted; on a throw nothing changes |
| SyncSpec.CheckLink | lib/copySync.js:235-266 | a link that would point at its own target changes nothing; a free target gets the link exactly when `symlink` succeeds; a non-link target (EINVAL) or a link with an equal text is counted as a link and left alone; any other `readlink` error is thrown; an overwrite is counted exactly when the target is a link with another text and `unlink` succeeds, whatever `overwrite` says, and then one link and one overwrite are counted |
| SyncSpec.OnLink | lib/copySync.js:227-232 | an unreadable source link throws the `readlink` error with nothing changed; a completion read the source link, and counts one link unless the link would point at its own target |
| SyncSpec.Handle | lib/copySync.js:154-160 | an entry of a kind with no handler changes nothing; the others move only the copy counters |
| SyncSpec.Run | lib/copySync.js:149-163 | draining the entries moves only the copy counters and `overwrited`, never down, and never `skipped` |
| SyncSpec.Start | lib/copySync.js:108-121 | the statistics come back only when source and destination are the same path, with nothing changed |
| SyncSpec.RunAppend | lib/copySync.js:152-161 | entries are handled in order: running `a + b` is running `a` and then, unless it threw, `b` |
| SyncSpec.StartGuards | lib/copySync.js:109-116 | equal paths return the statistics unchanged; a destination under the source throws ESELF before any filesystem call |
| SyncSpec.SiblingProceeds | lib/copySync.js:112-118 | a sibling destination passes the guards and reaches the stat of the source |
| SyncSpec.CopyFileContent | lib/copySync.js:206-219 | after `copyFile` the target holds the bytes the source held, or nothing if the target led to the source itself; a new target has the source mode, and the source times when preserved |
| SyncSpec.CheckLinkOutcome | lib/copySync.js:235-266 | after `checkLink` the target is a link with the wanted text, or a non-link left untouched, or the link would have pointed at itself |
| SyncSpec.OnLinkOutcome | lib/copySync.js:227-266 | after `onLink` completes, the source link was readable and the target is a link with its (normalised) text, or a non-link left untouched, or the link would have pointed at itself |
| SyncSpec.OnFileContent | lib/copySync.js:187-224 | when `onFile` copies, the target reads back the source bytes, on the tree as it was for a free target, or with the old target unlinked for a replaced one (only with `overwrite` and a differing path) |
| SyncSpec.AbsoluteIdempotent | lib/copySync.js:238 | resolving a resolved link text again changes nothing |
| SyncSpec.HandleReady | lib/copySync.js:154-160 | an entry with a free target completes, writes its replica at its target and nothing else, and is counted once |
| SyncSpec.CleanAfterFirst | lib/copySync.js:152-161 | after the first entry of a copy onto free, distinct targets, the rest is still such a copy with the same replicas |
| SyncSpec.CleanRunCopiesTree | lib/copySync.js:149-163 | a copy onto free, distinct targets completes, reproduces every entry at its target and keeps every node that was there |
| SyncSpec.CleanRunCounts | lib/copySync.js:149-163 | such a copy counts exactly the files, directories, links and copied bytes of the list, and no overwrite |
| SyncEngine.ReadAt | lib/copySync.js:213 | `readSync` returns at most 64 KiB from `pos`, nothing exactly at the end, and the bytes that follow the prefix read so far |
| SyncEngine.CopyFiles.constructor | lib/copySync.js:60-90 | the roots are resolved against the working directory, statistics are zero, and errors are collected exactly when `stopOnError` is off |
| SyncEngine.CopyFiles.OnError | lib/copySync.js:93-105 | marks the failure and counts it; rethrows with `stopOnError`, otherwise appends the error |
| SyncEngine.CopyFiles.Start | lib/copySync.js:108-121 | computes `SyncSpec.Start` on the object's state |
| SyncEngine.CopyFiles.LoadItems | lib/copySync.js:124-135 | an enumeration error throws, an empty list changes nothing, otherwise loads the statistics and copies |
| SyncEngine.CopyFiles.Tally | lib/copySync.js:138-145 | sets `items` to the entry count and adds the sizes of the regular files to `size` |
| SyncEngine.CopyFiles.LoadStatistics | lib/copySync.js:138-147 | copies the entries from the loaded statistics, as `SyncSpec.Run` |
| SyncEngine.CopyFiles.StartCopy | lib/copySync.js:149-163 | the `shift()` loop computes `SyncSpec.Run` over the list, and on completion empties it and returns the statistics |
| SyncEngine.CopyFiles.MakeDir | lib/copySync.js:166-172 | computes `SyncSpec.MakeDir` in place |
| SyncEngine.CopyFiles.IsWritable | lib/copySync.js:175-184 | true exactly when the stat of the target fails with ENOENT |
| SyncEngine.CopyFiles.OnFile | lib/copySync.js:187-198 | leaves the engine in the state and outcome of `SyncSpec.OnFile`: copy onto a free target, replace an occupied one only with `overwrite` and a differing path, skip otherwise |
| SyncEngine.CopyFiles.RmFile | lib/copySync.js:201-204 | computes `SyncSpec.RmFile` in place |
| SyncEngine.CopyFiles.CopyFile | lib/copySync.js:206-224 | the chunked read/write loop ends with the target holding all the source's bytes (`SyncSpec.CopyFile`) |
| SyncEngine.CopyFiles.OnLink | lib/copySync.js:227-232 | leaves the engine in the state and outcome of `SyncSpec.OnLink`: read the source link, then apply the `checkLink` rules to its text |
| SyncEngine.CopyFiles.CheckLink | lib/copySync.js:235-266 | leaves the engine in the state and outcome of `SyncSpec.CheckLink`: skip a self link, create on a free target, keep EINVAL or an equal text, replace another text whatever `overwrite` says |
| SyncEngine.CopyFiles.MakeLink | lib/copySync.js:268-271 | computes `SyncSpec.MakeLink` in place |
| Scheduler.Admit | lib/copyAsync.js:185-194 | `copyItem` always adds one to `started`, and adds one to `running` exactly when it is below `limit`, so `running <= limit` is kept |
| Scheduler.Finish | lib/copyAsync.js:204-208 | `done` adds one to `finished` and takes one from `running` unless skipped |
| Scheduler.StepAsWrittenKeeps | lib/copyAsync.js:185-212 | each event keeps the as-written meaning of the counters: `started` counts hand-overs plus re-entries |
| Scheduler.AsWrittenNeverEnds | lib/copyAsync.js:185-212 | once a deferred call has come back, or an entry without a handler was admitted, `done`'s test can never hold again |
| Scheduler.DeferredCopyNeverEnds | lib/copyAsync.js:187-192 | two entries with a limit of 1 both finish with `started` 3 and `finished` 2, so `_end` never fires |
| Scheduler.FifoCopyNeverEnds | lib/copyAsync.js:195-201 | a single FIFO entry is counted as running and no event can follow |
| Scheduler.StepCorrectedKeeps | lib/copyAsync.js:204-212 | with each entry counted once, every event keeps the counters' intended meaning |
| Scheduler.CorrectedEndsWhenAllDone | lib/copyAsync.js:204-212 | corrected: once every entry is handed over, `done`'s test holds exactly when all have finished, and `running` stays within the limit |
| Scheduler.CorrectedDeferredCopyEnds | lib/copyAsync.js:187-192 | corrected: the deferred trace ends with `started == finished == 2` |
| Scheduler.CorrectedFifoCopyEnds | lib/copyAsync.js:195-201 | corrected: the FIFO is skipped and the copy ends |
| AsyncSpec.End | lib/copyAsync.js:214-217 | `_end` calls back once more with the statistics, passing `null` exactly when nothing failed or errors are not collected |
| AsyncSpec.Done | lib/copyAsync.js:204-212 | `done` moves the counters as `Finish` and calls back exactly when, afterwards, `started == finished` and `running == 0` |
| AsyncSpec.OnError | lib/copyAsync.js:111-125 | marks and counts the error; with `stopOnError` it calls back with the error and does not call `done`, otherwise it appends the error and calls `done` |
| AsyncSpec.Fail | lib/copyAsync.js:235-237 | an error ends the entry: finished through `done`, or abandoned when it stopped the copy |
| AsyncSpec.Close | lib/copyAsync.js:243-244 | a continuation that ends with `done()` finishes its entry |
| AsyncSpec.DirMade | lib/copyAsync.js:234-238 | the directory is counted and `chmod` issued exactly when `mkdirp` succeeds |
| AsyncSpec.DirChmodded | lib/copyAsync.js:239-245 | a successful `chmod` ends the entry with the new mode and no further count |
| AsyncSpec.ParentMade | lib/copyAsync.js:252-253 | the error of `mkdirp(dirname(target))` is ignored and the target is probed next |
| AsyncSpec.FileProbed | lib/copyAsync.js:253-264 | a free target is streamed; an occupied one is unlinked first with `overwrite` and a differing path; otherwise the entry finishes with nothing changed |
| AsyncSpec.FileUnlinked | lib/copyAsync.js:269-279 | the overwrite is counted and the copy started exactly when `unlink` succeeds |
| AsyncSpec.Streamed | lib/copyAsync.js:282-302 | after `finish` the file and its listed size are counted and `chmod` issued; a stream error counts an error instead |
| AsyncSpec.FileChmodded | lib/copyAsync.js:303-318 | after `chmod` the times are set next exactly when it succeeded and timestamps are preserved |
| AsyncSpec.FileTimed | lib/copyAsync.js:308-314 | a successful `utimesMillis` finishes the entry |
| AsyncSpec.LinkReadDone | lib/copyAsync.js:326-342 | a failed source `readlink` is handed to `onError`; a link pointing at its own target finishes the entry uncounted; the target is probed exactly when the link could be read and points elsewhere, with that normalised text |
| AsyncSpec.LinkProbed | lib/copyAsync.js:342-346 | a free target gets the link next; otherwise its link text is read |
| AsyncSpec.LinkTargetRead | lib/copyAsync.js:346-363 | EINVAL or an equal text finishes the entry with nothing written and nothing counted; another `readlink` error goes to `onError`; the target is unlinked next exactly when it is a link with another text |
| AsyncSpec.LinkUnlinked | lib/copyAsync.js:361-363 | the overwrite is counted and the link created next exactly when `unlink` succeeds |
| AsyncSpec.LinkMade | lib/copyAsync.js:368-378 | a created link is counted and reads back with the wanted text |
| AsyncSpec.Resume | lib/copyAsync.js:231-378 | every continuation moves the counters only when its entry finishes |
| AsyncSpec.FirstTask | lib/copyAsync.js:195-201 | an entry gets a first call exactly when it is a directory, file, device or link |
| AsyncSpec.CopyItem | lib/copyAsync.js:185-202 | `copyItem` moves the counters as `Admit`, changes nothing else, and dispatches on kind when admitted |
| AsyncSpec.Start | lib/copyAsync.js:128-137 | equal paths end at once with the statistics; a destination under the source calls back with ESELF; otherwise the source is statted |
| AsyncSpec.Listed | lib/copyAsync.js:151-175 | copying starts exactly on a non-empty list, with the counts loaded; an empty list ends with the statistics |
| AsyncSpec.StartCopy | lib/copyAsync.js:177-183 | `startCopy` adds one `started` per entry, leaves `finished` and everything but the counters unchanged |
| AsyncSpec.EnteredKeeps | lib/copyAsync.js:185-202 | `copyItem` keeps the counters consistent with the books |
| AsyncSpec.RetriedKeeps | lib/copyAsync.js:189-191 | so does a deferred call coming back |
| AsyncSpec.StartCopyKeeps | lib/copyAsync.js:177-183 | so does the whole of `startCopy` |
| AsyncSpec.SettledKeeps | lib/copyAsync.js:231-378 | so does every callback, whatever it does |
| AsyncSpec.RestagedKeeps | lib/copyAsync.js:138-146 | so does moving between the stages of `start` |
| AsyncSpec.StartErrorKeeps | lib/copyAsync.js:138-145 | so does the `done` called by an error in `start` |
| AsyncSpec.EndsExactlyWhenNothingLeft | lib/copyAsync.js:209 | while copying, `done`'s test holds exactly when no call is in flight, none was ever deferred, no entry lacked a handler and no error stopped one |
| AsyncSpec.DeferralBlocksEnd | lib/copyAsync.js:187-192 | once one call has been deferred, `started` stays ahead of `finished` and `_end` never fires |
| AsyncSpec.EveryStopCallsBack | lib/copyAsync.js:115-116 | with `stopOnError`, each failing entry calls back again with its own error |
| AsyncSpec.StartSameEndsWithStatistics | lib/copyAsync.js:130-132 | equal paths call back with `null` and the statistics when nothing has failed |
| AsyncSpec.EnginesDifferOnExistingTargets | lib/copyAsync.js:346-351 | where `readlink(target)` gives EINVAL, the synchronous engine counts a link and the asynchronous one does not |
| AsyncSpec.BootErrorNeverCallsBack | lib/copyAsync.js:138-141 | as written, a failing stat of the source with `stopOnError` off leaves `running` -1 and `finished` 1, and nothing calls back |
| AsyncSpec.OnStartError | lib/copyAsync.js:111-125 | corrected: an error in `start` calls back exactly once, with the error or with the collected errors and statistics |
| AsyncSpec.SourceStattedCorrected | lib/copyAsync.js:138-141 | corrected: a failing stat of the source ends with one callback; a successful one proceeds as written |
| AsyncEngine.AsyncCopy.constructor | lib/copyAsync.js:66-103 | roots resolved, counters and statistics zero, errors collected exactly when `stopOnError` is off, nothing in flight |
| AsyncEngine.AsyncCopy.End | lib/copyAsync.js:214-217 | computes `AsyncSpec.End` in place |
| AsyncEngine.AsyncCopy.Done | lib/copyAsync.js:204-212 | computes `AsyncSpec.Done` in place |
| AsyncEngine.AsyncCopy.OnError | lib/copyAsync.js:111-125 | computes `AsyncSpec.OnError` in place and reports whether the error stopped the copy |
| AsyncEngine.AsyncCopy.Start | lib/copyAsync.js:128-137 | computes `AsyncSpec.Start` and keeps the counters consistent |
| AsyncEngine.AsyncCopy.StartError | lib/copyAsync.js:138-145 | an error in `start` goes through `onError` and halts the copy, keeping the counters consistent |
| AsyncEngine.AsyncCopy.OnSourceStat | lib/copyAsync.js:138-141 | the stat callback of `start` computes `AsyncSpec.SourceStatted` |
| AsyncEngine.AsyncCopy.OnDestinationParent | lib/copyAsync.js:142-147 | the `mkdirp` callback of `start` computes `AsyncSpec.DestinationParentMade` |
| AsyncEngine.AsyncCopy.LoadItems | lib/copyAsync.js:151-163 | computes `AsyncSpec.Listed`, then `startCopy` over the list |
| AsyncEngine.AsyncCopy.Tally | lib/copyAsync.js:166-173 | the `forEach` sets `items` and adds the sizes of the regular files to `size` |
| AsyncEngine.AsyncCopy.LoadStatistics | lib/copyAsync.js:166-175 | loads the counts, then runs `startCopy` |
| AsyncEngine.AsyncCopy.StartCopy | lib/copyAsync.js:177-183 | the `forEach` computes `AsyncSpec.StartCopy` and keeps the counters consistent |
| AsyncEngine.AsyncCopy.CopyItem | lib/copyAsync.js:185-202 | computes `AsyncSpec.CopyItem` and records the admitted or deferred call in the books |
| AsyncEngine.AsyncCopy.Retry | lib/copyAsync.js:189-191 | the `setImmediate` re-entry is `copyItem` again for a deferred entry |
| AsyncEngine.AsyncCopy.IsWritable | lib/copyAsync.js:219-228 | true exactly when the stat of the path fails with ENOENT |
| AsyncEngine.AsyncCopy.OnDirMkdirp | lib/copyAsync.js:234-238 | computes `AsyncSpec.DirMade` in place |
| AsyncEngine.AsyncCopy.OnDirChmod | lib/copyAsync.js:239-245 | computes `AsyncSpec.DirChmodded` in place |
| AsyncEngine.AsyncCopy.OnFileMkdirp | lib/copyAsync.js:252 | computes `AsyncSpec.ParentMade` in place |
| AsyncEngine.AsyncCopy.OnFileWritable | lib/copyAsync.js:253-264 | computes `AsyncSpec.FileProbed` in place |
| AsyncEngine.AsyncCopy.OnFileUnlink | lib/copyAsync.js:269-279 | computes `AsyncSpec.FileUnlinked` in place |
| AsyncEngine.AsyncCopy.OnStreamFinish | lib/copyAsync.js:282-302 | computes `AsyncSpec.Streamed` in place |
| AsyncEngine.AsyncCopy.OnFileChmod | lib/copyAsync.js:303-307 | computes `AsyncSpec.FileChmodded` in place |
| AsyncEngine.AsyncCopy.OnFileUtimes | lib/copyAsync.js:308-314 | computes `AsyncSpec.FileTimed` in place |
| AsyncEngine.AsyncCopy.OnLinkRead | lib/copyAsync.js:326-341 | leaves the visible state and the pending work of `AsyncSpec.LinkReadDone`: error, finish a self link, or probe the target |
| AsyncEngine.AsyncCopy.OnLinkWritable | lib/copyAsync.js:342-346 | computes `AsyncSpec.LinkProbed`; the probe is true exactly when `symlink` is the call issued next |
| AsyncEngine.AsyncCopy.OnTargetRead | lib/copyAsync.js:346-363 | leaves the visible state and the pending work of `AsyncSpec.LinkTargetRead`: keep EINVAL or an equal text, report another error, or unlink a link with another text |
| AsyncEngine.AsyncCopy.OnLinkUnlink | lib/copyAsync.js:361-363 | computes `AsyncSpec.LinkUnlinked` in place |
| AsyncEngine.AsyncCopy.OnSymlink | lib/copyAsync.js:368-378 | computes `AsyncSpec.LinkMade` in place |

Every AsyncEngine method that changes state also keeps `Valid()`. That
means the counters `started`, `running` and `finished` always agree with
the books, as `AsyncSpec.Consistent` defines, and `running` never
exceeds the limit. The lemmas above about the books then apply to the
object.

## Left out

- Streams and events. `EventEmitter` events are not modelled. The
  `createReadStream`/`pipe`/`createWriteStream` body of the asynchronous
  `copyFile` is one step at the `finish` event. The second error a
  stream may emit after its first is not modelled.
- Event-loop scheduling. Each callback is a method the environment
  calls. `setImmediate` is the `Retry` method, called whenever the
  environment chooses. Every filesystem call takes effect when its
  callback runs, and the interleavings between entries are the
  environment's choice.
- The enumeration library and its filter. The list of entries, or the
  enumeration's error, is a parameter of `LoadItems`.
- The recursive `mkdirp`. It is one node in a flat map. The chain of
  parent directories is not modelled, and neither is a missing parent
  making a call fail.
- `nodePath.resolve`. `.` and `..` segments are not normalised. Paths
  are POSIX strings; Windows separators are not modelled.
- The error sink. When the `errors` option is given, the source writes
  each error to a WriteStream, and that line refers to an undefined
  `error`. The model always collects errors in a list.
- Option values. A non-numeric `limit` is not modelled, and the injected
  `fs` module is the FileSystem module.
- `hasMillisRes`, `hasMillisResSync` and `utimesMillis`'s descriptor
  handling. These are probes of the real filesystem. `utimesMillis` is
  `FileSystem.SetTimes`.
- Real permission bits, umask, ownership and timestamp resolution. Modes
  and times are opaque values copied through. A device cannot be opened
  for writing (EPERM).
- The return value of the synchronous `copy()`. It discards what `start`
  returns; the model stops at `start`.
- The `copied.link` typo. The branch of the synchronous `checkLink` for
  a link pointing at its own target bumps a field that does not exist,
  so no modelled count moves.
- `lib/copy.js`. It only picks one of the two engines.
- Resolve: a link's text is used directly as a key of the flat map, so
  a relative link text is not taken relative to the link's directory
  and a link in an intermediate path component is not followed, as the
  operating system would do. `stat` with dereferencing, `isWritable` and
  `mkdirp` through such links are therefore not modelled.
- CopyFile: a device's content is a finite byte sequence. An endless
  device such as `/dev/zero`, on which the copy loop of the source never
  ends, is not modelled, and the loop's proved termination rests on
  this.
- TimeRemoveMillis: times are integers of milliseconds or dates, so
  `NaN` and the infinities a JavaScript number may hold are not modelled.
- SyncEngine.CopyFiles.OnError: modelled as the source defines it, but
  nothing in the synchronous engine calls it; every error there is
  thrown.

## Findings

| source | as written | input that shows it | evidently intended | confidence | as-written member | corrected member |
|---|---|---|---|---|---|---|
| lib/copySync.js:168 | the target is `item.path.replace(src, dst)`, so `$&`, `` $` ``, `$'` and `$$` in the destination root are expanded | `/s/f` copied from `/s` to `/d$&` is written to `/d/s/f` | the destination root taken literally (`/d$&/f`) | high, not executed | Paths.DollarPatternInDestination | Paths.LiteralUnderSource |
| lib/copyAsync.js:185-192 | a deferred entry re-enters `copyItem`, which adds one to `started` again | two entries with `limit` 1: both finish, `started` is 3 and `finished` 2, and the callback is never called | each entry counted once in `started`, so the copy ends when all have finished | high, not executed | Scheduler.DeferredCopyNeverEnds | Scheduler.CorrectedEndsWhenAllDone |
| lib/copyAsync.js:194-201 | a FIFO or socket entry is counted as running, but no handler calls `done` for it | a source directory holding one FIFO: `running` stays 1 and the callback is never called | an entry without a handler skipped with `done(true)` | high, not executed | Scheduler.FifoCopyNeverEnds | Scheduler.CorrectedFifoCopyEnds |
| lib/copyAsync.js:138-141 | with `stopOnError` off, an error in `start` goes to `onError`, whose `done` runs from zeroed counters | a missing source with `stopOnError: false`: `running` becomes -1 and `finished` 1, and the callback is never called | the callback called once with the collected errors | high, not executed | AsyncSpec.BootErrorNeverCallsBack | AsyncSpec.SourceStattedCorrected |
