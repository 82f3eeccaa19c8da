/** Path strings: the guard that refuses to copy a directory into itself,
 *  the derivation of each entry's destination path, and the two small
 *  helpers the engines borrow from Node's `path` module. Paths are POSIX
 *  strings that have already been resolved against the working directory. */
module Paths {

  type Path = string

  /** `nodePath.sep` on a POSIX host. */
  const Sep: char := '/'

  predicate StartsWith(s: string, prefix: string) {
    |prefix| <= |s| && s[..|prefix|] == prefix
  }

  /** `pat` occurs in `s` at index `i`. */
  predicate OccursAt(s: string, pat: string, i: int) {
    0 <= i && i + |pat| <= |s| && s[i..i + |pat|] == pat
  }

  /** `s.indexOf(pat, from)`: the first index at or after `from` where `pat`
   *  occurs, or -1. */
  function IndexFrom(s: string, pat: string, from: nat): (r: int)
    ensures r == -1 || (from <= r && OccursAt(s, pat, r))
    ensures r == -1 ==> forall k :: from <= k && OccursAt(s, pat, k) ==> false
    ensures r != -1 ==> forall k :: from <= k < r ==> !OccursAt(s, pat, k)
    decreases |s| - from
  {
    if from + |pat| > |s| then -1
    else if s[from..from + |pat|] == pat then from
    else IndexFrom(s, pat, from + 1)
  }

  /** `s.indexOf(pat)`. */
  function IndexOf(s: string, pat: string): int {
    IndexFrom(s, pat, 0)
  }

  lemma IndexOfZero(s: string, pat: string)
    ensures IndexOf(s, pat) == 0 <==> StartsWith(s, pat)
  {
    if StartsWith(s, pat) {
      assert s[0..|pat|] == pat;
    }
  }

  /** The self-copy test of both engines:
   *  `(dst + sep).indexOf(src + sep) === 0`. */
  predicate IntoItself(src: Path, dst: Path) {
    IndexOf(dst + [Sep], src + [Sep]) == 0
  }

  /** The test holds exactly when the destination is the source itself or
   *  lies under it at a separator boundary. */
  lemma IntoItselfIff(src: Path, dst: Path)
    ensures IntoItself(src, dst) <==> dst == src || StartsWith(dst, src + [Sep])
  {
    IndexOfZero(dst + [Sep], src + [Sep]);
    var d, s := dst + [Sep], src + [Sep];
    if |dst| == |src| {
      if StartsWith(d, s) {
        assert d[..|s|] == d;
        assert dst == d[..|dst|] == s[..|src|] == src;
      }
    } else if |dst| > |src| {
      assert d[..|s|] == dst[..|s|];
    }
  }

  /** A sibling that merely extends the source name (`src_out`) is not
   *  refused. */
  lemma SiblingNotRefused(src: Path, suffix: string)
    requires suffix != [] && suffix[0] != Sep
    ensures !IntoItself(src, src + suffix)
  {
    IntoItselfIff(src, src + suffix);
    var d := src + suffix;
    assert |d| > |src| && d[..|src| + 1][|src|] == suffix[0];
    assert (src + [Sep])[|src|] == Sep;
  }

  /** Every path below the source, at any depth, is refused. */
  lemma DescendantRefused(src: Path, rest: string)
    ensures IntoItself(src, src + [Sep] + rest)
  {
    IntoItselfIff(src, src + [Sep] + rest);
    assert (src + [Sep] + rest)[..|src| + 1] == src + [Sep];
  }

  /** GetSubstitution of String.prototype.replace for a string pattern: the
   *  replacement text with `$$`, `$&`, `` $` `` and `$'` expanded (section
   *  21.1.3.14.1 of ECMA-262, 6th edition). A string pattern has no capture
   *  groups, so `$1` and every other `$` stay literal. */
  function Expand(rep: string, matched: string, before: string, after: string): string
    decreases |rep|
  {
    if rep == [] then []
    else if rep[0] == '$' && |rep| >= 2 && rep[1] == '$' then
      "$" + Expand(rep[2..], matched, before, after)
    else if rep[0] == '$' && |rep| >= 2 && rep[1] == '&' then
      matched + Expand(rep[2..], matched, before, after)
    else if rep[0] == '$' && |rep| >= 2 && rep[1] == '`' then
      before + Expand(rep[2..], matched, before, after)
    else if rep[0] == '$' && |rep| >= 2 && rep[1] == '\'' then
      after + Expand(rep[2..], matched, before, after)
    else
      [rep[0]] + Expand(rep[1..], matched, before, after)
  }

  /** `s.replace(pat, rep)` with a string pattern: only the first occurrence
   *  is replaced, and `$` patterns in `rep` are expanded. */
  function ReplaceFirst(s: string, pat: string, rep: string): (r: string)
    ensures IndexOf(s, pat) == -1 ==> r == s
    ensures IndexOf(s, pat) >= 0 ==> StartsWith(r, s[..IndexOf(s, pat)])
  {
    var i := IndexOf(s, pat);
    if i < 0 then s
    else s[..i] + Expand(rep, pat, s[..i], s[i + |pat|..]) + s[i + |pat|..]
  }

  /** Destination of an entry: `item.path.replace(this.src, this.dst)`. */
  function Target(path: Path, src: Path, dst: Path): Path {
    ReplaceFirst(path, src, dst)
  }

  /** The intended derivation: the first occurrence of `pat` replaced by the
   *  text of `rep` taken literally. */
  function ReplaceFirstLiteral(s: string, pat: string, rep: string): (r: string)
    ensures IndexOf(s, pat) == -1 ==> r == s
    ensures IndexOf(s, pat) >= 0 ==> |r| == |s| - |pat| + |rep|
  {
    var i := IndexOf(s, pat);
    if i < 0 then s else s[..i] + rep + s[i + |pat|..]
  }

  lemma {:induction false} ExpandPlain(rep: string, matched: string, before: string, after: string)
    requires '$' !in rep
    ensures Expand(rep, matched, before, after) == rep
    decreases |rep|
  {
    if rep != [] {
      ExpandPlain(rep[1..], matched, before, after);
      assert rep == [rep[0]] + rep[1..];
    }
  }

  /** Without a `$` in the replacement, the as-written replace is the
   *  literal one. */
  lemma ReplaceAgrees(s: string, pat: string, rep: string)
    requires '$' !in rep
    ensures ReplaceFirst(s, pat, rep) == ReplaceFirstLiteral(s, pat, rep)
  {
    var i := IndexOf(s, pat);
    if i >= 0 {
      var before, after := s[..i], s[i + |pat|..];
      ExpandPlain(rep, pat, before, after);
      assert ReplaceFirst(s, pat, rep) == before + rep + after;
    }
  }

  /** The literal derivation maps an entry under the source root to the
   *  destination root followed by the entry's path relative to the source. */
  lemma LiteralUnderSource(path: Path, src: Path, dst: Path)
    requires StartsWith(path, src)
    ensures ReplaceFirstLiteral(path, src, dst) == dst + path[|src|..]
  {
    IndexOfZero(path, src);
    assert path[..0] == [];
  }

  /** The same holds for the as-written derivation whenever the destination
   *  root has no `$` in it. */
  lemma TargetUnderSource(path: Path, src: Path, dst: Path)
    requires StartsWith(path, src) && '$' !in dst
    ensures Target(path, src, dst) == dst + path[|src|..]
  {
    ReplaceAgrees(path, src, dst);
    LiteralUnderSource(path, src, dst);
  }

  /** A destination root holding `$&` receives the source root in its
   *  place: `/s/f` copied from `/s` to `/d$&` lands on `/d/s/f`. */
  lemma DollarPatternInDestination()
    ensures Target("/s/f", "/s", "/d$&") == "/d/s/f"
    ensures ReplaceFirstLiteral("/s/f", "/s", "/d$&") == "/d$&/f"
  {
    var s, pat := "/s/f", "/s";
    assert IndexOf(s, pat) == 0 by {
      IndexOfZero(s, pat);
      assert s[..|pat|] == pat;
    }
    assert s[..0] == [] && s[2..] == "/f";
    var rep := "/d$&";
    assert rep[1..] == "d$&" && rep[1..][1..] == "$&" && rep[1..][1..][2..] == [];
    calc {
      Expand(rep, pat, [], "/f");
      ['/'] + Expand("d$&", pat, [], "/f");
      ['/'] + (['d'] + Expand("$&", pat, [], "/f"));
      ['/'] + (['d'] + (pat + Expand([], pat, [], "/f")));
    }
  }

  /** Index of the last separator in `s`, or -1. */
  function LastSep(s: string): (r: int)
    ensures -1 <= r < |s|
    ensures r >= 0 ==> s[r] == Sep
    ensures forall k :: r < k < |s| ==> s[k] != Sep
  {
    if s == [] then -1
    else if s[|s| - 1] == Sep then |s| - 1
    else LastSep(s[..|s| - 1])
  }

  /** `nodePath.dirname` of a resolved path (no trailing separator). */
  function Dirname(p: Path): (r: Path)
    ensures Sep !in p ==> r == "."
    ensures Sep in p ==> StartsWith(p, r) && r != []
    ensures |p| > 0 && p[0] == Sep && (forall k :: 0 < k < |p| ==> p[k] != Sep) ==> r == [Sep]
    ensures (exists k :: 0 < k < |p| && p[k] == Sep) ==>
      |r| < |p| && p[|r|] == Sep && forall k :: |r| < k < |p| ==> p[k] != Sep
  {
    var i := LastSep(p);
    if i < 0 then "."
    else if i == 0 then [Sep]
    else p[..i]
  }

  /** `nodePath.resolve(base, p)` without the removal of `.` and `..`
   *  segments: an absolute `p` is kept, a relative one is joined to `base`. */
  function Absolute(base: Path, p: Path): (r: Path)
    ensures |p| > 0 && p[0] == Sep ==> r == p
    ensures !(|p| > 0 && p[0] == Sep) ==> StartsWith(r, base + [Sep]) && r[|base| + 1..] == p
  {
    if |p| > 0 && p[0] == Sep then p else base + [Sep] + p
  }
}
