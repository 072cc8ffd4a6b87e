/** The directories the commands create and move, as a set of path
    strings. `mkdir` adds one path; `shutil.move` of a directory renames it
    together with everything below it. */
module FileTree {
  import opened Wrappers
  import opened Text

  /** `d` is the directory `root` or lies below it. */
  predicate Under(d: string, root: string) {
    d == root || StartsWith(d, root + "/")
  }

  /** The directories after moving `src` (and what lies below it) to `dst`. */
  function Moved(ds: set<string>, src: string, dst: string): (r: set<string>)
    ensures forall d :: d in ds && !Under(d, src) ==> d in r
    ensures forall d :: d in ds && Under(d, src) ==> dst + d[|src|..] in r
  {
    (set d | d in ds && !Under(d, src)) + (set d | d in ds && Under(d, src) :: dst + d[|src|..])
  }

  /** Every directory after a move was kept or is the image of a moved one. */
  lemma MovedFrom(ds: set<string>, src: string, dst: string, x: string)
    requires x in Moved(ds, src, dst)
    ensures (x in ds && !Under(x, src)) || exists d :: d in ds && Under(d, src) && x == dst + d[|src|..]
  {
  }

  /** The source itself is gone after the move unless it lies below the
      target. */
  lemma MovedSourceGone(ds: set<string>, src: string, dst: string)
    requires !Under(src, dst)
    ensures src !in Moved(ds, src, dst)
  {
    forall d | d in ds && Under(d, src)
      ensures dst + d[|src|..] != src
    {
      ImageUnder(d, src, dst);
    }
  }

  /** A moved directory lands at or below the target. */
  lemma ImageUnder(d: string, src: string, dst: string)
    requires Under(d, src)
    ensures Under(dst + d[|src|..], dst)
  {
    if d != src {
      assert d[..|src| + 1] == src + "/";
      var x := dst + d[|src|..];
      assert x[..|dst| + 1] == dst + "/" by {
        assert x[|dst|] == d[|src|] == '/';
      }
    }
  }

  /** The position of the last `/`, if any. */
  function LastSlash(p: string): (r: Option<nat>)
    ensures r.Some? ==> r.value < |p| && p[r.value] == '/' && '/' !in p[r.value + 1..]
    ensures r.None? ==> '/' !in p
  {
    if p == [] then None
    else if p[|p| - 1] == '/' then Some(|p| - 1)
    else
      var r := LastSlash(p[..|p| - 1]);
      assert p == p[..|p| - 1] + [p[|p| - 1]];
      r
  }

  /** `Path(p).parent` for a path without a trailing `/`: the text before
      the last `/` (`/` itself for a top-level path), `.` when there is
      none. */
  function Parent(p: string): (r: string)
    ensures LastSlash(p).Some? ==> r == if LastSlash(p).value == 0 then "/" else p[..LastSlash(p).value]
  {
    match LastSlash(p)
    case None => "."
    case Some(i) => if i == 0 then "/" else p[..i]
  }

  class Tree {
    var dirs: set<string>

    constructor (dirs0: set<string>)
      ensures dirs == dirs0
    {
      dirs := dirs0;
    }

    /** `Path(p).mkdir(exist_ok=True)`. */
    method MakeDir(p: string)
      modifies this
      ensures dirs == old(dirs) + {p}
    {
      dirs := dirs + {p};
    }

    /** `shutil.move(src, dst)` of a directory to a path that does not
        exist. */
    method Move(src: string, dst: string)
      modifies this
      ensures dirs == Moved(old(dirs), src, dst)
    {
      dirs := Moved(dirs, src, dst);
    }
  }
}
