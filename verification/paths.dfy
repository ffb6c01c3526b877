/** Filesystem paths as sequences of segments. An absolute path lists its
    segments below the filesystem root; a relative path lists them below
    some base directory. */
module Paths {
  import opened Wrappers
  import opened Strings

  type Path = seq<string>

  /** `Path.name`: the last segment, `""` for the root. */
  function Name(p: Path): string {
    if |p| == 0 then "" else p[|p| - 1]
  }

  /** `Path.parent`, and `parts[:-1]` of a relative path. */
  function Parent(p: Path): (r: Path)
    ensures |p| > 0 ==> r + [Name(p)] == p
    ensures |p| > 0 ==> |r| == |p| - 1
  {
    if |p| == 0 then [] else p[..|p| - 1]
  }

  /** `p.relative_to(root)`: `None` where Python raises `ValueError`. */
  function RelativeTo(p: Path, root: Path): (r: Option<Path>)
    ensures r.Some? <==> root <= p
    ensures r.Some? ==> root + r.value == p
  {
    if root <= p then Some(p[|root|..]) else None
  }

  /** `Path(name).suffix == ".py"`: the last dot starts the suffix and is not
      the first character, so `".py"` itself has no suffix. */
  predicate HasPySuffix(name: string) {
    |name| > 3 && EndsWith(name, ".py")
  }

  /** `Path(name).stem` for a name with the `.py` suffix. */
  function Stem(name: string): (r: string)
    requires HasPySuffix(name)
    ensures r + ".py" == name
  {
    name[..|name| - 3]
  }

  /** `str(p)` of an absolute path. */
  function AbsoluteString(p: Path): string {
    "/" + Join(p, '/')
  }

  /** `str(p)` of a relative path; the empty path prints as `"."`. */
  function RelativeString(p: Path): string {
    if |p| == 0 then "." else Join(p, '/')
  }

  /** The text the renderers print for a node: the path relative to the graph
      root when one is set, the absolute path otherwise; `None` where
      `relative_to` raises. */
  function Display(p: Path, root: Option<Path>): (r: Option<string>)
    ensures root.None? ==> r == Some(AbsoluteString(p))
    ensures root.Some? ==> (r.Some? <==> root.value <= p)
  {
    match root
    case None => Some(AbsoluteString(p))
    case Some(base) =>
      match RelativeTo(p, base)
      case None => None
      case Some(rel) => Some(RelativeString(rel))
  }

  /** A path as the operating system produces it: no empty segment, no
      separator inside a segment, no `"."` segment. */
  predicate WellFormed(p: Path) {
    forall i :: 0 <= i < |p| ==> p[i] != "" && p[i] != "." && '/' !in p[i]
  }

  lemma JoinNonEmpty(p: Path)
    requires |p| > 0 && WellFormed(p)
    ensures Join(p, '/') != "" && Join(p, '/') != "."
  {
    if |p| > 1 {
      assert '/' in Join(p, '/') by {
        assert Join(p, '/') == p[0] + ['/'] + Join(p[1..], '/');
        assert Join(p, '/')[|p[0]|] == '/';
      }
    }
  }

  /** Distinct well-formed paths print differently, so keying a dictionary by
      the printed path loses nothing. */
  lemma {:induction false} DisplayInjective(p: Path, q: Path, root: Option<Path>)
    requires WellFormed(p) && WellFormed(q)
    requires Display(p, root).Some? && Display(p, root) == Display(q, root)
    ensures p == q
  {
    var sep := '/';
    match root
    case None =>
      assert Join(p, sep) == Join(q, sep) by {
        assert AbsoluteString(p)[1..] == Join(p, sep);
        assert AbsoluteString(q)[1..] == Join(q, sep);
      }
      if |p| > 0 && |q| > 0 {
        SplitJoin(p, sep);
        SplitJoin(q, sep);
      } else if |p| > 0 {
        JoinNonEmpty(p);
      } else if |q| > 0 {
        JoinNonEmpty(q);
      }
    case Some(base) =>
      var rp := p[|base|..];
      var rq := q[|base|..];
      assert WellFormed(rp) && WellFormed(rq) by {
        forall i | 0 <= i < |rp| ensures rp[i] == p[|base| + i] { }
        forall i | 0 <= i < |rq| ensures rq[i] == q[|base| + i] { }
      }
      assert RelativeString(rp) == RelativeString(rq);
      if |rp| > 0 && |rq| > 0 {
        SplitJoin(rp, sep);
        SplitJoin(rq, sep);
        assert rp == rq;
      } else if |rp| > 0 {
        JoinNonEmpty(rp);
      } else if |rq| > 0 {
        JoinNonEmpty(rq);
      }
      assert p == base + rp && q == base + rq;
  }
}
