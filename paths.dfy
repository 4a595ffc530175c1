/**
 * Paths as sequences of segments, and the string rules the build scripts
 * apply to single names: Node's `path.extname` (simplified) and the
 * rewrite of a trailing ".ts" into ".js".
 */
module Paths {

  /** A path as its segments: `out/cjs/a.js` is ["out", "cjs", "a.js"]. */
  type Path = seq<string>

  predicate EndsWith(s: string, suffix: string) {
    |suffix| <= |s| && s[|s| - |suffix|..] == suffix
  }

  /**
   * The extension of a name: the suffix starting at its last '.', or ""
   * when there is no '.' after the first character (so ".js" has none).
   */
  function Extname(name: string): (ext: string)
    ensures |ext| <= |name| && ext == name[|name| - |ext|..]
    ensures ext == "" ==> forall i :: 0 < i < |name| ==> name[i] != '.'
    ensures ext != "" ==>
      0 < |name| - |ext| && name[|name| - |ext|] == '.' &&
      forall i :: |name| - |ext| < i < |name| ==> name[i] != '.'
  {
    if |name| <= 1 then ""
    else if name[|name| - 1] == '.' then "."
    else
      var ext := Extname(name[..|name| - 1]);
      if ext == "" then "" else ext + [name[|name| - 1]]
  }

  /** A name has extension `.xy` exactly when it ends in `.xy` after at least one other character. */
  lemma {:induction false} ExtnameOfSuffix(name: string, ext: string)
    requires |ext| == 3 && ext[0] == '.' && ext[1] != '.' && ext[2] != '.'
    ensures Extname(name) == ext <==> |name| > 3 && EndsWith(name, ext)
  {
    var e := Extname(name);
    if |name| > 3 && EndsWith(name, ext) {
      assert name[|name| - 3] == '.';
      assert name[|name| - 2] != '.' && name[|name| - 1] != '.';
      assert e != "";
      assert |e| == 3;
    }
  }

  /** A trailing ".ts" becomes ".js" (once, at the very end); every other name is kept. */
  function ReplaceTrailingTs(name: string): (r: string)
    ensures |r| == |name|
    ensures EndsWith(name, ".ts") ==> EndsWith(r, ".js") && r[..|r| - 3] == name[..|name| - 3]
    ensures !EndsWith(name, ".ts") ==> r == name
  {
    if EndsWith(name, ".ts") then name[..|name| - 3] + ".js" else name
  }

  /** Rewriting is idempotent, and what it yields never ends in ".ts". */
  lemma ReplaceTrailingTsIdempotent(name: string)
    ensures !EndsWith(ReplaceTrailingTs(name), ".ts")
    ensures ReplaceTrailingTs(ReplaceTrailingTs(name)) == ReplaceTrailingTs(name)
  {
    var r := ReplaceTrailingTs(name);
    if EndsWith(name, ".ts") {
      assert r[|r| - 1] == 's' && r[|r| - 2] == 'j';
    }
  }

  function Last(p: Path): string
    requires p != []
  {
    p[|p| - 1]
  }

  /** `path.dirname`: the path without its last segment. */
  function Dirname(p: Path): (d: Path)
    requires p != []
    ensures d + [Last(p)] == p
  {
    p[..|p| - 1]
  }

  /** The sibling that holds a file's source map: ".map" appended to the last segment. */
  function MapPath(p: Path): (m: Path)
    ensures m != p && |m| == if p == [] then 1 else |p|
    ensures p != [] ==> Dirname(m) == Dirname(p) && Last(m) == Last(p) + ".map"
  {
    if p == [] then [".map"]
    else
      var m := p[..|p| - 1] + [p[|p| - 1] + ".map"];
      assert |m[|m| - 1]| != |p[|p| - 1]|;
      m
  }


  /** A file's `.map` sibling sits in the same directories as the file. */
  lemma MapPathParents(p: Path)
    ensures forall k :: 0 < k < |MapPath(p)| ==> MapPath(p)[..k] == p[..k]
    ensures |MapPath(p)| == |p| || p == []
  {
    if p != [] {
      var m := MapPath(p);
      assert Dirname(m) + [Last(m)] == m && Dirname(p) + [Last(p)] == p;
      forall k | 0 < k < |m| ensures m[..k] == p[..k] {
        assert m[..k] == Dirname(m)[..k];
        assert p[..k] == Dirname(p)[..k];
      }
    }
  }
  /** The trailing-".ts" rewrite applied to a whole relative path string: only its last segment can change. */
  function RewriteLast(rel: Path): (r: Path)
    ensures |r| == |rel|
    ensures rel != [] ==> Dirname(r) == Dirname(rel) && Last(r) == ReplaceTrailingTs(Last(rel))
  {
    if rel == [] then [] else rel[..|rel| - 1] + [ReplaceTrailingTs(rel[|rel| - 1])]
  }

  /** Every segment rewritten: what the full build does to a file's relative path. */
  function RewriteEvery(rel: Path): (r: Path)
    ensures |r| == |rel| && forall i :: 0 <= i < |rel| ==> r[i] == ReplaceTrailingTs(rel[i])
  {
    seq(|rel|, i requires 0 <= i < |rel| => ReplaceTrailingTs(rel[i]))
  }

  /**
   * The full build and the change handler map a relative path to the same
   * place exactly when no directory segment ends in ".ts".
   */
  lemma RewriteEveryIsRewriteLast(rel: Path)
    requires rel != []
    ensures RewriteEvery(rel) == RewriteLast(rel) <==>
            forall i :: 0 <= i < |rel| - 1 ==> !EndsWith(rel[i], ".ts")
  {
    if RewriteEvery(rel) == RewriteLast(rel) {
      forall i | 0 <= i < |rel| - 1 ensures !EndsWith(rel[i], ".ts") {
        assert RewriteEvery(rel)[i] == RewriteLast(rel)[i] == rel[i];
      }
    }
  }

  /** A directory named `lib.ts` keeps its name in the change handler but not in the full build. */
  lemma WatchAndBuildDisagree()
    ensures RewriteEvery(["lib.ts", "a.ts"]) == ["lib.js", "a.js"]
    ensures RewriteLast(["lib.ts", "a.ts"]) == ["lib.ts", "a.js"]
  {
    assert EndsWith("lib.ts", ".ts") && EndsWith("a.ts", ".ts");
    assert "lib.ts"[..3] + ".js" == "lib.js";
    assert "a.ts"[..1] + ".js" == "a.js";
  }

  /** Length of the segment at the front of `s` (up to the first '/'). */
  function SegmentLength(s: string): (n: nat)
    ensures n <= |s|
    ensures forall i :: 0 <= i < n ==> s[i] != '/'
    ensures n < |s| ==> s[n] == '/'
  {
    if s == [] || s[0] == '/' then 0 else 1 + SegmentLength(s[1..])
  }

  /** A command-line directory as a path: split at '/', empty segments dropped. */
  function Split(s: string): (p: Path)
    ensures forall i :: 0 <= i < |p| ==> p[i] != "" && '/' !in p[i]
    decreases |s|
  {
    if s == [] then []
    else if s[0] == '/' then Split(s[1..])
    else
      var n := SegmentLength(s);
      [s[..n]] + Split(s[n..])
  }

  /** A path written back as a command-line directory: segments joined with '/'. */
  function JoinSlash(p: Path): string {
    if p == [] then ""
    else if |p| == 1 then p[0]
    else p[0] + "/" + JoinSlash(p[1..])
  }

  /** The first segment of `a + b` is all of `a` when `a` has no '/' and `b` starts a new segment. */
  lemma {:induction false} SegmentLengthOf(a: string, b: string)
    requires '/' !in a && (b == [] || b[0] == '/')
    ensures SegmentLength(a + b) == |a|
    decreases |a|
  {
    if a == [] {
      assert a + b == b;
    } else {
      assert (a + b)[0] == a[0];
      assert (a + b)[1..] == a[1..] + b;
      SegmentLengthOf(a[1..], b);
    }
  }

  /** Splitting recovers every path whose segments are non-empty and free of '/'. */
  lemma {:induction false} SplitJoin(p: Path)
    requires forall i :: 0 <= i < |p| ==> p[i] != "" && '/' !in p[i]
    ensures Split(JoinSlash(p)) == p
    decreases |p|
  {
    if p == [] {
    } else if |p| == 1 {
      var s := p[0];
      SegmentLengthOf(s, "");
      assert s + "" == s;
      assert s[..|s|] == s;
      assert s[|s|..] == [];
    } else {
      var rest := JoinSlash(p[1..]);
      var s := p[0] + ("/" + rest);
      assert JoinSlash(p) == s;
      SegmentLengthOf(p[0], "/" + rest);
      assert s[..|p[0]|] == p[0];
      assert s[|p[0]|..] == "/" + rest;
      assert ("/" + rest)[1..] == rest;
      SplitJoin(p[1..]);
      assert Split(s) == [p[0]] + p[1..];
    }
  }
}
