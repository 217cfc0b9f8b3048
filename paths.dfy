/** The POSIX flavour of Node's `path` functions that the generators call:
    `extname`, `basename(p, extname(p))`, `dirname`, `normalize` and `join`. */
module Paths {

  predicate NoSlash(s: string) {
    forall i :: 0 <= i < |s| ==> s[i] != '/'
  }

  predicate NoDot(s: string) {
    forall i :: 0 <= i < |s| ==> s[i] != '.'
  }

  /** `p` without its trailing separators. */
  function TrimTrailing(p: string): (r: string)
    ensures r <= p
    ensures r == [] || r[|r| - 1] != '/'
    ensures forall i :: |r| <= i < |p| ==> p[i] == '/'
  {
    if p != [] && p[|p| - 1] == '/' then TrimTrailing(p[..|p| - 1]) else p
  }

  /** The index just after the last separator of `p` (0 when there is none). */
  function SegmentStart(p: string): (k: nat)
    ensures k <= |p|
    ensures NoSlash(p[k..])
    ensures k > 0 ==> p[k - 1] == '/'
  {
    if p == [] then 0
    else if p[|p| - 1] == '/' then |p|
    else
      var k := SegmentStart(p[..|p| - 1]);
      assert p[k..] == p[..|p| - 1][k..] + [p[|p| - 1]];
      k
  }

  /** The last path component, trailing separators ignored. */
  function LastSegment(p: string): (seg: string)
    ensures NoSlash(seg)
  {
    var q := TrimTrailing(p);
    q[SegmentStart(q)..]
  }

  /** The position of the last `.` in `s`, if any. */
  function LastDot(s: string): (r: Option<nat>)
    ensures r.Some? ==> r.value < |s| && s[r.value] == '.' && NoDot(s[r.value + 1..])
    ensures r.None? ==> NoDot(s)
  {
    if s == [] then None
    else if s[|s| - 1] == '.' then Some(|s| - 1)
    else
      var r := LastDot(s[..|s| - 1]);
      assert r.Some? ==> s[r.value + 1..] == s[..|s| - 1][r.value + 1..] + [s[|s| - 1]];
      r
  }

  datatype Option<T> = None | Some(value: T)

  /** The extension of one path component: from its last `.`, except when
      that dot starts the component or the component is `..`. */
  function SegExt(seg: string): (e: string)
    ensures |e| <= |seg| && e == seg[|seg| - |e|..]
  {
    match LastDot(seg)
    case None => ""
    case Some(d) => if d == 0 || seg == ".." then "" else seg[d..]
  }

  /** `path.extname(p)`. */
  function ExtName(p: string): string {
    SegExt(LastSegment(p))
  }

  /** `path.basename(p, path.extname(p))`: the last component without its extension. */
  function Stem(p: string): string {
    var seg := LastSegment(p);
    seg[..|seg| - |SegExt(seg)|]
  }

  /** The index of the separator that ends the directory part, scanning
      from `i` down to 1 as `path.dirname` does. */
  function DirEnd(p: string, i: int, matchedSlash: bool): (r: Option<nat>)
    requires i < |p|
    ensures r.Some? ==> 1 <= r.value <= i && p[r.value] == '/'
    decreases i
  {
    if i < 1 then None
    else if p[i] == '/' then (if !matchedSlash then Some(i) else DirEnd(p, i - 1, matchedSlash))
    else DirEnd(p, i - 1, false)
  }

  /** `path.dirname(p)`. */
  function DirName(p: string): string {
    if p == [] then "."
    else
      var hasRoot := p[0] == '/';
      match DirEnd(p, |p| - 1, true)
      case None => if hasRoot then "/" else "."
      case Some(end) => if hasRoot && end == 1 then "//" else p[..end]
  }

  /** `p.split('/')`. */
  function Split(p: string): (segs: seq<string>)
    ensures |segs| >= 1
    ensures forall i :: 0 <= i < |segs| ==> NoSlash(segs[i])
  {
    if p == [] then [[]]
    else
      var rest := Split(p[1..]);
      if p[0] == '/' then [[]] + rest
      else [[p[0]] + rest[0]] + rest[1..]
  }

  /** `segs.join('/')`. */
  function JoinSegs(segs: seq<string>): string {
    if |segs| == 0 then ""
    else if |segs| == 1 then segs[0]
    else segs[0] + "/" + JoinSegs(segs[1..])
  }

  /** The segment stack of `normalizeString`: empty and `.` segments vanish,
      `..` removes the previous segment, or is kept when nothing is left to
      remove and the path is relative. */
  function Resolve(segs: seq<string>, stack: seq<string>, allowAbove: bool): seq<string>
    decreases |segs|
  {
    if segs == [] then stack
    else
      var s := segs[0];
      var next :=
        if s == "" || s == "." then stack
        else if s == ".." then
          (if |stack| > 0 && stack[|stack| - 1] != ".." then stack[..|stack| - 1]
           else if allowAbove then stack + [".."]
           else stack)
        else stack + [s];
      Resolve(segs[1..], next, allowAbove)
  }

  /** `path.normalize(p)`. */
  function Normalize(p: string): string {
    if p == [] then "."
    else Finish(p[0] == '/', p[|p| - 1] == '/', JoinSegs(Resolve(Split(p), [], p[0] != '/')))
  }

  /** The last step of `normalize`: put back the root and a trailing separator. */
  function Finish(isAbs: bool, trailing: bool, s: string): string {
    if s == [] then (if isAbs then "/" else if trailing then "./" else ".")
    else
      var t := if trailing then s + "/" else s;
      if isAbs then "/" + t else t
  }

  /** `path.join(a, b)`: the non-empty arguments joined by `/`, then normalised. */
  function Join(a: string, b: string): string {
    var joined := if a == [] then b else if b == [] then a else a + "/" + b;
    if joined == [] then "." else Normalize(joined)
  }

  // ---------------------------------------------------------------------
  // Properties

  /** A plain file or directory name: what `normalize` keeps as it is. */
  predicate PlainName(s: string) {
    s != [] && NoSlash(s) && s != "." && s != ".."
  }

  /** Stem and extension split the last component; a non-empty extension is a
      dot followed by no further dot, and leaves a non-empty stem. */
  lemma StemAndExtension(p: string)
    ensures Stem(p) + ExtName(p) == LastSegment(p)
    ensures ExtName(p) != [] ==> ExtName(p)[0] == '.' && NoDot(ExtName(p)[1..]) && Stem(p) != []
    ensures NoSlash(ExtName(p)) && NoSlash(Stem(p))
  {
    var seg := LastSegment(p);
    SegParts(seg);
    PartsNoSlash(seg, |seg| - |SegExt(seg)|);
  }

  /** The same split, for one component. */
  lemma SegParts(seg: string)
    ensures seg[..|seg| - |SegExt(seg)|] + SegExt(seg) == seg
    ensures SegExt(seg) != [] ==> SegExt(seg)[0] == '.' && NoDot(SegExt(seg)[1..]) && |SegExt(seg)| < |seg|
  {
    var e := SegExt(seg);
    assert seg == seg[..|seg| - |e|] + seg[|seg| - |e|..];
    match LastDot(seg)
    case None =>
    case Some(d) =>
      if d != 0 && seg != ".." {
        assert e[1..] == seg[d + 1..];
      }
  }

  lemma PartsNoSlash(seg: string, k: nat)
    requires k <= |seg| && NoSlash(seg)
    ensures NoSlash(seg[..k]) && NoSlash(seg[k..])
  {
    assert forall i :: 0 <= i < k ==> seg[..k][i] == seg[i];
    assert forall i :: 0 <= i < |seg| - k ==> seg[k..][i] == seg[k + i];
  }

  lemma {:induction false} SplitNoSlash(a: string)
    requires NoSlash(a)
    ensures Split(a) == [a]
  {
    if a != [] {
      assert NoSlash(a[1..]) by {
        forall i | 0 <= i < |a[1..]| ensures a[1..][i] != '/' {
          assert a[1..][i] == a[i + 1];
        }
      }
      SplitNoSlash(a[1..]);
      assert [a[0]] + a[1..] == a;
    }
  }

  /** Splitting at an inserted separator splits the two halves independently. */
  lemma {:induction false} SplitAround(a: string, b: string)
    ensures Split(a + "/" + b) == Split(a) + Split(b)
  {
    if a == [] {
      assert a + "/" + b == "/" + b;
      assert ("/" + b)[1..] == b;
    } else {
      assert (a + "/" + b)[1..] == a[1..] + "/" + b;
      SplitAround(a[1..], b);
    }
  }

  lemma {:induction false} SplitJoin(segs: seq<string>)
    requires |segs| >= 1
    requires forall i :: 0 <= i < |segs| ==> NoSlash(segs[i])
    ensures Split(JoinSegs(segs)) == segs
  {
    if |segs| == 1 {
      SplitNoSlash(segs[0]);
    } else {
      SplitAround(segs[0], JoinSegs(segs[1..]));
      SplitNoSlash(segs[0]);
      SplitJoin(segs[1..]);
    }
  }

  lemma {:induction false} ResolveAppend(xs: seq<string>, ys: seq<string>, stack: seq<string>, allowAbove: bool)
    ensures Resolve(xs + ys, stack, allowAbove) == Resolve(ys, Resolve(xs, stack, allowAbove), allowAbove)
    decreases |xs|
  {
    if xs != [] {
      assert (xs + ys)[0] == xs[0];
      assert (xs + ys)[1..] == xs[1..] + ys;
      var s := xs[0];
      var next :=
        if s == "" || s == "." then stack
        else if s == ".." then
          (if |stack| > 0 && stack[|stack| - 1] != ".." then stack[..|stack| - 1]
           else if allowAbove then stack + [".."]
           else stack)
        else stack + [s];
      ResolveAppend(xs[1..], ys, next, allowAbove);
    } else {
      assert xs + ys == ys;
    }
  }

  /** Plain names pass through the segment stack unchanged. */
  lemma {:induction false} ResolvePlain(segs: seq<string>, stack: seq<string>, allowAbove: bool)
    requires forall i :: 0 <= i < |segs| ==> PlainName(segs[i])
    ensures Resolve(segs, stack, allowAbove) == stack + segs
    decreases |segs|
  {
    if segs != [] {
      ResolvePlain(segs[1..], stack + [segs[0]], allowAbove);
      assert stack + [segs[0]] + segs[1..] == stack + segs;
    }
  }

  lemma {:induction false} JoinSegsSnoc(segs: seq<string>, name: string)
    ensures JoinSegs(segs + [name]) == if segs == [] then name else JoinSegs(segs) + "/" + name
    decreases |segs|
  {
    if |segs| == 1 {
      assert segs + [name] == [segs[0], name];
      assert [segs[0], name][1..] == [name];
    } else if |segs| > 1 {
      assert (segs + [name])[1..] == segs[1..] + [name];
      JoinSegsSnoc(segs[1..], name);
    }
  }

  lemma {:induction false} JoinSegsEmpty(segs: seq<string>)
    requires forall i :: 0 <= i < |segs| ==> segs[i] != []
    ensures (JoinSegs(segs) == []) == (segs == [])
    decreases |segs|
  {
    if |segs| > 1 {
      JoinSegsEmpty(segs[1..]);
    }
  }

  /** The segments `Resolve` leaves are never empty. */
  lemma {:induction false} ResolveNonEmpty(segs: seq<string>, stack: seq<string>, allowAbove: bool)
    requires forall i :: 0 <= i < |stack| ==> stack[i] != []
    ensures forall i :: 0 <= i < |Resolve(segs, stack, allowAbove)| ==> Resolve(segs, stack, allowAbove)[i] != []
    decreases |segs|
  {
    if segs != [] {
      var s := segs[0];
      var next :=
        if s == "" || s == "." then stack
        else if s == ".." then
          (if |stack| > 0 && stack[|stack| - 1] != ".." then stack[..|stack| - 1]
           else if allowAbove then stack + [".."]
           else stack)
        else stack + [s];
      ResolveNonEmpty(segs[1..], next, allowAbove);
    }
  }

  /** A path whose last segment is a plain name normalises to something
      that still ends with that name, after a separator or alone. */
  lemma NormalizeEndsWithName(joined: string, xs: seq<string>, name: string)
    requires joined != [] && PlainName(name)
    requires Split(joined) == xs + [name]
    requires joined[|joined| - 1] != '/'
    ensures EndsWithName(Normalize(joined), name)
  {
    var isAbs := joined[0] == '/';
    ResolveAppend(xs, [name], [], !isAbs);
    var st := Resolve(xs, [], !isAbs);
    assert Resolve([name], st, !isAbs) == st + [name];
    assert Resolve(Split(joined), [], !isAbs) == st + [name];
    JoinSegsSnoc(st, name);
    FinishEndsWithName(isAbs, if st == [] then "" else JoinSegs(st) + "/", name);
  }

  lemma FinishEndsWithName(isAbs: bool, x0: string, name: string)
    requires name != []
    requires x0 == [] || x0[|x0| - 1] == '/'
    ensures EndsWithName(Finish(isAbs, false, x0 + name), name)
  {
    var x := if isAbs then "/" + x0 else x0;
    assert Finish(isAbs, false, x0 + name) == x + name;
    assert (x + name)[|x|..] == name;
  }

  /** `p` is some prefix, empty or ending in a separator, followed by `name`. */
  predicate EndsWithName(p: string, name: string) {
    |name| <= |p| && p[|p| - |name|..] == name &&
    (|p| == |name| || p[|p| - |name| - 1] == '/')
  }

  /** Joining a plain name onto any directory puts the name last, after a
      separator or alone. */
  lemma JoinEndsWithName(dir: string, name: string)
    requires PlainName(name)
    ensures EndsWithName(Join(dir, name), name)
  {
    SplitNoSlash(name);
    if dir == [] {
      assert Split(name) == [] + [name];
      NormalizeEndsWithName(name, [], name);
    } else {
      var joined := dir + "/" + name;
      SplitAround(dir, name);
      assert joined[|joined| - 1] == name[|name| - 1];
      NormalizeEndsWithName(joined, Split(dir), name);
    }
  }

  lemma LastSegmentAfter(x: string, name: string)
    requires name != [] && NoSlash(name)
    requires x == [] || x[|x| - 1] == '/'
    ensures LastSegment(x + name) == name
  {
    var p := x + name;
    assert TrimTrailing(p) == p;
    SegmentStartAfter(x, name);
  }

  lemma {:induction false} SegmentStartAfter(x: string, name: string)
    requires NoSlash(name)
    requires x == [] || x[|x| - 1] == '/'
    ensures SegmentStart(x + name) == |x|
    decreases |name|
  {
    if name == [] {
      assert x + name == x;
      if x != [] {
        assert x[..|x| - 1] + [x[|x| - 1]] == x;
      }
    } else {
      var p := x + name;
      assert p[..|p| - 1] == x + name[..|name| - 1];
      SegmentStartAfter(x, name[..|name| - 1]);
    }
  }

  /** A file named `stem.ext` written into any directory has stem `stem`
      and extension `.ext`. */
  lemma NamedFile(dir: string, stem: string, ext: string)
    requires stem != [] && NoSlash(stem) && NoSlash(ext) && NoDot(ext)
    requires stem + "." + ext != ".."
    ensures ExtName(Join(dir, stem + "." + ext)) == "." + ext
    ensures Stem(Join(dir, stem + "." + ext)) == stem
  {
    var name := stem + "." + ext;
    assert PlainName(name);
    JoinEndsWithName(dir, name);
    EndsWithNameLast(Join(dir, name), name);
    NameParts(stem, ext);
  }

  lemma EndsWithNameLast(p: string, name: string)
    requires name != [] && NoSlash(name) && EndsWithName(p, name)
    ensures LastSegment(p) == name
  {
    var x := p[..|p| - |name|];
    assert p == x + name;
    LastSegmentAfter(x, name);
  }

  /** The component `stem.ext` has extension `.ext` and stem `stem`. */
  lemma NameParts(stem: string, ext: string)
    requires stem != [] && NoDot(ext)
    requires stem + "." + ext != ".."
    ensures SegExt(stem + "." + ext) == "." + ext
    ensures (stem + "." + ext)[..|stem + "." + ext| - |"." + ext|] == stem
  {
    var name := stem + "." + ext;
    assert LastDot(name) == Some(|stem|) by {
      assert name[|stem|] == '.';
      assert name[|stem| + 1..] == ext;
      LastDotAt(name, |stem|);
    }
    assert name[|stem|..] == "." + ext;
    assert name[..|stem|] == stem;
  }

  lemma {:induction false} LastDotAt(s: string, d: nat)
    requires d < |s| && s[d] == '.' && NoDot(s[d + 1..])
    ensures LastDot(s) == Some(d)
    decreases |s|
  {
    if d < |s| - 1 {
      assert s[d + 1..][|s| - 1 - (d + 1)] == s[|s| - 1];
      var t := s[..|s| - 1];
      assert t[d + 1..] == s[d + 1..|s| - 1];
      LastDotAt(t, d);
    }
  }

  /** `normalize` leaves a relative path made of plain names as it is. */
  lemma NormalizePlainRelative(segs: seq<string>)
    requires |segs| >= 1
    requires forall i :: 0 <= i < |segs| ==> PlainName(segs[i])
    ensures Normalize(JoinSegs(segs)) == JoinSegs(segs)
  {
    var p := JoinSegs(segs);
    SplitJoin(segs);
    ResolvePlain(segs, [], true);
    LastNotSlash(segs);
    FirstNotSlash(segs);
    assert Resolve(Split(p), [], true) == segs;
  }

  /** `normalize` leaves an absolute path made of plain names as it is. */
  lemma NormalizePlainAbsolute(segs: seq<string>)
    requires |segs| >= 1
    requires forall i :: 0 <= i < |segs| ==> PlainName(segs[i])
    ensures Normalize("/" + JoinSegs(segs)) == "/" + JoinSegs(segs)
  {
    var body := JoinSegs(segs);
    var p := "/" + body;
    SplitRooted(segs);
    ResolvePlain(segs, [], false);
    assert Resolve(Split(p), [], false) == segs;
    LastNotSlash(segs);
    assert p[|p| - 1] == body[|body| - 1];
    assert Normalize(p) == Finish(true, false, body);
  }

  lemma SplitRooted(segs: seq<string>)
    requires |segs| >= 1
    requires forall i :: 0 <= i < |segs| ==> NoSlash(segs[i])
    ensures Split("/" + JoinSegs(segs)) == [""] + segs
  {
    var body := JoinSegs(segs);
    SplitJoin(segs);
    SplitAround("", body);
    assert "/" + body == "" + "/" + body;
  }

  lemma {:induction false} LastNotSlash(segs: seq<string>)
    requires |segs| >= 1
    requires forall i :: 0 <= i < |segs| ==> PlainName(segs[i])
    ensures JoinSegs(segs) != [] && JoinSegs(segs)[|JoinSegs(segs)| - 1] != '/'
    decreases |segs|
  {
    if |segs| > 1 {
      LastNotSlash(segs[1..]);
    }
  }

  lemma FirstNotSlash(segs: seq<string>)
    requires |segs| >= 1
    requires forall i :: 0 <= i < |segs| ==> PlainName(segs[i])
    ensures JoinSegs(segs) != [] && JoinSegs(segs)[0] != '/'
  {
    assert segs[0][0] != '/';
  }
}
