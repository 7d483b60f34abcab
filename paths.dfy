/** The `std::path` operations the generator applies to file paths, over
    `/`-separated path strings. */
module Paths {
  import opened Errors

  /** The index of the last `c` among the first `n` characters of `s`, or
      -1 when there is none. */
  function LastIndexBefore(s: string, c: char, n: nat): (i: int)
    requires n <= |s|
    ensures -1 <= i < n
  {
    if n == 0 then -1
    else if s[n - 1] == c then n - 1
    else LastIndexBefore(s, c, n - 1)
  }

  /** The index found holds a `c`, and no `c` comes after it. */
  lemma {:induction false} LastIndexBeforeSpec(s: string, c: char, n: nat)
    requires n <= |s|
    ensures LastIndexBefore(s, c, n) >= 0 ==> s[LastIndexBefore(s, c, n)] == c
    ensures forall j :: LastIndexBefore(s, c, n) < j < n ==> s[j] != c
  {
    if n > 0 && s[n - 1] != c {
      LastIndexBeforeSpec(s, c, n - 1);
    }
  }

  function LastIndexOf(s: string, c: char): (i: int)
    ensures -1 <= i < |s|
  {
    LastIndexBefore(s, c, |s|)
  }

  /** A component of a path, as `Path::components` yields it on Unix. */
  datatype Component = RootDir | CurDir | ParentDir | Normal(name: string)

  /** The texts between the separators, in order: `a//b/` has the four
      segments `a`, ``, `b` and ``. */
  function Segments(p: string): (segs: seq<string>)
    ensures |segs| >= 1 && (|segs| == 1 ==> segs[0] == p)
    decreases |p|
  {
    var i := LastIndexOf(p, '/');
    if i < 0 then [p] else Segments(p[..i]) + [p[i + 1..]]
  }

  /** What one segment contributes: an empty segment or `.` is no
      component, `..` is the parent. */
  function SegmentComponents(s: string): seq<Component>
  {
    if s == "" || s == "." then [] else if s == ".." then [ParentDir] else [Normal(s)]
  }

  function BodyComponents(segs: seq<string>): seq<Component>
  {
    if segs == [] then [] else BodyComponents(segs[..|segs| - 1]) + SegmentComponents(segs[|segs| - 1])
  }

  /** The components before the body: the root when the path starts with
      `/` (an empty first segment followed by others), or the current
      directory when the first segment is `.`. */
  function Start(segs: seq<string>): seq<Component>
    requires |segs| >= 1
  {
    if |segs| >= 2 && segs[0] == "" then [RootDir]
    else if segs[0] == "." then [CurDir]
    else []
  }

  /** `Path::components`: repeated separators and `.` anywhere but at the
      start yield nothing, so `a//b`, `a/./b` and `a/b/` all have the
      components `a`, `b`. */
  function Components(p: string): seq<Component>
  {
    var segs := Segments(p);
    Start(segs) + BodyComponents(segs)
  }

  /** The name of the last component, when that is a normal one. */
  function LastName(cs: seq<Component>): Option<string>
  {
    if cs != [] && cs[|cs| - 1].Normal? then Some(cs[|cs| - 1].name) else None
  }

  /** `Path::file_name`: the last component, unless it is the root, `.` or
      `..`; `foo.txt/.` has the file name `foo.txt`. */
  function FileName(p: string): Option<string>
  {
    LastName(Components(p))
  }

  /** `Path::parent`, given by its components: those of the path without its
      last one; none for the empty path and the root. */
  function Parent(p: string): Option<seq<Component>>
  {
    var cs := Components(p);
    if cs == [] || cs[|cs| - 1] == RootDir then None else Some(cs[..|cs| - 1])
  }

  /** The stem of a file name: up to its last `.`, or the whole name when it
      has no `.` or only a leading one. */
  function NameStem(name: string): string
  {
    var i := LastIndexOf(name, '.');
    if i <= 0 then name else name[..i]
  }

  /** The stem of the last component's name, when that is a normal one. */
  function LastStem(cs: seq<Component>): Option<string>
  {
    match LastName(cs)
    case None => None
    case Some(name) => Some(NameStem(name))
  }

  /** `Path::file_stem`. */
  function FileStem(p: string): Option<string>
  {
    LastStem(Components(p))
  }

  /** `parent().file_stem()`: the stem of the parent's file name. */
  function ParentStem(p: string): Option<string>
  {
    match Parent(p)
    case None => None
    case Some(cs) => LastStem(cs)
  }

  /** `Path::join` with a single file name: a separator is added unless the
      directory is empty or already ends in one. */
  function Join(dir: string, name: string): string
  {
    if dir == "" || dir[|dir| - 1] == '/' then dir + name else dir + "/" + name
  }

  /** What `read_dir` can list inside a directory: a non-empty name without a
      separator, other than `.` and `..`. */
  predicate IsEntryName(name: string)
  {
    name != "" && name != "." && name != ".." && '/' !in name
  }

  /** The last `c` is the only occurrence of `c` with none after it. */
  lemma LastIndexOfUnique(s: string, c: char, i: int)
    requires -1 <= i < |s| && (i >= 0 ==> s[i] == c)
    requires forall j :: i < j < |s| ==> s[j] != c
    ensures LastIndexOf(s, c) == i
  {
    LastIndexBeforeSpec(s, c, |s|);
  }

  lemma LastIndexOfAppend(s: string, t: string, c: char)
    requires c !in t
    ensures LastIndexOf(s + t, c) == LastIndexOf(s, c)
  {
    var i := LastIndexOf(s, c);
    LastIndexBeforeSpec(s, c, |s|);
    forall j | i < j < |s + t|
      ensures (s + t)[j] != c
    {
      if j >= |s| {
        assert (s + t)[j] == t[j - |s|];
      }
    }
    LastIndexOfUnique(s + t, c, i);
  }

  /** A separator and a segment appended to a path add that segment's
      component at the end. */
  lemma SegmentsAppend(d: string, seg: string)
    requires '/' !in seg
    ensures Segments(d + "/" + seg) == Segments(d) + [seg]
  {
    var p := d + "/" + seg;
    LastIndexOfAppend(d + "/", seg, '/');
    LastIndexOfUnique(d + "/", '/', |d|);
    assert p[..|d|] == d && p[|d| + 1..] == seg;
  }

  /** A segment appended to a path adds its component to the body; the
      start stays that of any other path with the same leading segments. */
  lemma AppendedSegment(d: string, seg: string)
    requires '/' !in seg
    ensures Components(d + "/" + seg) ==
              Start(Segments(d) + [seg]) + BodyComponents(Segments(d)) + SegmentComponents(seg)
    ensures d != "" ==> Start(Segments(d) + [seg]) == Start(Segments(d))
  {
    SegmentsAppend(d, seg);
    var segs := Segments(d) + [seg];
    assert segs[..|segs| - 1] == Segments(d);
  }

  /** Appending a separator and a segment to a non-empty path appends that
      segment's component, so a repeated separator or a `.` segment adds
      nothing. */
  lemma ComponentsAppend(d: string, seg: string)
    requires d != "" && '/' !in seg
    ensures Components(d + "/" + seg) == Components(d) + SegmentComponents(seg)
  {
    AppendedSegment(d, seg);
  }

  /** A bare entry name is one normal component. */
  lemma NameComponents(name: string)
    requires IsEntryName(name)
    ensures Components(name) == [Normal(name)]
  {
    LastIndexOfUnique(name, '/', -1);
    assert BodyComponents([name]) == BodyComponents([]) + [Normal(name)];
  }

  lemma EmptyComponents()
    ensures Components("") == []
  {
  }

  /** A directory written with a trailing separator, the root included, has
      the entry name appended as it would be without the separator. */
  lemma TrailingSeparator(d: string, name: string)
    requires IsEntryName(name)
    ensures Components(d + "/" + name) == Components(d + "/" + "") + [Normal(name)]
  {
    AppendedSegment(d, name);
    AppendedSegment(d, "");
    LastSegmentNoStart(Segments(d), name, "");
    var front := Start(Segments(d) + [""]) + BodyComponents(Segments(d));
    assert SegmentComponents("") == [] && front + [] == front;
    assert SegmentComponents(name) == [Normal(name)];
  }

  /** Past the first segment, the last segment does not change the start. */
  lemma LastSegmentNoStart(segs: seq<string>, a: string, b: string)
    requires |segs| >= 1
    ensures Start(segs + [a]) == Start(segs + [b])
  {
  }

  lemma JoinedComponents(dir: string, name: string)
    requires IsEntryName(name)
    ensures Components(Join(dir, name)) == Components(dir) + [Normal(name)]
  {
    if dir == "" {
      NameComponents(name);
      EmptyComponents();
      assert Join(dir, name) == name;
    } else if dir[|dir| - 1] == '/' {
      var d := dir[..|dir| - 1];
      assert dir == d + "/" + "" && Join(dir, name) == d + "/" + name;
      TrailingSeparator(d, name);
    } else {
      ComponentsAppend(dir, name);
    }
  }

  /** Joining an entry name onto a directory appends it as a normal
      component: the joined path has the name as its file name and the
      directory's components as its parent, as for `DirEntry::path`. */
  lemma JoinedPath(dir: string, name: string)
    requires IsEntryName(name)
    ensures FileName(Join(dir, name)) == Some(name)
    ensures Parent(Join(dir, name)) == Some(Components(dir))
  {
    JoinedComponents(dir, name);
    var cs := Components(Join(dir, name));
    assert cs[..|cs| - 1] == Components(dir);
  }

  /** A segment without a component before an entry name changes no
      component of the path. */
  lemma SkippedSegment(dir: string, seg: string, name: string)
    requires dir != "" && IsEntryName(name) && '/' !in seg && SegmentComponents(seg) == []
    ensures Components(dir + "/" + seg + "/" + name) == Components(dir + "/" + name)
  {
    var mid := dir + "/" + seg;
    ComponentsAppend(dir, seg);
    assert Components(mid) == Components(dir);
    ComponentsAppend(mid, name);
    ComponentsAppend(dir, name);
  }

  /** A repeated separator or a `.` segment before an entry name changes no
      component of the path. */
  lemma RedundantSegments(dir: string, name: string)
    requires dir != "" && IsEntryName(name)
    ensures Components(dir + "//" + name) == Components(dir + "/" + name)
    ensures Components(dir + "/./" + name) == Components(dir + "/" + name)
  {
    assert dir + "//" + name == dir + "/" + "" + "/" + name;
    assert dir + "/./" + name == dir + "/" + "." + "/" + name;
    SkippedSegment(dir, "", name);
    SkippedSegment(dir, ".", name);
  }

  /** The stems a path yields depend only on its components. */
  lemma SameComponentsSameStems(p: string, q: string)
    requires Components(p) == Components(q)
    ensures FileStem(p) == FileStem(q) && ParentStem(p) == ParentStem(q)
  {
    assert Parent(p) == Parent(q);
  }

  /** A `read_dir` entry joined onto any directory keeps its own stem. */
  lemma EntryStem(dir: string, name: string)
    requires IsEntryName(name)
    ensures FileStem(name) == Some(NameStem(name))
    ensures FileStem(Join(dir, name)) == FileStem(name)
  {
    JoinedPath(dir, name);
    JoinedPath("", name);
    assert Join("", name) == name;
  }

  /** The stem of a name is everything before its last `.` found at a
      position after the first. */
  lemma StemBeforeDot(stem: string, ext: string)
    requires IsEntryName(stem + "." + ext) && '.' !in ext && stem != ""
    ensures FileStem(stem + "." + ext) == Some(stem)
  {
    var name := stem + "." + ext;
    EntryStem("", name);
    LastIndexOfAppend(stem + ".", ext, '.');
    LastIndexOfUnique(stem + ".", '.', |stem|);
    assert name[..|stem|] == stem;
  }

  /** A name without any `.` is its own stem. */
  lemma StemWithoutDot(name: string)
    requires IsEntryName(name) && '.' !in name
    ensures FileStem(name) == Some(name)
  {
    EntryStem("", name);
    LastIndexOfUnique(name, '.', -1);
  }
}
