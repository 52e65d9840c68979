/** The pieces of Python's `pathlib.PurePosixPath` the pipeline uses:
    `parts`, `name`, `suffix` and `stem`, and the `.csv` extension test
    shared by the schema scan and the combination step. */
module Paths {
  import opened Text

  // ---------------------------------------------------------------------
  // Splitting on '/'

  function FirstSlash(s: string): (i: nat)
    requires '/' in s
    ensures i < |s| && s[i] == '/' && '/' !in s[..i]
  {
    if s[0] == '/' then 0
    else
      assert '/' in s[1..] by { var k :| 0 <= k < |s| && s[k] == '/'; assert s[1..][k - 1] == '/'; }
      var j := FirstSlash(s[1..]);
      assert s[..j + 1] == [s[0]] + s[1..][..j];
      j + 1
  }

  /** `s.split('/')`: the maximal slash-free segments, empty ones included. */
  function Split(s: string): (r: seq<string>)
    ensures |r| >= 1
    ensures forall k :: 0 <= k < |r| ==> '/' !in r[k]
    decreases |s|
  {
    if '/' in s then
      var i := FirstSlash(s);
      [s[..i]] + Split(s[i + 1..])
    else [s]
  }

  /** `'/'.join(segments)`. */
  function Join(segments: seq<string>): string
    requires |segments| >= 1
  {
    if |segments| == 1 then segments[0] else segments[0] + "/" + Join(segments[1..])
  }

  /** Splitting and joining again gives back the original string. */
  lemma {:induction false} JoinSplit(s: string)
    ensures Join(Split(s)) == s
    decreases |s|
  {
    if '/' in s {
      var i := FirstSlash(s);
      JoinSplit(s[i + 1..]);
      assert Split(s)[1..] == Split(s[i + 1..]);
      assert s == s[..i] + "/" + s[i + 1..];
    }
  }

  lemma {:induction false} FirstSlashAfter(a: string, b: string)
    requires '/' !in a
    ensures '/' in a + "/" + b
    ensures FirstSlash(a + "/" + b) == |a|
  {
    var s := a + "/" + b;
    assert s[|a|] == '/';
    if a != [] {
      assert s[1..] == a[1..] + "/" + b;
      FirstSlashAfter(a[1..], b);
    }
  }

  lemma SplitSegment(a: string, b: string)
    requires '/' !in a
    ensures Split(a + "/" + b) == [a] + Split(b)
  {
    var s := a + "/" + b;
    FirstSlashAfter(a, b);
    assert s[..|a|] == a;
    assert s[|a| + 1..] == b;
  }

  // ---------------------------------------------------------------------
  // PurePosixPath.parts and .name

  /** Segments that name something: `pathlib` drops empty and "." segments. */
  predicate IsNamedSegment(seg: string)
  {
    seg != "" && seg != "."
  }

  function NamedSegments(segments: seq<string>): (r: seq<string>)
    ensures |r| <= |segments|
    ensures forall k :: 0 <= k < |r| ==> IsNamedSegment(r[k]) && r[k] in segments
    ensures (forall k :: 0 <= k < |segments| ==> IsNamedSegment(segments[k])) ==> r == segments
  {
    if segments == [] then []
    else if IsNamedSegment(segments[0]) then [segments[0]] + NamedSegments(segments[1..])
    else NamedSegments(segments[1..])
  }

  function LeadingSlashes(s: string): (n: nat)
    ensures n <= |s|
    ensures forall k :: 0 <= k < n ==> s[k] == '/'
    ensures n == |s| || s[n] != '/'
  {
    if s != [] && s[0] == '/' then 1 + LeadingSlashes(s[1..]) else 0
  }

  /** The anchor: POSIX keeps exactly two leading slashes, and folds one or
      three or more into a single "/". */
  function Root(path: string): seq<string>
  {
    var n := LeadingSlashes(path);
    if n == 0 then [] else if n == 2 then ["//"] else ["/"]
  }

  /** The components below the anchor. */
  function RelativeParts(path: string): (r: seq<string>)
    ensures forall k :: 0 <= k < |r| ==> IsNamedSegment(r[k]) && '/' !in r[k]
  {
    var segs := Split(path[LeadingSlashes(path)..]);
    var r := NamedSegments(segs);
    assert forall k :: 0 <= k < |r| ==> '/' !in r[k] by {
      forall k | 0 <= k < |r| ensures '/' !in r[k] {
        var m :| 0 <= m < |segs| && segs[m] == r[k];
      }
    }
    r
  }

  /** `PurePosixPath(path).parts`. */
  function Parts(path: string): seq<string>
  {
    Root(path) + RelativeParts(path)
  }

  /** `PurePosixPath(path).name`: the last component, "" for a bare anchor. */
  function Name(path: string): (r: string)
    ensures '/' !in r
  {
    var rel := RelativeParts(path);
    if rel == [] then "" else rel[|rel| - 1]
  }

  /** A relative path built from named, slash-free components has exactly
      those components below its (empty) anchor. */
  lemma {:induction false} RelativePartsOfJoin(components: seq<string>)
    requires |components| >= 1
    requires forall k :: 0 <= k < |components| ==> IsNamedSegment(components[k]) && '/' !in components[k]
    ensures LeadingSlashes(Join(components)) == 0
    ensures RelativeParts(Join(components)) == components
  {
    var p := Join(components);
    JoinStartsWithFirst(components);
    assert p[0] != '/' by { assert components[0][0] in components[0]; }
    assert p[0..] == p;
    SplitJoin(components);
  }

  /** Hence its parts are those components and its name is the last. */
  lemma {:induction false} PartsOfRelative(components: seq<string>)
    requires |components| >= 1
    requires forall k :: 0 <= k < |components| ==> IsNamedSegment(components[k]) && '/' !in components[k]
    ensures Parts(Join(components)) == components
    ensures Name(Join(components)) == components[|components| - 1]
  {
    RelativePartsOfJoin(components);
    PartsOfUnrooted(Join(components), components);
  }

  lemma PartsOfUnrooted(path: string, rel: seq<string>)
    requires LeadingSlashes(path) == 0 && RelativeParts(path) == rel && |rel| >= 1
    ensures Parts(path) == rel && Name(path) == rel[|rel| - 1]
  {
    assert Root(path) == [];
    assert Parts(path) == [] + rel;
  }

  lemma {:induction false} JoinStartsWithFirst(components: seq<string>)
    requires |components| >= 1 && components[0] != ""
    ensures Join(components) != [] && Join(components)[0] == components[0][0]
  {
  }

  lemma {:induction false} SplitJoin(components: seq<string>)
    requires |components| >= 1
    requires forall k :: 0 <= k < |components| ==> '/' !in components[k]
    ensures Split(Join(components)) == components
  {
    if |components| == 1 {
      assert Split(components[0]) == [components[0]];
    } else {
      var rest := components[1..];
      assert forall k :: 0 <= k < |rest| ==> '/' !in rest[k] by {
        forall k | 0 <= k < |rest| ensures '/' !in rest[k] { assert rest[k] == components[k + 1]; }
      }
      SplitJoin(rest);
      SplitJoinCons(components[0], rest);
      assert [components[0]] + rest == components;
    }
  }

  /** The inductive step of `SplitJoin`: one more slash-free component in
      front. */
  lemma SplitJoinCons(a: string, rest: seq<string>)
    requires '/' !in a && |rest| >= 1 && Split(Join(rest)) == rest
    ensures Split(Join([a] + rest)) == [a] + rest
  {
    var l := [a] + rest;
    assert l[0] == a && l[1..] == rest;
    assert Join(l) == a + "/" + Join(rest);
    SplitSegment(a, Join(rest));
  }

  // ---------------------------------------------------------------------
  // PurePosixPath.suffix and .stem

  function LastDot(name: string): (i: int)
    ensures -1 <= i < |name|
    ensures i >= 0 ==> name[i] == '.'
    ensures forall k :: i < k < |name| ==> name[k] != '.'
  {
    if name == [] then -1
    else if name[|name| - 1] == '.' then |name| - 1
    else LastDot(name[..|name| - 1])
  }

  /** The final extension is taken only when the last dot is neither the
      first nor the last character of the name. */
  predicate HasSuffix(name: string)
  {
    0 < LastDot(name) < |name| - 1
  }

  /** `PurePosixPath.suffix` for a final component `name`. */
  function Suffix(name: string): (r: string)
    ensures r == [] || (|r| >= 2 && r[0] == '.' && '.' !in r[1..])
  {
    if HasSuffix(name) then
      var r := name[LastDot(name)..];
      assert forall k :: 0 <= k < |r| - 1 ==> r[1..][k] == name[LastDot(name) + 1 + k];
      r
    else ""
  }

  /** `PurePosixPath.stem` for a final component `name`. */
  function Stem(name: string): string
  {
    if HasSuffix(name) then name[..LastDot(name)] else name
  }

  /** The stem and the suffix split the name, and the stem of a non-empty
      name is non-empty. */
  lemma StemSuffix(name: string)
    ensures Stem(name) + Suffix(name) == name
    ensures name != [] ==> Stem(name) != []
  {
  }

  /** A name made of a non-empty stem and a dot-led dot-free extension has
      exactly that stem and that suffix. */
  lemma StemOfExtension(stem: string, ext: string)
    requires stem != []
    requires ext != [] && '.' !in ext
    ensures Suffix(stem + "." + ext) == "." + ext
    ensures Stem(stem + "." + ext) == stem
  {
    var name := stem + "." + ext;
    assert name[|stem|] == '.';
    assert LastDot(name) == |stem|;
  }

  // ---------------------------------------------------------------------
  // The extension filter `suffix.lower() in (".csv")`

  /** `(".csv")` is a plain string, so `in` is a substring test. */
  predicate PassesCsvFilter(name: string)
  {
    Contains(".csv", Lower(Suffix(name)))
  }

  /** Because the parenthesised literal is a string, not a tuple, the test
      accepts a name without extension and the truncated extensions ".c"
      and ".cs" besides ".csv" (in any letter case), and nothing else. */
  lemma CsvFilterAccepts(name: string)
    ensures PassesCsvFilter(name) <==> Lower(Suffix(name)) in {"", ".c", ".cs", ".csv"}
  {
    var x := Lower(Suffix(name));
    if x in {"", ".c", ".cs", ".csv"} {
      if x == "" { ContainsAt(".csv", x, 0); }
      else { assert ".csv"[0..|x|] == x; ContainsAt(".csv", x, 0); }
    }
    if PassesCsvFilter(name) && x != "" {
      var i, j :| 0 <= i <= j <= 4 && ".csv"[i..j] == x;
      assert |x| >= 2 && x[0] == '.';
      assert ".csv"[i] == '.';
      assert i == 0;
      if j == 2 { assert ".csv"[0..2] == ".c"; }
      else if j == 3 { assert ".csv"[0..3] == ".cs"; }
      else { assert ".csv"[0..4] == ".csv"; }
    }
  }
}
