/** Slash-separated paths as text and as segments. */
module Paths {

  // Up to and including the first slash; all of a text without one.
  function UpToSlash(s: string): string {
    if s == "" then "" else if s[0] == '/' then "/" else [s[0]] + UpToSlash(s[1..])
  }

  lemma {:induction false} UpToSlashEnds(s: string)
    requires '/' in s
    ensures UpToSlash(s) != "" && UpToSlash(s)[|UpToSlash(s)| - 1] == '/'
  {
    if s[0] != '/' { UpToSlashEnds(s[1..]); }
  }

  lemma {:induction false} FirstSegment(a: string, b: string)
    requires '/' !in a
    ensures UpToSlash(a + "/" + b) == a + "/"
  {
    if a == "" {
      assert a + "/" + b == "/" + b;
    } else {
      var s := a + "/" + b;
      assert s[0] == a[0] && a[0] in a && s[1..] == a[1..] + "/" + b;
      FirstSegment(a[1..], b);
      assert [a[0]] + (a[1..] + "/") == a + "/";
    }
  }

  lemma {:induction false} UpToSlashExtends(s: string, t: string)
    requires '/' in s
    ensures UpToSlash(s + t) == UpToSlash(s)
  {
    if s[0] != '/' {
      assert s == [s[0]] + s[1..] && (s + t)[1..] == s[1..] + t;
      UpToSlashExtends(s[1..], t);
    }
  }

  // Two slash-free first segments under one text are one.
  lemma SamePrefixSegment(a: string, b: string, a': string, b': string, s: string)
    requires '/' !in a && '/' !in a' && a + "/" + b <= s && a' + "/" + b' <= s
    ensures a == a' && b <= s[|a| + 1..] && b' <= s[|a| + 1..]
  {
    var p, p' := a + "/" + b, a' + "/" + b';
    assert s == p + s[|p|..] && s == p' + s[|p'|..];
    assert p[|a|] == '/' && p'[|a'|] == '/';
    FirstSegment(a, b);
    FirstSegment(a', b');
    UpToSlashExtends(p, s[|p|..]);
    UpToSlashExtends(p', s[|p'|..]);
    assert (a + "/")[..|a|] == a && (a' + "/")[..|a'|] == a';
    assert s[|a| + 1..][..|b|] == p[|a| + 1..] == b;
    assert s[|a| + 1..][..|b'|] == p'[|a'| + 1..] == b';
  }

  // The segments of a path, cut at every slash.
  function Segments(p: string): (r: seq<string>)
    ensures r != []
  {
    if p == "" then [""] else Extended(Segments(p[..|p| - 1]), p[|p| - 1])
  }

  function Extended(segs: seq<string>, c: char): (r: seq<string>)
    requires segs != []
    ensures r != []
  {
    if c == '/' then segs + [""] else segs[..|segs| - 1] + [segs[|segs| - 1] + [c]]
  }

  lemma ExtendedAppend(l: seq<string>, r: seq<string>, c: char)
    requires r != []
    ensures Extended(l + r, c) == l + Extended(r, c)
  {
    assert (l + r)[..|l + r| - 1] == l + r[..|r| - 1];
    assert (l + r)[|l + r| - 1] == r[|r| - 1];
  }

  lemma {:induction false} SegmentsJoin(a: string, b: string)
    ensures Segments(a + "/" + b) == Segments(a) + Segments(b)
  {
    if b == "" {
      assert a + "/" + b == a + ['/'];
    } else {
      var c, x := b[..|b| - 1], b[|b| - 1];
      SegmentsJoin(a, c);
      assert a + "/" + b == (a + "/" + c) + [x];
      ExtendedAppend(Segments(a), Segments(c), x);
    }
  }

  lemma {:induction false} OneSegment(a: string)
    requires '/' !in a
    ensures Segments(a) == [a]
  {
    if a != "" {
      var b, x := a[..|a| - 1], a[|a| - 1];
      assert a == b + [x] && x in a;
      assert '/' !in b;
      OneSegment(b);
      assert [b][..0] + [[b][0] + [x]] == [b + [x]];
    }
  }

  lemma SegmentsOfThree(a: string, name: string, b: string)
    requires '/' !in name
    ensures Segments((a + "/" + name) + "/" + b) == Segments(a) + ([name] + Segments(b))
  {
    SegmentsJoin(a + "/" + name, b);
    SegmentsJoin(a, name);
    OneSegment(name);
    assert (Segments(a) + [name]) + Segments(b) == Segments(a) + ([name] + Segments(b));
  }

  predicate Ordinary(seg: string) { seg != "" && seg != "." && seg != ".." }

  // Where a path leads: "" and "." stay, ".." goes up, and cannot leave the top.
  function Resolve(segs: seq<string>): seq<string> {
    if segs == [] then []
    else
      var r, s := Resolve(segs[..|segs| - 1]), segs[|segs| - 1];
      if s == "" || s == "." then r
      else if s == ".." then if r == [] then [] else r[..|r| - 1]
      else r + [s]
  }

  lemma {:induction false} ResolveOrdinary(a: seq<string>, b: seq<string>)
    requires forall s <- b :: Ordinary(s)
    ensures Resolve(a + b) == Resolve(a) + b
  {
    if b == [] {
      assert a + b == a;
    } else {
      assert b[|b| - 1] in b;
      assert (a + b)[..|a + b| - 1] == a + b[..|b| - 1];
      ResolveOrdinary(a, b[..|b| - 1]);
    }
  }

  /* ---- path.Clean and path.Dir of the Go standard library ---- */

  function CleanSegments(rooted: bool, segs: seq<string>): seq<string> {
    if segs == [] then []
    else
      var r, s := CleanSegments(rooted, segs[..|segs| - 1]), segs[|segs| - 1];
      if s == "" || s == "." then r
      else if s != ".." then r + [s]
      else if r != [] && r[|r| - 1] != ".." then r[..|r| - 1]
      else if rooted then r
      else r + [s]
  }

  function JoinSlash(segs: seq<string>): string {
    if segs == [] then ""
    else if |segs| == 1 then segs[0]
    else JoinSlash(segs[..|segs| - 1]) + "/" + segs[|segs| - 1]
  }

  function Clean(p: string): string {
    var rooted := p != "" && p[0] == '/';
    var segs := CleanSegments(rooted, Segments(p));
    if rooted then "/" + JoinSlash(segs) else if segs == [] then "." else JoinSlash(segs)
  }

  // Up to and including the last slash; nothing of a text without one.
  function Directory(p: string): string {
    if p == "" || p[|p| - 1] == '/' then p else Directory(p[..|p| - 1])
  }

  function DirOf(p: string): string { Clean(Directory(p)) }

  lemma {:induction false} DirectorySplits(p: string) returns (name: string)
    ensures p == Directory(p) + name && '/' !in name
    ensures Directory(p) != "" ==> Directory(p)[|Directory(p)| - 1] == '/'
  {
    if p == "" || p[|p| - 1] == '/' {
      name := "";
    } else {
      name := DirectorySplits(p[..|p| - 1]);
      name := name + [p[|p| - 1]];
      assert p == p[..|p| - 1] + [p[|p| - 1]];
    }
  }

  lemma {:induction false} CleanOrdinary(rooted: bool, segs: seq<string>)
    requires forall s <- segs :: Ordinary(s)
    ensures CleanSegments(rooted, segs) == segs == CleanSegments(rooted, segs + [""])
  {
    assert (segs + [""])[..|segs|] == segs;
    if segs != [] {
      var init, last := segs[..|segs| - 1], segs[|segs| - 1];
      CleanOrdinary(rooted, init);
      assert last in segs && segs == init + [last];
    }
  }

  lemma {:induction false} JoinSegments(p: string)
    ensures JoinSlash(Segments(p)) == p
  {
    if p != "" {
      var q, x := p[..|p| - 1], p[|p| - 1];
      JoinSegments(q);
      var segs := Segments(q);
      assert p == q + [x];
      if x == '/' {
        assert (segs + [""])[..|segs|] == segs;
      } else {
      }
    }
  }

  // The directory of a path of ordinary segments is what stands before its last slash.
  lemma DirOfOrdinary(d: string, name: string)
    requires '/' !in name && forall s <- Segments(d) :: Ordinary(s)
    ensures DirOf(d + "/" + name) == d && d != "."
  {
    var p := d + "/" + name;
    DirectoryOf(d + "/", name);
    SegmentsJoin(d, "");
    assert d + "/" + "" == d + "/" && Segments("") == [""];
    CleanOrdinary(false, Segments(d));
    JoinSegments(d);
    if d == "." { OneSegment("."); }
    if d == "" || d[0] == '/' { RootedSegment(d); }
  }

  lemma RootedSegment(d: string)
    requires d == "" || d[0] == '/'
    ensures "" in Segments(d)
  {
    if d != "" {
      SegmentsJoin("", d[1..]);
      assert d == "" + "/" + d[1..];
    }
  }

  lemma {:induction false} DirectoryOf(d: string, name: string)
    requires d != "" && d[|d| - 1] == '/' && '/' !in name
    ensures Directory(d + name) == d
  {
    if name == "" {
      assert d + name == d;
    } else {
      var init, last := name[..|name| - 1], name[|name| - 1];
      assert last in name && (d + name)[..|d + name| - 1] == d + init && (d + name)[|d + name| - 1] == last;
      DirectoryOf(d, init);
    }
  }
}
