/** The image path helpers (src/utils/image-paths.ts): where uploads are
    stored, the public path a stored file is served under, and which public
    paths a delete may touch. Paths use the POSIX separator. */
module ImagePaths {
  import opened Common

  const ImagePublicRoot: string := "uploads" + "/" + "images"

  /** The segments of the public root (see RootSplits). */
  const RootSegments: seq<string> := ["uploads", "images"]

  // ------------------------------------------------------------------
  // Segments and path.posix.join
  // ------------------------------------------------------------------

  /** `s.split("/")`. */
  function Split(s: string): (r: seq<string>)
    ensures |r| >= 1
  {
    if s == [] then [""]
    else
      var t := Split(s[1..]);
      if s[0] == '/' then [""] + t else [[s[0]] + t[0]] + t[1..]
  }

  /** `segs.join("/")`. */
  function JoinWith(segs: seq<string>): string
  {
    if segs == [] then "" else if |segs| == 1 then segs[0] else segs[0] + "/" + JoinWith(segs[1..])
  }

  /** A segment that normalisation keeps as it is. */
  predicate Plain(seg: string)
  {
    seg != "" && seg != "." && seg != ".." && '/' !in seg
  }

  /** The shape of a normalised relative path: no empty or "." segment, and
      every ".." comes before all other segments. */
  predicate NormalSegments(st: seq<string>)
  {
    && (forall i :: 0 <= i < |st| ==> st[i] != "" && st[i] != ".")
    && (forall i, j :: 0 <= i < j < |st| && st[j] == ".." ==> st[i] == "..")
  }

  /** The segment walk of path.posix.normalize on a relative path: empty
      and "." segments vanish, ".." removes the segment before it, or is
      kept when there is none (or only ".." segments) before it. */
  function Collapse(stack: seq<string>, segs: seq<string>): (r: seq<string>)
    ensures NormalSegments(stack) ==> NormalSegments(r)
    decreases |segs|
  {
    if segs == [] then stack
    else if segs[0] == "" || segs[0] == "." then Collapse(stack, segs[1..])
    else if segs[0] == ".." then
      if stack != [] && stack[|stack| - 1] != ".." then Collapse(stack[..|stack| - 1], segs[1..])
      else Collapse(stack + [".."], segs[1..])
    else Collapse(stack + [segs[0]], segs[1..])
  }

  /** path.posix.join(IMAGE_PUBLIC_ROOT, ...destParts, filename) for a
      destination given relative to the upload root. `relativeDest` is what
      path.relative returns, which is not part of this model. */
  function PublicImagePathFromFile(relativeDest: string, filename: string): string
  {
    var destParts := if relativeDest == "" then [] else Split(relativeDest);
    var joined := JoinWith(Collapse([], RootSegments + destParts + Split(filename)));
    var trailing := filename != [] && filename[|filename| - 1] == '/';
    if joined == "" then (if trailing then "./" else ".")
    else if trailing then joined + "/" else joined
  }

  lemma {:induction false} SplitPlainPrefix(a: string, rest: string)
    requires '/' !in a
    ensures Split(a + "/" + rest) == [a] + Split(rest)
  {
    if a == [] {
      assert ("/" + rest)[1..] == rest;
    } else {
      assert (a + "/" + rest)[1..] == a[1..] + "/" + rest;
      SplitPlainPrefix(a[1..], rest);
      assert [a[0]] + a[1..] == a;
    }
  }

  lemma {:induction false} SplitPlain(a: string)
    requires '/' !in a
    ensures Split(a) == [a]
  {
    if a != [] {
      SplitPlain(a[1..]);
      assert [a[0]] + a[1..] == a;
    }
  }

  lemma {:induction false} CollapsePlain(stack: seq<string>, segs: seq<string>)
    requires forall i :: 0 <= i < |segs| ==> Plain(segs[i])
    ensures Collapse(stack, segs) == stack + segs
    decreases |segs|
  {
    if segs != [] {
      CollapsePlain(stack + [segs[0]], segs[1..]);
      assert stack + [segs[0]] + segs[1..] == stack + segs;
    }
  }

  lemma {:induction false} JoinWithPlain(a: string, segs: seq<string>)
    requires segs != []
    ensures JoinWith([a] + segs) == a + "/" + JoinWith(segs)
  {
    assert ([a] + segs)[1..] == segs;
  }

  // ------------------------------------------------------------------
  // getImageUploadDir
  // ------------------------------------------------------------------

  /** The local calendar fields of a valid date: the full year and the
      zero-based month of getMonth(). */
  datatype CalendarDate = CalendarDate(year: int, month: int)

  /** `s.padStart(2, "0")`. */
  function PadStart2(s: string): (r: string)
    ensures |s| >= 2 ==> r == s
    ensures |s| < 2 ==> |r| == 2 && r[2 - |s|..] == s && forall i :: 0 <= i < 2 - |s| ==> r[i] == '0'
  {
    if |s| >= 2 then s else if |s| == 1 then "0" + s else "00"
  }

  /** The year and month segments; an Invalid Date (None) gives "NaN" for both. */
  function UploadSubdir(date: Option<CalendarDate>): (r: string)
    requires date.Some? ==> 0 <= date.value.month < 12
    ensures date.None? ==> r == "NaN/NaN"
    ensures date.Some? ==>
              var m := date.value.month + 1;
              r == IntString(date.value.year) + "/" + [Digit(m / 10), Digit(m % 10)]
  {
    assert date.Some? && date.value.month + 1 >= 10 ==>
             NatString(date.value.month + 1) == NatString(1) + [Digit((date.value.month + 1) % 10)];
    if date.None? then "NaN/NaN"
    else IntString(date.value.year) + "/" + PadStart2(NatString(date.value.month + 1))
  }

  /** getImageUploadDir: uploads/images/<year>/<MM>, MM the month number
      1-12 written with two digits. */
  function ImageUploadDir(date: Option<CalendarDate>): (dir: string)
    requires date.Some? ==> 0 <= date.value.month < 12
    ensures date.None? ==> dir == "uploads/images/NaN/NaN"
    ensures date.Some? ==>
              var m := date.value.month + 1;
              dir == ImagePublicRoot + "/" + IntString(date.value.year) + "/" + [Digit(m / 10), Digit(m % 10)]
  {
    ImagePublicRoot + "/" + UploadSubdir(date)
  }

  lemma NoSlashInIntString(n: int)
    ensures '/' !in IntString(n)
  {
    var s := IntString(n);
    if n >= 0 {
      assert forall i :: 0 <= i < |s| ==> IsDigit(s[i]);
    } else {
      var d := NatString(-n);
      assert forall i :: 0 <= i < |d| ==> IsDigit(d[i]);
      assert s == "-" + d;
    }
  }

  lemma RootSplits()
    ensures Split(ImagePublicRoot) == RootSegments
  {
    assert '/' !in "uploads" && '/' !in "images";
    SplitPlainPrefix("uploads", "images");
    SplitPlain("images");
  }

  lemma {:induction false} JoinFive(p: string, q: string, r: string, t: string, u: string)
    ensures JoinWith([p, q, r, t, u]) == p + "/" + q + "/" + r + "/" + t + "/" + u
  {
    JoinWithPlain(p, [q, r, t, u]);
    JoinWithPlain(q, [r, t, u]);
    JoinWithPlain(r, [t, u]);
    JoinWithPlain(t, [u]);
  }

  /** Joining plain segments is plain concatenation with "/". */
  lemma {:induction false} JoinPlainFile(a: string, b: string, filename: string)
    requires Plain(a) && Plain(b) && Plain(filename)
    ensures PublicImagePathFromFile(a + "/" + b, filename) == ImagePublicRoot + "/" + (a + "/" + b) + "/" + filename
  {
    var segs := ["uploads", "images", a, b, filename];
    assert RootSegments + Split(a + "/" + b) + Split(filename) == segs by {
      SplitPlainPrefix(a, b);
      SplitPlain(b);
      SplitPlain(filename);
    }
    assert Collapse([], segs) == segs by {
      assert Plain("uploads") && Plain("images");
      CollapsePlain([], segs);
    }
    JoinFive("uploads", "images", a, b, filename);
    var joined := JoinWith(segs);
    assert joined == ImagePublicRoot + "/" + (a + "/" + b) + "/" + filename;
    assert joined != "";
    assert a + "/" + b != "";
    assert filename[|filename| - 1] != '/';
  }

  /** The year and month segments of a valid date are plain. */
  lemma {:induction false} SubdirSegmentsPlain(date: CalendarDate)
    requires 0 <= date.month < 12
    ensures Plain(IntString(date.year)) && Plain(PadStart2(NatString(date.month + 1)))
  {
    var y := IntString(date.year);
    var d := NatString(date.month + 1);
    assert forall i :: 0 <= i < |d| ==> IsDigit(d[i]);
    if date.year >= 0 {
      assert forall i :: 0 <= i < |y| ==> IsDigit(y[i]);
    } else {
      var e := NatString(-date.year);
      assert forall i :: 0 <= i < |e| ==> IsDigit(e[i]);
      assert y == "-" + e;
      assert y[1] == e[0] && y[|y| - 1] == e[|e| - 1];
    }
  }

  /** A file stored by the upload middleware (named `<uuid>.<ext>`, one
      plain segment) is served under uploads/images/<year>/<MM>/<name>,
      which the delete guard accepts as a public image path. */
  lemma {:induction false} UploadedFileIsPublic(date: CalendarDate, filename: string)
    requires 0 <= date.month < 12
    requires Plain(filename)
    ensures PublicImagePathFromFile(UploadSubdir(Some(date)), filename) == ImageUploadDir(Some(date)) + "/" + filename
    ensures DeleteTarget(ImageUploadDir(Some(date)) + "/" + filename).Some?
  {
    UploadDirForm(date);
    SubdirJoin(date, filename);
    JoinedIsPublic(UploadSubdir(Some(date)), filename);
  }

  lemma UploadDirForm(date: CalendarDate)
    requires 0 <= date.month < 12
    ensures ImageUploadDir(Some(date)) == ImagePublicRoot + "/" + UploadSubdir(Some(date))
  {
  }

  lemma JoinedIsPublic(sub: string, filename: string)
    ensures DeleteTarget(ImagePublicRoot + "/" + sub + "/" + filename).Some?
  {
    var rest := "/" + sub + "/" + filename;
    assert ImagePublicRoot + "/" + sub + "/" + filename == ImagePublicRoot + rest;
    UnderRootIsPublic(rest);
  }

  lemma {:induction false} SubdirJoin(date: CalendarDate, filename: string)
    requires 0 <= date.month < 12
    requires Plain(filename)
    ensures PublicImagePathFromFile(UploadSubdir(Some(date)), filename)
            == ImagePublicRoot + "/" + UploadSubdir(Some(date)) + "/" + filename
  {
    var y := IntString(date.year);
    var mm := PadStart2(NatString(date.month + 1));
    SubdirParts(date);
    SubdirSegmentsPlain(date);
    JoinPlainFile(y, mm, filename);
  }

  lemma SubdirParts(date: CalendarDate)
    requires 0 <= date.month < 12
    ensures UploadSubdir(Some(date)) == IntString(date.year) + "/" + PadStart2(NatString(date.month + 1))
  {
  }

  lemma {:induction false} SplitClimb(dir: string)
    requires Plain(dir)
    ensures Split("../../" + dir) == ["..", "..", dir]
  {
    assert '/' !in "..";
    SplitPlainPrefix("..", "../" + dir);
    SplitPlainPrefix("..", dir);
    assert ".." + "/" + ("../" + dir) == "../../" + dir;
    assert ".." + "/" + dir == "../" + dir;
    SplitPlain(dir);
  }

  lemma {:induction false} CollapseClimb(dir: string, filename: string)
    requires Plain(dir) && Plain(filename)
    ensures Collapse([], RootSegments + ["..", "..", dir, filename]) == [dir, filename]
  {
    var segs := RootSegments + ["..", "..", dir, filename];
    assert Plain("uploads") && Plain("images");
    assert [] + [segs[0]] == ["uploads"] && ["uploads"] + [segs[1..][0]] == ["uploads", "images"];
    assert Collapse([], segs) == Collapse(["uploads"], segs[1..]);
    assert Collapse(["uploads"], segs[1..]) == Collapse(["uploads", "images"], segs[2..]);
    assert Collapse(["uploads", "images"], segs[2..]) == Collapse(["uploads"], segs[3..]);
    assert Collapse(["uploads"], segs[3..]) == Collapse([], segs[4..]);
    assert segs[4..] == [dir, filename];
    CollapsePlain([], [dir, filename]);
  }

  /** A destination outside the upload root is not kept inside it: two
      ".." segments climb out of uploads/images altogether. */
  lemma {:induction false} ParentSegmentsLeaveTheRoot(dir: string, filename: string)
    requires Plain(dir) && Plain(filename)
    ensures PublicImagePathFromFile("../../" + dir, filename) == dir + "/" + filename
  {
    SplitClimb(dir);
    SplitPlain(filename);
    assert RootSegments + Split("../../" + dir) + Split(filename) == RootSegments + ["..", "..", dir, filename];
    CollapseClimb(dir, filename);
    JoinWithPlain(dir, [filename]);
    assert filename[|filename| - 1] != '/';
  }

  // ------------------------------------------------------------------
  // Public paths
  // ------------------------------------------------------------------

  /** normalizePublicPath: every backslash becomes a slash. */
  function NormalizePublicPath(p: string): (r: string)
    ensures |r| == |p|
    ensures forall i :: 0 <= i < |p| ==> r[i] == (if p[i] == '\\' then '/' else p[i])
  {
    seq(|p|, i requires 0 <= i < |p| => if p[i] == '\\' then '/' else p[i])
  }

  /** A normalised path holds no backslash, and normalising again changes nothing. */
  lemma NormalizeIdempotent(p: string)
    ensures '\\' !in NormalizePublicPath(p)
    ensures NormalizePublicPath(NormalizePublicPath(p)) == NormalizePublicPath(p)
  {
    var r := NormalizePublicPath(p);
    assert forall i :: 0 <= i < |r| ==> r[i] != '\\';
  }

  predicate StartsWith(s: string, prefix: string)
  {
    |prefix| <= |s| && s[..|prefix|] == prefix
  }

  /** `p` begins with the characters of `q`, a backslash in `p` standing for a slash. */
  predicate ReadsAs(p: string, q: string)
  {
    |q| <= |p| && forall i :: 0 <= i < |q| ==> p[i] == q[i] || (p[i] == '\\' && q[i] == '/')
  }

  /** For a `q` without backslashes, the normalised `p` starts with `q` iff `p` reads as `q`. */
  lemma ReadsAsNormalized(p: string, q: string)
    requires '\\' !in q
    ensures StartsWith(NormalizePublicPath(p), q) <==> ReadsAs(p, q)
  {
    var n := NormalizePublicPath(p);
    if |q| <= |p| {
      assert StartsWith(n, q) <==> forall i :: 0 <= i < |q| ==> n[i] == q[i] by {
        if forall i :: 0 <= i < |q| ==> n[i] == q[i] {
          assert n[..|q|] == q;
        }
      }
    }
  }

  /** isImagePublicPath: the normalised path starts with uploads/images or
      /uploads/images. */
  predicate IsImagePublicPath(p: string)
    ensures IsImagePublicPath(p) <==> ReadsAs(p, ImagePublicRoot) || ReadsAs(p, "/" + ImagePublicRoot)
  {
    ReadsAsNormalized(p, ImagePublicRoot);
    ReadsAsNormalized(p, "/" + ImagePublicRoot);
    var n := NormalizePublicPath(p);
    StartsWith(n, ImagePublicRoot) || StartsWith(n, "/" + ImagePublicRoot)
  }

  /** Normalising a concatenation normalises each part. */
  lemma NormalizeConcat(a: string, b: string)
    ensures NormalizePublicPath(a + b) == NormalizePublicPath(a) + NormalizePublicPath(b)
  {
    var l := NormalizePublicPath(a + b);
    var r := NormalizePublicPath(a) + NormalizePublicPath(b);
    assert forall i :: 0 <= i < |l| ==> l[i] == r[i] by {
      forall i | 0 <= i < |l|
        ensures l[i] == r[i]
      {
        if i >= |a| {
          assert (a + b)[i] == b[i - |a|];
        }
      }
    }
  }

  /** A path without backslashes is already normal. */
  lemma NormalWithoutBackslash(p: string)
    requires '\\' !in p
    ensures NormalizePublicPath(p) == p
  {
    var r := NormalizePublicPath(p);
    assert forall i :: 0 <= i < |r| ==> r[i] == p[i];
  }

  lemma RootNormal()
    ensures NormalizePublicPath(ImagePublicRoot) == ImagePublicRoot
  {
    assert '\\' !in ImagePublicRoot;
    NormalWithoutBackslash(ImagePublicRoot);
  }

  /** The test is on characters, not segments: anything that begins with
      the characters uploads/images passes, a sibling such as
      uploads/images-private/ or a climb such as uploads/images/../../ included. */
  lemma {:induction false} UnderRootIsPublic(rest: string)
    ensures IsImagePublicPath(ImagePublicRoot + rest)
    ensures IsImagePublicPath("/" + ImagePublicRoot + rest)
  {
    RootNormal();
    NormalizeConcat(ImagePublicRoot, rest);
    var n := NormalizePublicPath(ImagePublicRoot + rest);
    assert n[..|ImagePublicRoot|] == ImagePublicRoot;
    NormalizeConcat("/", ImagePublicRoot + rest);
    NormalWithoutBackslash("/");
    var m := NormalizePublicPath("/" + ImagePublicRoot + rest);
    assert "/" + ImagePublicRoot + rest == "/" + (ImagePublicRoot + rest);
    assert m == "/" + n;
    assert m[..|"/" + ImagePublicRoot|] == "/" + ImagePublicRoot;
  }

  /** Backslashes count as slashes: a path is public iff its normalised form is. */
  lemma {:induction false} BackslashesCountAsSlashes(p: string)
    ensures IsImagePublicPath(p) <==> IsImagePublicPath(NormalizePublicPath(p))
  {
    NormalizeIdempotent(p);
  }

  /** The path handed to path.resolve by resolvePublicImagePath: the
      normalised path without one leading slash. */
  function RelativeImagePath(p: string): (r: string)
    ensures var n := NormalizePublicPath(p);
            (n != [] && n[0] == '/' ==> r == n[1..]) && (n == [] || n[0] != '/' ==> r == n)
  {
    var n := NormalizePublicPath(p);
    if n != [] && n[0] == '/' then n[1..] else n
  }

  /** Exactly one leading slash goes: a path starting with "//" keeps one. */
  lemma {:induction false} OnlyOneSlashStripped(q: string)
    ensures RelativeImagePath("//" + q) == "/" + NormalizePublicPath(q)
  {
    NormalizeConcat("//", q);
    NormalWithoutBackslash("//");
  }

  /** deletePublicImageFile: the relative path it unlinks, or None when the
      path is not a public image path and nothing is touched. */
  function DeleteTarget(p: string): (r: Option<string>)
    ensures r.Some? <==> IsImagePublicPath(p)
    ensures r.Some? ==> r.value == RelativeImagePath(p)
  {
    if IsImagePublicPath(p) then Some(RelativeImagePath(p)) else None
  }

  /** Whatever the delete unlinks is a relative path starting with uploads/images. */
  lemma DeleteTargetUnderRoot(p: string)
    requires DeleteTarget(p).Some?
    ensures StartsWith(DeleteTarget(p).value, ImagePublicRoot)
  {
    var n := NormalizePublicPath(p);
    if StartsWith(n, ImagePublicRoot) {
      assert n[0] == 'u';
    } else {
      assert n[1..][..|ImagePublicRoot|] == n[1..|ImagePublicRoot| + 1];
    }
  }
}
