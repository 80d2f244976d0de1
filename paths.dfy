/** The POSIX path functions the web handlers rely on: `os.path.join`,
    `os.path.normpath` (which `os.path.abspath` applies to an absolute path),
    `os.path.dirname` and `os.path.basename`. Normalisation is purely lexical:
    `.` and empty segments are dropped, `..` removes the segment before it and
    stops at the root, and symbolic links are not looked at. */
module Paths {
  import opened Strings

  predicate IsAbsolute(p: string) {
    |p| > 0 && p[0] == '/'
  }

  predicate EndsInSlash(p: string) {
    |p| > 0 && p[|p| - 1] == '/'
  }

  /** `os.path.join(a, b)`: an absolute `b` replaces `a`; otherwise a `/` is
      put between them unless `a` is empty or already ends with one. */
  function Join(a: string, b: string): (r: string)
    ensures IsAbsolute(b) ==> r == b
    ensures !IsAbsolute(b) ==> StartsWith(r, a)
    ensures IsAbsolute(a) ==> IsAbsolute(r)
  {
    if IsAbsolute(b) then b
    else if a == "" || EndsInSlash(a) then a + b
    else a + "/" + b
  }

  /** A path segment that normalisation keeps unchanged. */
  predicate IsName(seg: string) {
    seg != "" && seg != "." && seg != ".." && '/' !in seg
  }

  predicate AllNames(segs: seq<string>) {
    forall i :: 0 <= i < |segs| ==> IsName(segs[i])
  }

  /** One iteration of `normpath`'s loop over the segments of an absolute path. */
  function Step(acc: seq<string>, comp: string): seq<string> {
    if comp == "" || comp == "." then acc
    else if comp == ".." then (if |acc| == 0 then acc else acc[..|acc| - 1])
    else acc + [comp]
  }

  function Fold(acc: seq<string>, comps: seq<string>): seq<string>
    decreases |comps|
  {
    if |comps| == 0 then acc else Fold(Step(acc, comps[0]), comps[1..])
  }

  /** The leading slashes `normpath` keeps: exactly two stay two, any other
      number becomes one. */
  function Lead(p: string): string
    requires IsAbsolute(p)
  {
    if |p| >= 2 && p[1] == '/' && !(|p| >= 3 && p[2] == '/') then "//" else "/"
  }

  /** The segments of the normalised form of an absolute path. */
  function Segments(p: string): seq<string>
    requires IsAbsolute(p)
  {
    Fold([], Split(p, '/'))
  }

  /** `os.path.normpath(p)` for an absolute `p`, which is also `os.path.abspath(p)`. */
  function AbsPath(p: string): string
    requires IsAbsolute(p)
  {
    Lead(p) + JoinWith(Segments(p), '/')
  }

  /** `p` is `root` itself or lies underneath it, segment by segment. */
  predicate Within(root: string, p: string) {
    p == root || StartsWith(p, if EndsInSlash(root) then root else root + "/")
  }

  /** The segments a path is made of once the `.` and empty ones are dropped. */
  function Kept(comps: seq<string>): seq<string> {
    if |comps| == 0 then []
    else if comps[0] == "" || comps[0] == "." then Kept(comps[1..])
    else [comps[0]] + Kept(comps[1..])
  }

  /** Index of the last `/` in `p`, or -1 (`p.rfind('/')`). */
  function LastSep(p: string): (i: int)
    ensures -1 <= i < |p|
    ensures i >= 0 ==> p[i] == '/'
    ensures forall k :: i < k < |p| ==> p[k] != '/'
  {
    if |p| == 0 then -1
    else if p[|p| - 1] == '/' then |p| - 1
    else LastSep(p[..|p| - 1])
  }

  predicate AllSlashes(s: string) {
    forall k :: 0 <= k < |s| ==> s[k] == '/'
  }

  function StripTrailingSlashes(s: string): (r: string)
    ensures StartsWith(s, r)
  {
    if |s| > 0 && s[|s| - 1] == '/' then StripTrailingSlashes(s[..|s| - 1]) else s
  }

  /** `os.path.dirname(p)`: everything up to the last `/`, with trailing slashes
      removed unless only slashes remain. */
  function Dirname(p: string): (r: string)
    ensures StartsWith(p, r)
  {
    var head := p[..LastSep(p) + 1];
    if head != "" && !AllSlashes(head) then StripTrailingSlashes(head) else head
  }

  /** `os.path.basename(p)`: everything after the last `/`. */
  function Basename(p: string): (r: string)
    ensures '/' !in r
    ensures EndsWith(p, r)
  {
    p[LastSep(p) + 1..]
  }

  // ---------------------------------------------------------------------
  // Properties of the normalisation fold

  lemma {:induction false} FoldAppend(acc: seq<string>, a: seq<string>, b: seq<string>)
    ensures Fold(acc, a + b) == Fold(Fold(acc, a), b)
    decreases |a|
  {
    if |a| > 0 {
      assert (a + b)[0] == a[0];
      assert (a + b)[1..] == a[1..] + b;
      FoldAppend(Step(acc, a[0]), a[1..], b);
      assert Fold(acc, a + b) == Fold(Step(acc, a[0]), a[1..] + b);
      assert Fold(acc, a) == Fold(Step(acc, a[0]), a[1..]);
    } else {
      assert a + b == b;
    }
  }

  /** Normalisation only ever produces ordinary names. */
  lemma {:induction false} FoldKeepsNames(acc: seq<string>, comps: seq<string>)
    requires AllNames(acc)
    requires forall i :: 0 <= i < |comps| ==> '/' !in comps[i]
    ensures AllNames(Fold(acc, comps))
    decreases |comps|
  {
    if |comps| > 0 {
      FoldKeepsNames(Step(acc, comps[0]), comps[1..]);
    }
  }

  /** Without `..`, normalisation only drops the `.` and empty segments. */
  lemma {:induction false} FoldWithoutUp(acc: seq<string>, comps: seq<string>)
    requires ".." !in comps
    ensures Fold(acc, comps) == acc + Kept(comps)
    decreases |comps|
  {
    if |comps| > 0 {
      assert comps[0] != "..";
      assert comps == [comps[0]] + comps[1..];
      FoldWithoutUp(Step(acc, comps[0]), comps[1..]);
      if comps[0] != "" && comps[0] != "." {
        assert acc + [comps[0]] + Kept(comps[1..]) == acc + ([comps[0]] + Kept(comps[1..]));
      }
    }
  }

  lemma {:induction false} FoldNames(acc: seq<string>, names: seq<string>)
    requires AllNames(names)
    ensures Fold(acc, names) == acc + names
    decreases |names|
  {
    if |names| > 0 {
      assert IsName(names[0]);
      FoldNames(acc + [names[0]], names[1..]);
      assert acc + [names[0]] + names[1..] == acc + names;
    }
  }

  /** Each `..` removes one segment, and the root has no parent. */
  lemma {:induction false} FoldUps(acc: seq<string>, k: nat)
    ensures Fold(acc, seq(k, _ => "..")) == acc[..if k <= |acc| then |acc| - k else 0]
  {
    if k > 0 {
      var ups := seq(k, _ => "..");
      assert ups[0] == "..";
      assert ups[1..] == seq(k - 1, _ => "..");
      FoldUps(Step(acc, ".."), k - 1);
    }
  }

  lemma KeptNames(comps: seq<string>)
    requires forall i :: 0 <= i < |comps| ==> '/' !in comps[i]
    requires ".." !in comps
    ensures AllNames(Kept(comps))
  {
    FoldWithoutUp([], comps);
    FoldKeepsNames([], comps);
  }

  // ---------------------------------------------------------------------
  // Normal forms

  function LeadPieces(lead: string): seq<string> {
    if lead == "/" then [""] else ["", ""]
  }

  lemma SplitLead(lead: string, s: string)
    requires lead == "/" || lead == "//"
    ensures Split(lead + s, '/') == LeadPieces(lead) + Split(s, '/')
  {
    if lead == "/" {
      assert lead + s == "" + ['/'] + s;
      SplitAround("", '/', s);
    } else {
      assert lead + s == "" + ['/'] + ("" + ['/'] + s);
      SplitAround("", '/', "" + ['/'] + s);
      SplitAround("", '/', s);
    }
  }

  lemma JoinNamesStart(names: seq<string>)
    requires AllNames(names) && |names| > 0
    ensures |JoinWith(names, '/')| > 0 && JoinWith(names, '/')[0] != '/'
  {
    assert IsName(names[0]);
    if |names| > 1 {
      assert JoinWith(names, '/') == names[0] + ['/'] + JoinWith(names[1..], '/');
    }
  }

  /** A path `normpath` leaves as it is: one or two leading slashes followed
      by ordinary names. */
  lemma NormalFormFixed(lead: string, names: seq<string>)
    requires lead == "/" || lead == "//"
    requires AllNames(names)
    ensures IsAbsolute(lead + JoinWith(names, '/'))
    ensures Lead(lead + JoinWith(names, '/')) == lead
    ensures Segments(lead + JoinWith(names, '/')) == names
    ensures AbsPath(lead + JoinWith(names, '/')) == lead + JoinWith(names, '/')
  {
    var j := JoinWith(names, '/');
    SplitLead(lead, j);
    FoldAppend([], LeadPieces(lead), Split(j, '/'));
    assert [""][1..] == [] && ["", ""][1..] == [""];
    assert Fold([], LeadPieces(lead)) == [];
    if |names| == 0 {
      assert Split(j, '/') == [""];
    } else {
      JoinNamesStart(names);
      SplitJoin(names, '/');
      FoldNames([], names);
    }
  }

  /** Normalising twice is normalising once. */
  lemma AbsPathIdempotent(p: string)
    requires IsAbsolute(p)
    ensures IsAbsolute(AbsPath(p)) && AbsPath(AbsPath(p)) == AbsPath(p)
  {
    SplitPiecesFree(p, '/');
    FoldKeepsNames([], Split(p, '/'));
    NormalFormFixed(Lead(p), Segments(p));
  }

  /** Joining a relative path keeps the leading slashes of the first one. */
  lemma JoinLead(root: string, fp: string)
    requires IsAbsolute(root) && !IsAbsolute(fp)
    ensures Lead(Join(root, fp)) == Lead(root)
  {
    var j := Join(root, fp);
    if |root| < 3 {
      if |fp| > 0 { assert fp[0] != '/'; }
    } else {
      assert j[..3] == root[..3];
    }
  }

  lemma JoinSplitSlash(root: string, fp: string)
    requires IsAbsolute(root) && !IsAbsolute(fp) && EndsInSlash(root)
    ensures Fold([], Split(Join(root, fp), '/')) == Fold(Fold([], Split(root, '/')), Split(fp, '/'))
  {
    var r' := root[..|root| - 1];
    assert root == r' + ['/'] + "";
    assert Join(root, fp) == r' + ['/'] + fp;
    SplitAround(r', '/', fp);
    SplitAround(r', '/', "");
    FoldAppend([], Split(r', '/'), [""]);
    FoldAppend([], Split(r', '/'), Split(fp, '/'));
  }

  lemma JoinSplitPlain(root: string, fp: string)
    requires IsAbsolute(root) && !IsAbsolute(fp) && !EndsInSlash(root)
    ensures Fold([], Split(Join(root, fp), '/')) == Fold(Fold([], Split(root, '/')), Split(fp, '/'))
  {
    assert Join(root, fp) == root + ['/'] + fp;
    SplitAround(root, '/', fp);
    FoldAppend([], Split(root, '/'), Split(fp, '/'));
  }

  /** Joining a relative path to an absolute one normalises like continuing
      the fold of the first with the segments of the second, and keeps the
      first one's leading slashes. */
  lemma JoinSegments(root: string, fp: string)
    requires IsAbsolute(root) && !IsAbsolute(fp)
    ensures Lead(Join(root, fp)) == Lead(root)
    ensures Segments(Join(root, fp)) == Fold(Segments(root), Split(fp, '/'))
  {
    JoinLead(root, fp);
    if EndsInSlash(root) {
      JoinSplitSlash(root, fp);
    } else {
      JoinSplitPlain(root, fp);
    }
  }

  /** The normalised form has names only. */
  lemma SegmentsAreNames(p: string)
    requires IsAbsolute(p)
    ensures AllNames(Segments(p))
  {
    SplitPiecesFree(p, '/');
    FoldKeepsNames([], Split(p, '/'));
  }

  lemma JoinNamesEnd(names: seq<string>)
    requires AllNames(names) && |names| > 0
    ensures |JoinWith(names, '/')| > 0
    ensures JoinWith(names, '/')[|JoinWith(names, '/')| - 1] != '/'
  {
    var n := |names|;
    assert IsName(names[n - 1]);
    if n > 1 {
      assert names == names[..n - 1] + [names[n - 1]];
      JoinWithSnoc(names[..n - 1], names[n - 1], '/');
    }
  }

  lemma {:induction false} LastSepNone(w: string)
    requires '/' !in w
    ensures LastSep(w) == -1
  {
    if |w| > 0 {
      assert w[..|w| - 1] + [w[|w| - 1]] == w;
      LastSepNone(w[..|w| - 1]);
    }
  }

  lemma {:induction false} LastSepAfter(a: string, w: string)
    requires '/' !in w
    ensures LastSep(a + "/" + w) == |a|
    decreases |w|
  {
    var p := a + "/" + w;
    if |w| > 0 {
      assert p[|p| - 1] == w[|w| - 1];
      assert p[..|p| - 1] == a + "/" + w[..|w| - 1];
      LastSepAfter(a, w[..|w| - 1]);
    }
  }

  lemma StripOneSlash(a: string)
    requires |a| > 0 && a[|a| - 1] != '/'
    ensures StripTrailingSlashes(a + "/") == a
  {
    assert (a + "/")[..|a|] == a;
  }

  lemma DirnameBare(w: string)
    requires '/' !in w
    ensures Dirname(w) == "" && Basename(w) == w
  {
    LastSepNone(w);
  }

  lemma DirnameAfter(a: string, w: string)
    requires '/' !in w && |a| > 0 && a[|a| - 1] != '/'
    ensures Dirname(a + "/" + w) == a && Basename(a + "/" + w) == w
  {
    var p := a + "/" + w;
    LastSepAfter(a, w);
    assert p[..|a| + 1] == a + "/";
    assert p[|a| + 1..] == w;
    assert !AllSlashes(a + "/") by { assert (a + "/")[|a| - 1] != '/'; }
    StripOneSlash(a);
  }

  lemma DirnameLead(lead: string, w: string)
    requires lead == "/" || lead == "//"
    requires '/' !in w
    ensures Dirname(lead + w) == lead && Basename(lead + w) == w
  {
    var p := lead + w;
    var i := |lead| - 1;
    assert p == lead[..i] + "/" + w;
    LastSepAfter(lead[..i], w);
    assert p[..i + 1] == lead;
    assert p[i + 1..] == w;
    assert AllSlashes(lead);
  }

  lemma SeqAssoc(x: string, y: string, z: string)
    ensures x + (y + "/" + z) == (x + y) + "/" + z
  {
  }

  lemma JoinLast(names: seq<string>)
    requires |names| > 1
    ensures JoinWith(names, '/') == JoinWith(names[..|names| - 1], '/') + "/" + names[|names| - 1]
  {
    var n := |names|;
    assert names == names[..n - 1] + [names[n - 1]];
    JoinWithSnoc(names[..n - 1], names[n - 1], '/');
  }

  lemma DirnameOne(lead: string, w: string)
    requires lead == "" || lead == "/" || lead == "//"
    requires IsName(w)
    ensures Dirname(lead + w) == lead && Basename(lead + w) == w
  {
    if lead == "" {
      DirnameBare(w);
      assert lead + w == w;
    } else {
      DirnameLead(lead, w);
    }
  }

  /** The path ends in a character other than `/`. */
  lemma LeadJoinEnd(lead: string, names: seq<string>)
    requires AllNames(names) && |names| > 0
    ensures |lead + JoinWith(names, '/')| > 0
    ensures (lead + JoinWith(names, '/'))[|lead + JoinWith(names, '/')| - 1] != '/'
  {
    JoinNamesEnd(names);
    var j := JoinWith(names, '/');
    assert (lead + j)[|lead + j| - 1] == j[|j| - 1];
  }

  lemma DirnameMany(lead: string, names: seq<string>)
    requires lead == "" || lead == "/" || lead == "//"
    requires AllNames(names) && |names| > 1
    ensures lead + JoinWith(names, '/') == lead + JoinWith(names[..|names| - 1], '/') + "/" + names[|names| - 1]
    ensures Dirname(lead + JoinWith(names, '/')) == lead + JoinWith(names[..|names| - 1], '/')
    ensures Basename(lead + JoinWith(names, '/')) == names[|names| - 1]
  {
    var n := |names|;
    var w := names[n - 1];
    assert IsName(w);
    var d := lead + JoinWith(names[..n - 1], '/');
    JoinLast(names);
    SeqAssoc(lead, JoinWith(names[..n - 1], '/'), w);
    LeadJoinEnd(lead, names[..n - 1]);
    DirnameAfter(d, w);
  }

  /** `dirname` and `basename` of a normalised path (or of a relative path
      of names, with an empty lead) split off its last segment. */
  lemma DirnameOfNames(lead: string, names: seq<string>)
    requires lead == "" || lead == "/" || lead == "//"
    requires AllNames(names) && |names| > 0
    ensures var n := |names|;
      Dirname(lead + JoinWith(names, '/')) ==
        (if n > 1 then lead + JoinWith(names[..n - 1], '/') else lead)
    ensures Basename(lead + JoinWith(names, '/')) == names[|names| - 1]
  {
    if |names| == 1 {
      assert JoinWith(names, '/') == names[0];
      DirnameOne(lead, names[0]);
    } else {
      DirnameMany(lead, names);
    }
  }

  lemma DirBaseMany(lead: string, names: seq<string>)
    requires lead == "/" || lead == "//"
    requires AllNames(names) && |names| > 1
    ensures Join(Dirname(lead + JoinWith(names, '/')), Basename(lead + JoinWith(names, '/')))
         == lead + JoinWith(names, '/')
  {
    var n := |names|;
    var w := names[n - 1];
    assert IsName(w);
    assert !IsAbsolute(w) by { assert w[0] in w; }
    DirnameMany(lead, names);
    LeadJoinEnd(lead, names[..n - 1]);
    JoinRelative(lead + JoinWith(names[..n - 1], '/'), w);
  }

  lemma DirBaseOne(lead: string, w: string)
    requires lead == "/" || lead == "//"
    requires IsName(w)
    ensures Join(Dirname(lead + w), Basename(lead + w)) == lead + w
  {
    assert !IsAbsolute(w) by { assert w[0] in w; }
    DirnameOne(lead, w);
    JoinRelative(lead, w);
  }

  lemma DirBaseNames(lead: string, names: seq<string>)
    requires lead == "/" || lead == "//"
    requires AllNames(names) && |names| > 0
    ensures var t := lead + JoinWith(names, '/'); Join(Dirname(t), Basename(t)) == t
  {
    if |names| > 1 {
      DirBaseMany(lead, names);
    } else {
      assert JoinWith(names, '/') == names[0];
      DirBaseOne(lead, names[0]);
    }
  }

  /** The directory and base name of a normalised path join back to it. */
  lemma DirBaseJoin(p: string)
    requires IsAbsolute(p)
    ensures Join(Dirname(AbsPath(p)), Basename(AbsPath(p))) == AbsPath(p)
    ensures '/' !in Basename(AbsPath(p))
  {
    SegmentsAreNames(p);
    if |Segments(p)| == 0 {
      assert AbsPath(p) == Lead(p) + "";
      DirnameLead(Lead(p), "");
    } else {
      DirBaseNames(Lead(p), Segments(p));
    }
  }

  lemma JoinRelative(a: string, b: string)
    requires !IsAbsolute(b)
    ensures Join(a, b) == if a == "" || EndsInSlash(a) then a + b else a + "/" + b
  {
  }

  lemma NameRelative(name: string)
    requires IsName(name)
    ensures !IsAbsolute(name) && |name| > 0
  {
    assert name[0] in name;
  }

  lemma Assoc(x: string, y: string, z: string)
    ensures x + (y + z) == x + y + z
  {
  }

  lemma JoinAssocEmpty(a: string, name: string)
    requires IsName(name)
    ensures Join(a, Join("", name)) == Join(Join(a, ""), name)
  {
    NameRelative(name);
    assert Join("", name) == name;
    JoinRelative(a, name);
    if !(a == "" || EndsInSlash(a)) {
      assert Join(a, "") == a + "/";
      JoinRelative(a + "/", name);
    }
  }

  /** The separator `join` puts after a non-empty relative path. */
  function Sep(a: string): string {
    if a == "" || EndsInSlash(a) then "" else "/"
  }

  lemma JoinSep(a: string, b: string)
    requires !IsAbsolute(b)
    ensures Join(a, b) == a + Sep(a) + b
  {
  }

  lemma JoinAssocRelative(a: string, b: string, name: string)
    requires IsName(name) && b != "" && !IsAbsolute(b)
    ensures Join(a, Join(b, name)) == Join(Join(a, b), name)
  {
    NameRelative(name);
    JoinSep(b, name);
    JoinSep(a, b);
    var bn := Join(b, name);
    var ab := Join(a, b);
    assert bn[0] == b[0];
    JoinSep(a, bn);
    JoinSep(ab, name);
    assert ab == a + Sep(a) + b;
    assert Sep(ab) == Sep(b);
    Assoc(a + Sep(a), b + Sep(b), name);
    Assoc(a + Sep(a), b, Sep(b));
  }

  /** `join(a, join(b, name)) == join(join(a, b), name)`. */
  lemma JoinAssoc(a: string, b: string, name: string)
    requires IsName(name)
    ensures Join(a, Join(b, name)) == Join(Join(a, b), name)
  {
    if b == "" {
      JoinAssocEmpty(a, name);
    } else if !IsAbsolute(b) {
      JoinAssocRelative(a, b, name);
    }
  }

  /** Appending a name appends it to the segments. */
  lemma SegmentsJoinName(p: string, name: string)
    requires IsAbsolute(p) && IsName(name)
    ensures IsAbsolute(Join(p, name)) && Lead(Join(p, name)) == Lead(p)
    ensures Segments(Join(p, name)) == Segments(p) + [name]
  {
    NameRelative(name);
    JoinSegments(p, name);
    SplitNoSep(name, '/');
    assert Fold(Segments(p), [name]) == Segments(p) + [name];
  }

  lemma AbsPathJoinNameRoot(p: string, name: string)
    requires IsAbsolute(p) && IsName(name) && |Segments(p)| == 0
    ensures AbsPath(Join(p, name)) == Join(AbsPath(p), name)
  {
    SegmentsJoinName(p, name);
    NameRelative(name);
    assert Segments(p) + [name] == [name];
    assert AbsPath(p) == Lead(p) + "";
    JoinRelative(AbsPath(p), name);
  }

  lemma AbsPathJoinNameDeep(p: string, name: string)
    requires IsAbsolute(p) && IsName(name) && |Segments(p)| > 0
    ensures AbsPath(Join(p, name)) == Join(AbsPath(p), name)
  {
    var s := Segments(p);
    SegmentsJoinName(p, name);
    NameRelative(name);
    SegmentsAreNames(p);
    LeadJoinEnd(Lead(p), s);
    JoinWithSnoc(s, name, '/');
    JoinRelative(AbsPath(p), name);
    SeqAssoc(Lead(p), JoinWith(s, '/'), name);
  }

  /** Appending a name to a path and normalising is appending the name to
      the normalised path. */
  lemma AbsPathJoinName(p: string, name: string)
    requires IsAbsolute(p) && IsName(name)
    ensures AbsPath(Join(p, name)) == Join(AbsPath(p), name)
  {
    if |Segments(p)| == 0 {
      AbsPathJoinNameRoot(p, name);
    } else {
      AbsPathJoinNameDeep(p, name);
    }
  }
}
