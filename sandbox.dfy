/** The access check each file-serving handler of scripts/web.py repeats:
    the requested path is `abspath(join(root, filepath))` and access is
    granted when that string starts with `abspath(root)`. The comparison is
    on raw strings after lexical normalisation, so it contains `..` escapes
    that climb above the root but admits a sibling whose name extends the
    root's last name. */
module Sandbox {
  import opened Strings
  import opened Paths
  import opened Jobs

  /** `os.path.abspath(os.path.join(root, filepath))`. */
  function Resolve(root: string, filepath: string): (target: string)
    requires IsAbsolute(root)
  {
    AbsPath(Join(root, filepath))
  }

  /** `requested.startswith(os.path.abspath(root))`. */
  predicate Granted(root: string, filepath: string)
    requires IsAbsolute(root)
  {
    StartsWith(Resolve(root, filepath), AbsPath(root))
  }

  /** A path of ordinary names (no `..` segment, not absolute) is always
      granted, and it resolves to the root extended by its names. */
  lemma NamesGranted(root: string, filepath: string)
    requires IsAbsolute(root) && !IsAbsolute(filepath)
    requires ".." !in Split(filepath, '/')
    ensures Segments(Join(root, filepath)) == Segments(root) + Kept(Split(filepath, '/'))
    ensures Granted(root, filepath)
    ensures Within(AbsPath(root), Resolve(root, filepath))
  {
    JoinSegments(root, filepath);
    FoldWithoutUp(Segments(root), Split(filepath, '/'));
    var lead := Lead(root);
    var s := Segments(root);
    var k := Kept(Split(filepath, '/'));
    var r := AbsPath(root);
    var t := Resolve(root, filepath);
    assert t == lead + JoinWith(s + k, '/');
    if |k| == 0 {
      assert s + k == s;
    } else if |s| == 0 {
      assert s + k == k;
      assert r == lead + "";
      assert EndsInSlash(r);
    } else {
      JoinWithAppend(s, k, '/');
      assert t == r + "/" + JoinWith(k, '/');
      assert StartsWith(t, r + "/");
    }
  }

  /** What a granted request really is: the root, a path under it, or a
      sibling whose name continues the root's last segment. */
  lemma GrantedIsWithinOrSibling(root: string, filepath: string)
    requires IsAbsolute(root) && Granted(root, filepath)
    ensures var r := AbsPath(root); var t := Resolve(root, filepath);
      Within(r, t) || (|t| > |r| && t[|r|] != '/' && !EndsInSlash(r))
  {
    var r := AbsPath(root);
    var t := Resolve(root, filepath);
    if t != r && !EndsInSlash(r) && |t| > |r| && t[|r|] == '/' {
      assert t[..|r| + 1] == r + "/";
    }
  }

  /** A root segment extended by slash-free text is still a name. */
  lemma SiblingName(last: string, x: string)
    requires IsName(last) && |x| > 0 && '/' !in x
    ensures IsName(last + x)
  {
    NoSlashConcat(last, x);
    var y := last + x;
    assert y[0] == last[0];
    if |last| == 1 {
      assert last == [last[0]];
    }
  }

  /** `../<y>` is the join of `..` and `y`, and splits back into them. */
  lemma UpThenName(y: string)
    requires IsName(y)
    ensures "../" + y == JoinWith(["..", y], '/')
    ensures Split("../" + y, '/') == ["..", y]
  {
    assert ["..", y][1..] == [y];
    SplitJoin(["..", y], '/');
  }

  lemma FoldUpThenName(s: seq<string>, y: string)
    requires |s| >= 1 && IsName(y)
    ensures Fold(s, ["..", y]) == s[..|s| - 1] + [y]
  {
    var t := s[..|s| - 1];
    assert Step(s, "..") == t;
    assert Fold(s, ["..", y]) == Fold(t, [y]) by {
      assert ["..", y][0] == ".." && ["..", y][1..] == [y];
    }
    assert Step(t, y) == t + [y];
    assert Fold(t, [y]) == Fold(t + [y], []) by {
      assert [y][0] == y && [y][1..] == [];
    }
  }

  /** `../<last><x>` replaces the root's last segment by `<last><x>`. */
  lemma SiblingSegments(root: string, x: string)
    requires IsAbsolute(root) && |Segments(root)| >= 1
    requires |x| > 0 && '/' !in x
    ensures AllNames(Segments(root))
    ensures IsName(Segments(root)[|Segments(root)| - 1] + x)
    ensures !IsAbsolute("../" + Segments(root)[|Segments(root)| - 1] + x)
    ensures Lead(Join(root, "../" + Segments(root)[|Segments(root)| - 1] + x)) == Lead(root)
    ensures Segments(Join(root, "../" + Segments(root)[|Segments(root)| - 1] + x))
         == Segments(root)[..|Segments(root)| - 1] + [Segments(root)[|Segments(root)| - 1] + x]
  {
    var s := Segments(root);
    var last := s[|s| - 1];
    SegmentsAreNames(root);
    assert IsName(last);
    var y := last + x;
    SiblingName(last, x);
    UpThenName(y);
    assert "../" + last + x == "../" + y;
    JoinSegments(root, "../" + y);
    FoldUpThenName(s, y);
  }

  lemma SnocLast(s: seq<string>)
    requires |s| >= 1
    ensures s[..|s| - 1] + [s[|s| - 1]] == s
  {
  }

  lemma SeqAssoc4(lead: string, j: string, last: string, x: string)
    ensures lead + (j + "/" + (last + x)) == (lead + (j + "/" + last)) + x
  {
  }

  lemma SiblingJoinMany(lead: string, init: seq<string>, last: string, x: string)
    requires |init| >= 1
    ensures lead + JoinWith(init + [last + x], '/') == lead + JoinWith(init + [last], '/') + x
  {
    JoinWithSnoc(init, last + x, '/');
    JoinWithSnoc(init, last, '/');
    SeqAssoc4(lead, JoinWith(init, '/'), last, x);
  }

  lemma SiblingJoinOne(lead: string, last: string, x: string)
    ensures lead + JoinWith([last + x], '/') == lead + JoinWith([last], '/') + x
  {
  }

  lemma SiblingJoin(lead: string, s: seq<string>, x: string)
    requires |s| >= 1
    ensures lead + JoinWith(s[..|s| - 1] + [s[|s| - 1] + x], '/') == lead + JoinWith(s, '/') + x
  {
    SnocLast(s);
    if |s| == 1 {
      SiblingJoinOne(lead, s[0], x);
      assert s[..0] + [s[0] + x] == [s[0] + x];
    } else {
      SiblingJoinMany(lead, s[..|s| - 1], s[|s| - 1], x);
    }
  }

  lemma SiblingTarget(root: string, x: string)
    requires IsAbsolute(root) && |Segments(root)| >= 1
    requires |x| > 0 && '/' !in x
    ensures Resolve(root, "../" + Segments(root)[|Segments(root)| - 1] + x) == AbsPath(root) + x
  {
    SiblingSegments(root, x);
    SiblingJoin(Lead(root), Segments(root), x);
  }

  /** The sibling case happens: `../<last><x>` leaves the root and is granted. */
  lemma SiblingGranted(root: string, x: string)
    requires IsAbsolute(root) && |Segments(root)| >= 1
    requires |x| > 0 && '/' !in x
    ensures var fp := "../" + Segments(root)[|Segments(root)| - 1] + x;
      Granted(root, fp) && !Within(AbsPath(root), Resolve(root, fp))
      && Resolve(root, fp) == AbsPath(root) + x
  {
    SiblingTarget(root, x);
    var s := Segments(root);
    var r := AbsPath(root);
    var t := r + x;
    SegmentsAreNames(root);
    JoinNamesEnd(s);
    assert r[|r| - 1] != '/';
    assert !EndsInSlash(r);
    assert t[|r|] == x[0];
    assert (r + "/")[|r|] == '/';
    assert StartsWith(t, r) by { assert t[..|r|] == r; }
  }

  /** A request whose normalised form has fewer segments than the root is
      denied: every `..` escape that climbs above the root is refused. */
  lemma EscapeDenied(root: string, filepath: string)
    requires IsAbsolute(root) && !IsAbsolute(filepath)
    requires |Segments(Join(root, filepath))| < |Segments(root)|
    ensures !Granted(root, filepath)
  {
    JoinSegments(root, filepath);
    var lead := Lead(root);
    var s := Segments(root);
    var u := Segments(Join(root, filepath));
    SegmentsAreNames(root);
    SegmentsAreNames(Join(root, filepath));
    var js := JoinWith(s, '/');
    var ju := JoinWith(u, '/');
    if Granted(root, filepath) {
      assert StartsWith(lead + ju, lead + js);
      assert StartsWith(ju, js) by {
        assert (lead + ju)[..|lead + js|] == lead + js;
        assert ju[..|js|] == (lead + ju)[|lead|..|lead + js|];
      }
      CountJoin(s, '/');
      CountPrefix(ju, js, '/');
      if |u| == 0 {
        JoinNamesEnd(s);
        assert false;
      } else {
        CountJoin(u, '/');
        assert false;
      }
    }
  }

  function Ups(k: nat): seq<string> {
    seq(k, _ => "..")
  }

  lemma UpsNamesPieces(k: nat, names: seq<string>)
    requires 1 <= k && AllNames(names)
    ensures |Ups(k) + names| >= 1 && (Ups(k) + names)[0] == ".."
    ensures forall i :: 0 <= i < |Ups(k) + names| ==> '/' !in (Ups(k) + names)[i]
  {
    var parts := Ups(k) + names;
    forall i | 0 <= i < |parts| ensures '/' !in parts[i] {
      if i >= k { assert parts[i] == names[i - k]; assert IsName(names[i - k]); }
    }
  }

  /** `k` times `..` followed by names resolves to the root's first
      `depth - k` segments followed by those names. */
  lemma UpsThenNames(root: string, k: nat, names: seq<string>)
    requires IsAbsolute(root) && 1 <= k <= |Segments(root)| && AllNames(names)
    ensures !IsAbsolute(JoinWith(Ups(k) + names, '/'))
    ensures Segments(Join(root, JoinWith(Ups(k) + names, '/')))
      == Segments(root)[..|Segments(root)| - k] + names
  {
    var parts := Ups(k) + names;
    var fp := JoinWith(parts, '/');
    UpsNamesPieces(k, names);
    JoinWithStart(parts, '/');
    SplitJoin(parts, '/');
    JoinSegments(root, fp);
    FoldAppend(Segments(root), Ups(k), names);
    FoldUps(Segments(root), k);
    FoldNames(Segments(root)[..|Segments(root)| - k], names);
  }

  /** Climbing `k` levels and descending fewer is denied. */
  lemma TraversalDenied(root: string, k: nat, names: seq<string>)
    requires IsAbsolute(root) && 1 <= k <= |Segments(root)| && AllNames(names)
    requires |names| < k
    ensures !Granted(root, JoinWith(Ups(k) + names, '/'))
  {
    UpsThenNames(root, k, names);
    EscapeDenied(root, JoinWith(Ups(k) + names, '/'));
  }

  /** `browse/<id>/../../../etc` is refused for every MD5 job id. */
  lemma EtcTraversalDenied(id: Digest)
    ensures !Granted(JobDir(id), "../../../etc")
  {
    DigestRootNormal(id);
    EtcPath();
    TraversalDenied(JobDir(id), 3, ["etc"]);
  }

  lemma EtcPath()
    ensures JoinWith(Ups(3) + ["etc"], '/') == "../../../etc"
    ensures AllNames(["etc"])
  {
    var p := Ups(3) + ["etc"];
    assert p == ["..", "..", "..", "etc"];
    assert JoinWith(["etc"], '/') == "etc";
    assert JoinWith(["..", "etc"], '/') == "../etc" by { assert ["..", "etc"][1..] == ["etc"]; }
    assert JoinWith(["..", "..", "etc"], '/') == "../../etc" by {
      assert ["..", "..", "etc"][1..] == ["..", "etc"];
    }
    assert JoinWith(p, '/') == "../../../etc" by { assert p[1..] == ["..", "..", "etc"]; }
  }

  /** The root of an MD5 job is its own normal form, so the check compares
      against exactly the job directory. */
  lemma DigestRootNormal(id: Digest)
    ensures AbsPath(JobDir(id)) == JobDir(id)
    ensures Segments(JobDir(id)) == BASE_NAMES + [id]
  {
    DigestLayout(id);
    NamesOfDigest(id);
    NormalFormFixed("/", BASE_NAMES + [id]);
  }

  // ---------------------------------------------------------------------
  // Links in a directory listing

  /** A listing links each entry `name` of `filepath` as `join(filepath, name)`;
      that link resolves to the entry inside the listed directory. */
  lemma ChildResolve(root: string, filepath: string, name: string)
    requires IsAbsolute(root) && IsName(name)
    ensures Resolve(root, Join(filepath, name)) == Join(Resolve(root, filepath), name)
  {
    JoinAssoc(root, filepath, name);
    AbsPathJoinName(Join(root, filepath), name);
  }

  /** Every link of a granted listing is granted too. */
  lemma ChildGranted(root: string, filepath: string, name: string)
    requires IsAbsolute(root) && IsName(name) && Granted(root, filepath)
    ensures Granted(root, Join(filepath, name))
  {
    ChildResolve(root, filepath, name);
    NameRelative(name);
    StartsWithTrans(Join(Resolve(root, filepath), name), Resolve(root, filepath), AbsPath(root));
  }

  // ---------------------------------------------------------------------
  // The job id itself is not checked

  lemma BaseNormal()
    ensures IsAbsolute(BASE_OUTPUT_DIR) && Lead(BASE_OUTPUT_DIR) == "/"
    ensures Segments(BASE_OUTPUT_DIR) == BASE_NAMES
  {
    BaseIsCanonical();
    NormalFormFixed("/", BASE_NAMES);
  }

  lemma UpFromBase()
    ensures Fold(BASE_NAMES, Split("..", '/')) == ["storage", "Data"]
  {
    SplitNoSep("..", '/');
    assert BASE_NAMES[..2] == ["storage", "Data"];
    assert Step(BASE_NAMES, "..") == ["storage", "Data"];
    assert [".."][1..] == [];
  }

  lemma ParentIdSegments()
    ensures IsAbsolute(JobDir("..")) && Lead(JobDir("..")) == "/"
    ensures Segments(JobDir("..")) == ["storage", "Data"]
  {
    BaseNormal();
    assert !IsAbsolute("..");
    JoinSegments(BASE_OUTPUT_DIR, "..");
    UpFromBase();
  }

  lemma ParentIdDir()
    ensures AbsPath(JobDir("..")) == "/storage/Data"
  {
    ParentIdSegments();
    var s: seq<string> := ["storage", "Data"];
    assert JoinWith(s, '/') == "storage" + "/" + JoinWith(["Data"], '/') by { assert s[1..] == ["Data"]; }
    assert JoinWith(["Data"], '/') == "Data";
    DataDirLiteral();
  }

  lemma DataDirLiteral()
    ensures "/" + ("storage" + "/" + "Data") == "/storage/Data"
  {
  }

  lemma DataJoin(name: string)
    requires IsName(name)
    ensures Join("/storage/Data", name) == "/storage/Data/" + name
  {
    NameRelative(name);
    JoinSep("/storage/Data", name);
    assert Sep("/storage/Data") == "/";
  }

  lemma ParentIdResolve(name: string)
    requires IsName(name)
    ensures Resolve(JobDir(".."), name) == "/storage/Data/" + name
  {
    ParentIdDir();
    AbsPathJoinName(JobDir(".."), name);
    DataJoin(name);
  }

  lemma DataEntryOutsideBase(name: string)
    requires IsName(name) && name != "AF2jobs"
    ensures !Within(BASE_OUTPUT_DIR, "/storage/Data/" + name)
  {
    var t := "/storage/Data/" + name;
    assert t[14..] == name;
    if |t| >= 22 {
      assert t[21] == name[7];
      assert name[7] in name;
    }
    NotPrefixAt(t, BASE_OUTPUT_DIR + "/", 21);
  }

  /** The handlers take the job id from the URL and only check the path
      after it: with the id `..` the root is `/storage/Data`, so every entry
      of that directory is granted, although all but `AF2jobs` lie outside
      the base output directory. */
  lemma ParentIdEscapes(name: string)
    requires IsName(name) && name != "AF2jobs"
    ensures Granted(JobDir(".."), name)
    ensures Resolve(JobDir(".."), name) == "/storage/Data/" + name
    ensures !Within(BASE_OUTPUT_DIR, Resolve(JobDir(".."), name))
  {
    ParentIdDir();
    ParentIdResolve(name);
    DataEntryOutsideBase(name);
    var t := "/storage/Data/" + name;
    assert t[..13] == "/storage/Data";
  }
}
