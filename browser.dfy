/** The result browser of scripts/web.py: `browse` (a directory listing or a
    file), `download_file`, `view_image` and `view_file`. The file system is
    a snapshot mapping normalised absolute paths to nodes; every handler
    resolves the requested path under the job directory and applies the
    access check of the Sandbox module first. */
module Browser {
  import opened Wrappers
  import opened Strings
  import opened Paths
  import opened Jobs
  import opened Sandbox

  datatype Node = Dir | File(size: nat)

  /** What `os.path.exists`, `isdir`, `isfile`, `getsize` and `listdir` see. */
  type Fs = map<string, Node>

  /** Paths are stored in normal form, as the operating system reports them. */
  predicate WellFormed(fs: Fs) {
    forall p :: p in fs ==> IsAbsolute(p) && AbsPath(p) == p
  }

  predicate IsDir(fs: Fs, p: string)
    requires IsAbsolute(p)
  {
    AbsPath(p) in fs && fs[AbsPath(p)].Dir?
  }

  predicate IsFile(fs: Fs, p: string)
    requires IsAbsolute(p)
  {
    AbsPath(p) in fs && fs[AbsPath(p)].File?
  }

  /** `os.path.abspath(os.path.join(job_output_dir, filepath))`. */
  function Target(id: string, filepath: string): string {
    Resolve(JobDir(id), filepath)
  }

  // ---------------------------------------------------------------------
  // Directory entries

  function ChildPrefix(d: string): string {
    if EndsInSlash(d) then d else d + "/"
  }

  predicate IsChildKey(d: string, k: string) {
    StartsWith(k, ChildPrefix(d)) && |k| > |ChildPrefix(d)| && '/' !in k[|ChildPrefix(d)|..]
  }

  function Suffix(d: string, k: string): string
    requires IsChildKey(d, k)
  {
    k[|ChildPrefix(d)|..]
  }

  lemma ChildKeyInjective(d: string)
    ensures forall k1, k2 :: IsChildKey(d, k1) && IsChildKey(d, k2) && Suffix(d, k1) == Suffix(d, k2) ==> k1 == k2
  {
    var pre := ChildPrefix(d);
    forall k1, k2 | IsChildKey(d, k1) && IsChildKey(d, k2) && Suffix(d, k1) == Suffix(d, k2) ensures k1 == k2 {
      assert k1 == k1[..|pre|] + k1[|pre|..];
      assert k2 == k2[..|pre|] + k2[|pre|..];
    }
  }

  /** The entries of directory `d`, by name, with their nodes. */
  function Listdir(fs: Fs, d: string): map<string, Node> {
    ChildKeyInjective(d);
    map k | k in fs && IsChildKey(d, k) :: Suffix(d, k) := fs[k]
  }

  /** An entry of `d` called `name` is the node stored at `join(d, name)`. */
  lemma ListdirKey(fs: Fs, d: string, name: string)
    requires IsAbsolute(d) && name in Listdir(fs, d)
    ensures name != "" && '/' !in name
    ensures Join(d, name) in fs && fs[Join(d, name)] == Listdir(fs, d)[name]
  {
    var pre := ChildPrefix(d);
    ChildKeyInjective(d);
    var k :| k in fs && IsChildKey(d, k) && Suffix(d, k) == name;
    assert Listdir(fs, d)[name] == fs[k];
    assert k == pre + name by { assert k == k[..|pre|] + k[|pre|..]; }
    assert !IsAbsolute(name) by { assert name[0] in name; }
    JoinRelative(d, name);
  }

  /** The base name of `join(d, name)` is `name`. */
  lemma ChildBasename(d: string, name: string)
    requires IsAbsolute(d) && name != "" && '/' !in name
    ensures Basename(Join(d, name)) == name
  {
    var a := if EndsInSlash(d) then d[..|d| - 1] else d;
    assert !IsAbsolute(name) by { assert name[0] in name; }
    JoinSep(d, name);
    if EndsInSlash(d) {
      assert d == a + "/";
    }
    assert Join(d, name) == a + "/" + name;
    LastSepAfter(a, name);
    assert (a + "/" + name)[|a| + 1..] == name;
  }

  /** The base name of a normal path is empty (the root) or an ordinary name. */
  lemma NormalBasename(k: string)
    requires IsAbsolute(k) && AbsPath(k) == k
    ensures Basename(k) == "" || IsName(Basename(k))
  {
    SegmentsAreNames(k);
    LeadForms(k);
    if |Segments(k)| > 0 {
      DirnameOfNames(Lead(k), Segments(k));
    } else {
      assert AbsPath(k) == Lead(k) + "";
      DirnameLead(Lead(k), "");
    }
  }

  /** In a well-formed snapshot every entry name is an ordinary name. */
  lemma ListdirNames(fs: Fs, d: string, name: string)
    requires WellFormed(fs) && IsAbsolute(d) && name in Listdir(fs, d)
    ensures IsName(name)
  {
    ListdirKey(fs, d, name);
    ChildBasename(d, name);
    NormalBasename(Join(d, name));
  }

  // ---------------------------------------------------------------------
  // Links and responses

  /** The named routes the pages link to. `BrowseTop` is
      `/AF2IBS/browse/<job_id>`, which has no `filepath` wildcard. */
  datatype Route = BrowseTop | BrowseSub | DownloadRoute | ViewImageRoute | ViewFileRoute

  /** `app.get_url(route, job_id=id, filepath=path)`. On `BrowseTop`, an
      argument the route does not declare becomes a query parameter. */
  datatype Link = Link(route: Route, id: string, path: string)

  /** The `filepath` the handler behind a link is called with: `browse`
      reads only its route wildcards, so a query `filepath` is dropped. */
  function Received(l: Link): string {
    if l.route == BrowseTop then "" else l.path
  }

  datatype Entry =
    | DirEntry(name: string, open: Link)
    | FileEntry(name: string, download: Link, view: Link, size: nat)

  datatype Disposition = Attachment(filename: string) | Inline(mimetype: string)

  datatype Response =
    | Error(code: int, message: string)
    | Listing(title: string, parent: Option<Link>, entries: seq<Entry>)
    | StaticFile(root: string, name: string, disposition: Disposition)

  /** `item.lower().endswith('.png')`. */
  predicate IsPng(item: string) {
    EndsWith(LowerAll(item), ".png")
  }

  /** The list item for directory entry `item` whose node is `node`. */
  function EntryFor(node: Node, id: string, filepath: string, item: string): (e: Entry)
    ensures e.name == item
    ensures e.DirEntry? <==> node.Dir?
    ensures e.DirEntry? ==> e.open == Link(BrowseSub, id, Join(filepath, item))
    ensures e.FileEntry? ==>
      e.download == Link(DownloadRoute, id, Join(filepath, item))
      && e.view.path == Join(filepath, item) && e.view.id == id
      && (e.view.route == ViewImageRoute <==> IsPng(item))
      && (e.view.route != ViewImageRoute ==> e.view.route == ViewFileRoute)
      && e.size == node.size
  {
    var path := Join(filepath, item);
    if node.Dir? then DirEntry(item, Link(BrowseSub, id, path))
    else
      FileEntry(item, Link(DownloadRoute, id, path),
                Link(if IsPng(item) then ViewImageRoute else ViewFileRoute, id, path),
                node.size)
  }

  /** The "[Parent Directory]" link: `get_url('browse', job_id=id,
      filepath=dirname(filepath))`. */
  function ParentLink(id: string, filepath: string): Link {
    Link(BrowseTop, id, Dirname(filepath))
  }

  /** The page title `filepath or job_id`. */
  function Title(id: string, filepath: string): string {
    if filepath == "" then id else filepath
  }

  function Names(es: seq<Entry>): (r: seq<string>)
    ensures |r| == |es| && forall i :: 0 <= i < |es| ==> r[i] == es[i].name
  {
    seq(|es|, i requires 0 <= i < |es| => es[i].name)
  }

  /** `es` lists the entries of `d`: each once, in ascending order, each the
      item `EntryFor` renders from its node. */
  ghost predicate ListsChildren(fs: Fs, d: string, id: string, filepath: string, es: seq<Entry>) {
    StrictlySorted(Names(es))
    && (forall n :: n in Names(es) <==> n in Listdir(fs, d))
    && (forall i :: 0 <= i < |es| ==>
          es[i].name in Listdir(fs, d) && es[i] == EntryFor(Listdir(fs, d)[es[i].name], id, filepath, es[i].name))
  }

  /** The listing does not depend on the order `os.listdir` returns. */
  lemma ListingUnique(fs: Fs, d: string, id: string, filepath: string, es1: seq<Entry>, es2: seq<Entry>)
    requires ListsChildren(fs, d, id, filepath, es1) && ListsChildren(fs, d, id, filepath, es2)
    ensures es1 == es2
  {
    StrictlySortedUnique(Names(es1), Names(es2));
    assert |es1| == |es2|;
    forall i | 0 <= i < |es1| ensures es1[i] == es2[i] {
      assert es1[i].name == Names(es1)[i] == Names(es2)[i] == es2[i].name;
    }
  }

  /** Every link of a granted listing passes the access check again and
      resolves to the entry it is shown for. */
  lemma ListingLinksResolve(fs: Fs, id: string, filepath: string, name: string)
    requires WellFormed(fs) && Granted(JobDir(id), filepath)
    requires name in Listdir(fs, Target(id, filepath))
    ensures Granted(JobDir(id), Join(filepath, name))
    ensures Target(id, Join(filepath, name)) in fs
    ensures fs[Target(id, Join(filepath, name))] == Listdir(fs, Target(id, filepath))[name]
  {
    var d := Target(id, filepath);
    AbsPathIdempotent(Join(JobDir(id), filepath));
    ListdirNames(fs, d, name);
    ListdirKey(fs, d, name);
    ChildResolve(JobDir(id), filepath, name);
    ChildGranted(JobDir(id), filepath, name);
  }

  // ---------------------------------------------------------------------
  // Handlers

  /** `os.listdir(d)`: the names of the entries, each once, in no
      particular order. */
  method ListDir(fs: Fs, d: string) returns (names: seq<string>)
    ensures forall n :: n in names <==> n in Listdir(fs, d)
    ensures Distinct(names)
  {
    var entries := Listdir(fs, d);
    var left := entries.Keys;
    names := [];
    while left != {}
      invariant left <= entries.Keys
      invariant forall n :: n in names ==> n in entries && n !in left
      invariant forall n :: n in entries ==> n in names || n in left
      invariant Distinct(names)
      decreases |left|
    {
      var n :| n in left;
      names := names + [n];
      left := left - {n};
    }
  }

  /** The served directory and base name join back to the target. */
  lemma TargetParts(id: string, filepath: string)
    ensures Join(Dirname(Target(id, filepath)), Basename(Target(id, filepath))) == Target(id, filepath)
    ensures '/' !in Basename(Target(id, filepath))
    ensures IsAbsolute(Target(id, filepath))
  {
    DirBaseJoin(Join(JobDir(id), filepath));
    AbsPathIdempotent(Join(JobDir(id), filepath));
  }

  /** `download_file(job_id, filepath)`: checked access, then existence, then
      the file itself as an attachment under its base name. Bottle's
      `static_file` refuses anything that exists but is not a regular file
      (a directory) with its own 404. */
  function DownloadFile(fs: Fs, id: string, filepath: string): (r: Response)
    ensures r == Error(403, "Access denied.") <==> !Granted(JobDir(id), filepath)
    ensures r == Error(404, "File not found.") <==>
      Granted(JobDir(id), filepath) && !Exists(fs.Keys, Target(id, filepath))
    ensures r == Error(404, "File does not exist.") <==>
      Granted(JobDir(id), filepath) && Exists(fs.Keys, Target(id, filepath)) && !IsFile(fs, Target(id, filepath))
    ensures r.StaticFile? <==> Granted(JobDir(id), filepath) && IsFile(fs, Target(id, filepath))
    ensures r.StaticFile? ==>
      Join(r.root, r.name) == Target(id, filepath) && '/' !in r.name
      && r.disposition == Attachment(r.name)
  {
    var t := Target(id, filepath);
    TargetParts(id, filepath);
    if !StartsWith(t, AbsPath(JobDir(id))) then Error(403, "Access denied.")
    else if !Exists(fs.Keys, t) then Error(404, "File not found.")
    else if !IsFile(fs, t) then Error(404, "File does not exist.")
    else StaticFile(Dirname(t), Basename(t), Attachment(Basename(t)))
  }

  /** The shared body of `view_image` and `view_file`: checked access, then
      a regular file, served inline with the given media type. Both report a
      missing file as "Image not found.". */
  function View(fs: Fs, id: string, filepath: string, mimetype: string): (r: Response)
    ensures r == Error(403, "Access denied.") <==> !Granted(JobDir(id), filepath)
    ensures r == Error(404, "Image not found.") <==>
      Granted(JobDir(id), filepath) && !IsFile(fs, Target(id, filepath))
    ensures r.StaticFile? <==> Granted(JobDir(id), filepath) && IsFile(fs, Target(id, filepath))
    ensures r.StaticFile? ==>
      Join(r.root, r.name) == Target(id, filepath) && '/' !in r.name
      && r.disposition == Inline(mimetype)
  {
    var t := Target(id, filepath);
    TargetParts(id, filepath);
    if !StartsWith(t, AbsPath(JobDir(id))) then Error(403, "Access denied.")
    else if !IsFile(fs, t) then Error(404, "Image not found.")
    else StaticFile(Dirname(t), Basename(t), Inline(mimetype))
  }

  function ViewImage(fs: Fs, id: string, filepath: string): (r: Response)
    ensures r.StaticFile? ==> r.disposition == Inline("image/png")
    ensures r.StaticFile? <==> Granted(JobDir(id), filepath) && IsFile(fs, Target(id, filepath))
  {
    View(fs, id, filepath, "image/png")
  }

  function ViewFile(fs: Fs, id: string, filepath: string): (r: Response)
    ensures r.StaticFile? ==> r.disposition == Inline("text/plain")
    ensures r.StaticFile? <==> Granted(JobDir(id), filepath) && IsFile(fs, Target(id, filepath))
  {
    View(fs, id, filepath, "text/plain")
  }

  /** A file the viewers serve is served by the download handler too, under
      the same directory and name. */
  lemma ViewedIsDownloadable(fs: Fs, id: string, filepath: string, mimetype: string)
    requires View(fs, id, filepath, mimetype).StaticFile?
    ensures DownloadFile(fs, id, filepath).StaticFile?
    ensures DownloadFile(fs, id, filepath).root == View(fs, id, filepath, mimetype).root
    ensures DownloadFile(fs, id, filepath).name == View(fs, id, filepath, mimetype).name
  {
  }

  lemma ListingFromItems(fs: Fs, d: string, id: string, filepath: string, items: seq<string>, links: seq<Entry>)
    requires StrictlySorted(items) && forall n :: n in items <==> n in Listdir(fs, d)
    requires |links| == |items|
    requires forall k :: 0 <= k < |items| ==>
      items[k] in Listdir(fs, d) && links[k] == EntryFor(Listdir(fs, d)[items[k]], id, filepath, items[k])
    ensures ListsChildren(fs, d, id, filepath, links)
  {
    assert Names(links) == items;
  }

  /** The loop of `browse` over the sorted entries `items` of a directory. */
  method RenderItems(listing: map<string, Node>, id: string, filepath: string, items: seq<string>)
    returns (links: seq<Entry>)
    requires forall n :: n in items ==> n in listing
    ensures |links| == |items|
    ensures forall k :: 0 <= k < |items| ==>
      items[k] in listing && links[k] == EntryFor(listing[items[k]], id, filepath, items[k])
  {
    links := [];
    var i := 0;
    while i < |items|
      invariant 0 <= i <= |items|
      invariant |links| == i
      invariant forall k :: 0 <= k < i ==>
        items[k] in listing && links[k] == EntryFor(listing[items[k]], id, filepath, items[k])
    {
      var item := items[i];
      links := links + [EntryFor(listing[item], id, filepath, item)];
      i := i + 1;
    }
  }

  /** `os.listdir`, `items.sort()` and the loop: the listing of `d`. */
  method RenderListing(fs: Fs, d: string, id: string, filepath: string) returns (links: seq<Entry>)
    ensures ListsChildren(fs, d, id, filepath, links)
  {
    var found := ListDir(fs, d);
    SortDistinct(found);
    var items := Sort(found);
    links := RenderItems(Listdir(fs, d), id, filepath, items);
    ListingFromItems(fs, d, id, filepath, items, links);
  }

  /** `browse(job_id, filepath)`. */
  method Browse(fs: Fs, id: string, filepath: string) returns (resp: Response)
    requires WellFormed(fs)
    ensures resp == Error(404, "Job not found.") <==> !Exists(fs.Keys, JobDir(id))
    ensures resp == Error(403, "Access denied.") <==>
      Exists(fs.Keys, JobDir(id)) && !Granted(JobDir(id), filepath)
    ensures resp.Listing? <==>
      Exists(fs.Keys, JobDir(id)) && Granted(JobDir(id), filepath) && IsDir(fs, Target(id, filepath))
    ensures resp.StaticFile? <==>
      Exists(fs.Keys, JobDir(id)) && Granted(JobDir(id), filepath) && IsFile(fs, Target(id, filepath))
    ensures resp == Error(404, "File or directory not found.") <==>
      Exists(fs.Keys, JobDir(id)) && Granted(JobDir(id), filepath)
      && !Exists(fs.Keys, Target(id, filepath))
    ensures resp.StaticFile? ==> resp == DownloadFile(fs, id, filepath)
    ensures resp.Listing? ==>
      resp.title == Title(id, filepath)
      && resp.parent == (if filepath == "" then None else Some(ParentLink(id, filepath)))
      && ListsChildren(fs, Target(id, filepath), id, filepath, resp.entries)
  {
    if !Exists(fs.Keys, JobDir(id)) {
      return Error(404, "Job not found.");
    }
    var safeRoot := AbsPath(JobDir(id));
    var requested := Target(id, filepath);
    if !StartsWith(requested, safeRoot) {
      return Error(403, "Access denied.");
    }
    AbsPathIdempotent(Join(JobDir(id), filepath));
    if IsDir(fs, requested) {
      var links := RenderListing(fs, requested, id, filepath);
      var parent := if filepath == "" then None else Some(ParentLink(id, filepath));
      return Listing(Title(id, filepath), parent, links);
    } else if IsFile(fs, requested) {
      return DownloadFile(fs, id, filepath);
    } else {
      return Error(404, "File or directory not found.");
    }
  }

  // ---------------------------------------------------------------------
  // The parent link

  /** As written, the parent link always leads back to the top of the job:
      the `browse` route has no `filepath` wildcard, so the parent path
      travels as a query parameter that `browse` never reads. */
  lemma ParentLinkReturnsToTop(id: string, filepath: string)
    ensures Received(ParentLink(id, filepath)) == ""
    ensures Received(ParentLink(id, "a/b")) == "" && Dirname("a/b") == "a"
  {
    DirnameAfter("a", "b");
    assert "a" + "/" + "b" == "a/b";
  }

  /** The link that reaches the parent: `browse_sub` with the parent path, or
      `browse` when the parent is the job directory itself. */
  function FixedParentLink(id: string, filepath: string): (l: Link)
    ensures Received(l) == Dirname(filepath)
  {
    if Dirname(filepath) == "" then Link(BrowseTop, id, "") else Link(BrowseSub, id, Dirname(filepath))
  }

  lemma ResolveForm(root: string, fp: string)
    requires IsAbsolute(root) && !IsAbsolute(fp)
    ensures Resolve(root, fp) == Lead(root) + JoinWith(Fold(Segments(root), Split(fp, '/')), '/')
  {
    JoinSegments(root, fp);
  }

  /** Resolving a relative path of ordinary names appends them to the root's segments. */
  lemma NamesTarget(root: string, names: seq<string>)
    requires IsAbsolute(root) && AllNames(names) && |names| > 0
    ensures !IsAbsolute(JoinWith(names, '/'))
    ensures Resolve(root, JoinWith(names, '/')) == Lead(root) + JoinWith(Segments(root) + names, '/')
  {
    var fp := JoinWith(names, '/');
    JoinNamesStart(names);
    SplitJoin(names, '/');
    assert Split(fp, '/') == names;
    ResolveForm(root, fp);
    FoldNames(Segments(root), names);
  }

  lemma TopTarget(root: string)
    requires IsAbsolute(root)
    ensures Resolve(root, "") == Lead(root) + JoinWith(Segments(root), '/')
  {
    ResolveForm(root, "");
    assert Split("", '/') == [""];
    assert Fold(Segments(root), [""]) == Segments(root);
  }

  lemma LeadForms(p: string)
    requires IsAbsolute(p)
    ensures Lead(p) == "/" || Lead(p) == "//"
  {
  }

  lemma RelativeDirname(names: seq<string>)
    requires AllNames(names) && |names| > 1
    ensures Dirname(JoinWith(names, '/')) == JoinWith(names[..|names| - 1], '/')
  {
    DirnameOfNames("", names);
    assert "" + JoinWith(names, '/') == JoinWith(names, '/');
    assert "" + JoinWith(names[..|names| - 1], '/') == JoinWith(names[..|names| - 1], '/');
  }

  lemma DirnameConcat(lead: string, r: seq<string>, names: seq<string>)
    requires lead == "/" || lead == "//"
    requires AllNames(r) && AllNames(names) && |names| > 1
    ensures Dirname(lead + JoinWith(r + names, '/')) == lead + JoinWith(r + names[..|names| - 1], '/')
  {
    var all := r + names;
    assert AllNames(all);
    DirnameOfNames(lead, all);
    assert all[..|all| - 1] == r + names[..|names| - 1];
  }

  lemma TargetDirname(root: string, names: seq<string>)
    requires IsAbsolute(root) && AllNames(names) && |names| > 1
    ensures Dirname(Resolve(root, JoinWith(names, '/')))
      == Lead(root) + JoinWith(Segments(root) + names[..|names| - 1], '/')
  {
    SegmentsAreNames(root);
    LeadForms(root);
    NamesTarget(root, names);
    DirnameConcat(Lead(root), Segments(root), names);
  }

  lemma ParentUpMany(root: string, names: seq<string>)
    requires IsAbsolute(root) && AllNames(names) && |names| > 1
    ensures Resolve(root, Dirname(JoinWith(names, '/'))) == Dirname(Resolve(root, JoinWith(names, '/')))
  {
    var init := names[..|names| - 1];
    RelativeDirname(names);
    NamesTarget(root, init);
    TargetDirname(root, names);
  }

  /** Dropping the last of several names is taking the dirname. */
  lemma DirnameSnoc(lead: string, r: seq<string>, w: string)
    requires lead == "/" || lead == "//"
    requires AllNames(r) && IsName(w)
    ensures Dirname(lead + JoinWith(r + [w], '/')) == lead + JoinWith(r, '/')
  {
    var all := r + [w];
    assert AllNames(all);
    if |r| > 0 {
      DirnameOfNames(lead, all);
      assert all[..|all| - 1] == r;
    } else {
      assert all == [w];
      assert JoinWith(all, '/') == w;
      DirnameOne(lead, w);
      assert lead + JoinWith(r, '/') == lead;
    }
  }

  lemma ParentUpOne(root: string, w: string)
    requires IsAbsolute(root) && IsName(w)
    ensures Resolve(root, Dirname(w)) == Dirname(Resolve(root, w))
  {
    SegmentsAreNames(root);
    LeadForms(root);
    DirnameBare(w);
    TopTarget(root);
    assert JoinWith([w], '/') == w;
    NamesTarget(root, [w]);
    DirnameSnoc(Lead(root), Segments(root), w);
  }

  /** The fixed link leads one level up from the listed directory. */
  lemma FixedParentLinkGoesUp(id: string, names: seq<string>)
    requires AllNames(names) && |names| > 0
    ensures var fp := JoinWith(names, '/');
      Target(id, Received(FixedParentLink(id, fp))) == Dirname(Target(id, fp))
  {
    if |names| > 1 {
      ParentUpMany(JobDir(id), names);
    } else {
      assert JoinWith(names, '/') == names[0];
      ParentUpOne(JobDir(id), names[0]);
    }
  }
}
