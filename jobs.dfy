/** Job identity, on-disk layout and the status resolver of the web front end
    (scripts/web.py): the job id is the MD5 digest of the stripped submission
    plus one newline, every path of a job is derived from that id, and the
    status page infers the job's state from which sentinel files exist. */
module Jobs {
  import opened Wrappers
  import opened Strings
  import opened Paths

  // ---------------------------------------------------------------------
  // Normalisation of the submitted text

  /** Python's `str.isspace` for one character. */
  predicate IsSpace(c: char) {
    c == ' ' || ('\t' <= c <= '\r') || ('\U{1c}' <= c <= '\U{1f}')
    || c == '\U{85}' || c == '\U{a0}' || c == '\U{1680}'
    || ('\U{2000}' <= c <= '\U{200a}') || c == '\U{2028}' || c == '\U{2029}'
    || c == '\U{202f}' || c == '\U{205f}' || c == '\U{3000}'
  }

  predicate AllSpace(s: string) {
    forall i :: 0 <= i < |s| ==> IsSpace(s[i])
  }

  /** `s.lstrip()`: the longest suffix of `s` that does not start with whitespace. */
  function TrimStart(s: string): (r: string)
    ensures EndsWith(s, r) && AllSpace(s[..|s| - |r|])
    ensures |r| == 0 || !IsSpace(r[0])
  {
    if |s| > 0 && IsSpace(s[0]) then
      var t := s[1..];
      var r := TrimStart(t);
      assert s[|s| - |r|..] == t[|t| - |r|..];
      assert s[..|s| - |r|] == [s[0]] + t[..|t| - |r|];
      r
    else s
  }

  /** `s.rstrip()`: the longest prefix of `s` that does not end with whitespace. */
  function TrimEnd(s: string): (r: string)
    ensures StartsWith(s, r) && AllSpace(s[|r|..])
    ensures |r| == 0 || !IsSpace(r[|r| - 1])
  {
    if |s| > 0 && IsSpace(s[|s| - 1]) then
      var t := s[..|s| - 1];
      var r := TrimEnd(t);
      assert s[|r|..] == t[|r|..] + [s[|s| - 1]];
      assert s[..|r|] == t[..|r|];
      r
    else s
  }

  /** `s.strip()`. */
  function Strip(s: string): string {
    TrimEnd(TrimStart(s))
  }

  /** The text written to the input file and hashed: `sequences.strip() + '\n'`
      (scripts/web.py:54). */
  function Normalize(sequences: string): string {
    Strip(sequences) + "\n"
  }

  lemma {:induction false} TrimStartSpaces(w: string, s: string)
    requires AllSpace(w)
    ensures TrimStart(w + s) == TrimStart(s)
  {
    if |w| > 0 {
      assert (w + s)[1..] == w[1..] + s;
      TrimStartSpaces(w[1..], s);
    } else {
      assert w + s == s;
    }
  }

  lemma {:induction false} TrimEndSpaces(s: string, w: string)
    requires AllSpace(w)
    ensures TrimEnd(s + w) == TrimEnd(s)
  {
    if |w| > 0 {
      assert (s + w)[..|s + w| - 1] == s + w[..|w| - 1];
      TrimEndSpaces(s, w[..|w| - 1]);
    } else {
      assert s + w == s;
    }
  }

  lemma {:induction false} TrimStartAppend(s: string, t: string)
    ensures TrimStart(s + t) == if TrimStart(s) == "" then TrimStart(t) else TrimStart(s) + t
  {
    if |s| > 0 {
      assert (s + t)[0] == s[0];
      if IsSpace(s[0]) {
        assert (s + t)[1..] == s[1..] + t;
        TrimStartAppend(s[1..], t);
      }
    } else {
      assert s + t == t;
    }
  }

  lemma TrimEndOfTrimmed(s: string)
    requires |s| == 0 || !IsSpace(s[|s| - 1])
    ensures TrimEnd(s) == s
  {
  }

  lemma TrimStartOfTrimmed(s: string)
    requires |s| == 0 || !IsSpace(s[0])
    ensures TrimStart(s) == s
  {
  }

  /** Whitespace around the submission does not change what `strip` keeps. */
  lemma StripSurroundingSpace(w1: string, s: string, w2: string)
    requires AllSpace(w1) && AllSpace(w2)
    ensures Strip(w1 + s + w2) == Strip(s)
  {
    assert w1 + s + w2 == w1 + (s + w2);
    TrimStartSpaces(w1, s + w2);
    TrimStartAppend(s, w2);
    if TrimStart(s) == "" {
      TrimStartSpaces(w2, "");
      assert w2 + "" == w2;
    } else {
      TrimEndSpaces(TrimStart(s), w2);
    }
  }

  /** The normalised text ends with exactly one newline, and nothing else
      around it is whitespace. */
  lemma NormalizeShape(sequences: string)
    ensures var n := Normalize(sequences);
      |n| >= 1 && n[|n| - 1] == '\n'
      && (|n| == 1 || (!IsSpace(n[0]) && !IsSpace(n[|n| - 2])))
  {
    var t := TrimStart(sequences);
    var r := TrimEnd(t);
    if |r| > 0 {
      assert r[0] == t[0];
    }
  }

  lemma StripEnds(s: string)
    ensures var r := Strip(s); |r| == 0 || (!IsSpace(r[0]) && !IsSpace(r[|r| - 1]))
  {
    var t := TrimStart(s);
    var r := TrimEnd(t);
    if |r| > 0 { assert r[0] == t[0]; }
  }

  /** Normalising the stored input again gives the same text. */
  lemma NormalizeIdempotent(sequences: string)
    ensures Normalize(Normalize(sequences)) == Normalize(sequences)
  {
    var r := Strip(sequences);
    StripEnds(sequences);
    TrimStartAppend(r, "\n");
    if r == "" {
      assert TrimStart("\n") == "" by { assert "\n"[1..] == ""; }
      assert r + "\n" == "\n";
    } else {
      TrimStartOfTrimmed(r);
      assert TrimStart(r + "\n") == r + "\n";
      assert AllSpace("\n");
      TrimEndSpaces(r, "\n");
      TrimEndOfTrimmed(r);
    }
  }

  // ---------------------------------------------------------------------
  // Job identity

  predicate IsHexDigest(s: string) {
    |s| == 32 && forall i :: 0 <= i < |s| ==> s[i] in "0123456789abcdef"
  }

  /** What `hexdigest()` of MD5 returns: 32 lower-case hexadecimal digits. */
  type Digest = s: string | IsHexDigest(s) witness "00000000000000000000000000000000"

  /** `hashlib.md5(sequences.encode("utf-8")).hexdigest()` of the normalised
      submission (scripts/web.py:54-59); `md5` stands for the digest function,
      UTF-8 encoding included. */
  function JobId(md5: string -> Digest, sequences: string): Digest {
    md5(Normalize(sequences))
  }

  /** Two submissions that differ only in surrounding whitespace get the same job. */
  lemma JobIdIgnoresSurroundingSpace(md5: string -> Digest, w1: string, s: string, w2: string)
    requires AllSpace(w1) && AllSpace(w2)
    ensures JobId(md5, w1 + s + w2) == JobId(md5, s)
  {
    StripSurroundingSpace(w1, s, w2);
  }

  // ---------------------------------------------------------------------
  // Layout on disk (scripts/web.py:11-12, 62-66, 278-286, 299)

  const BASE_OUTPUT_DIR: string := "/storage/Data/AF2jobs"
  const BASE_NAMES: seq<string> := ["storage", "Data", "AF2jobs"]

  function LogFile(): string { Join(BASE_OUTPUT_DIR, "AF2.log") }

  function JobDir(id: string): string { Join(BASE_OUTPUT_DIR, id) }

  function InputFile(id: string): string { Join(JobDir(id), "input_" + id + ".fasta") }

  /** The worker's directory inside the job directory. */
  function WorkName(id: string): string { "input_" + id + "_full_dbs" }

  function FinishedFlag(id: string): string { Join(JobDir(id), WorkName(id) + "/finished.txt") }

  function FailedFlag(id: string): string { Join(JobDir(id), WorkName(id) + "/failed.txt") }

  /** Built from the base directory, not from the job directory (scripts/web.py:285). */
  function RunningFlag(id: string): string { Join(BASE_OUTPUT_DIR, WorkName(id) + "/running.txt") }

  function ErrorLog(id: string): string { Join(JobDir(id), WorkName(id) + ".log") }

  lemma BaseIsCanonical()
    ensures BASE_OUTPUT_DIR == "/" + JoinWith(BASE_NAMES, '/')
    ensures AllNames(BASE_NAMES)
  {
    assert JoinWith(BASE_NAMES, '/') == "storage" + "/" + ("Data" + "/" + "AF2jobs");
  }

  lemma DigestNoSlash(id: Digest)
    ensures '/' !in id && id[0] != '.'
  {
    assert id[0] in "0123456789abcdef";
    forall i | 0 <= i < |id| ensures id[i] != '/' {
      assert id[i] in "0123456789abcdef";
    }
  }

  /** Gluing slash-free pieces gives a slash-free string. */
  lemma NoSlashConcat(a: string, b: string)
    requires '/' !in a && '/' !in b
    ensures '/' !in a + b
  {
    forall i | 0 <= i < |a + b| ensures (a + b)[i] != '/' {
      if i < |a| { assert (a + b)[i] == a[i]; } else { assert (a + b)[i] == b[i - |a|]; }
    }
  }

  lemma DigestIsName(id: Digest)
    ensures IsName(id) && IsName(WorkName(id))
    ensures '/' !in "input_" + id + ".fasta"
  {
    DigestNoSlash(id);
    NoSlashConcat("input_", id);
    NoSlashConcat("input_" + id, "_full_dbs");
    NoSlashConcat("input_" + id, ".fasta");
  }

  function Canon(names: seq<string>): string { "/" + JoinWith(names, '/') }

  lemma JoinPlain(a: string, b: string)
    requires |a| > 0 && a[|a| - 1] != '/'
    requires |b| > 0 && b[0] != '/'
    ensures Join(a, b) == a + "/" + b
  {
  }

  /** The job directory of an MD5 id, written out; it ends in a hex digit. */
  lemma JobDirPlain(id: Digest)
    ensures JobDir(id) == BASE_OUTPUT_DIR + "/" + id
    ensures |JobDir(id)| == 54 && JobDir(id)[53] == id[31]
  {
    assert id[0] in "0123456789abcdef";
    JoinPlain(BASE_OUTPUT_DIR, id);
  }

  /** A relative name under the job directory is appended after one `/`. */
  lemma UnderJobDir(id: Digest, rest: string)
    requires |rest| > 0 && rest[0] != '/'
    ensures Join(JobDir(id), rest) == JobDir(id) + "/" + rest
  {
    JobDirPlain(id);
    assert id[31] in "0123456789abcdef";
    JoinPlain(JobDir(id), rest);
  }

  lemma SlashAssoc(a: string, w: string, f: string)
    ensures a + "/" + (w + ("/" + f)) == a + "/" + w + "/" + f
  {
  }

  lemma FinishedPlain(id: Digest)
    ensures FinishedFlag(id) == JobDir(id) + "/" + WorkName(id) + "/" + "finished.txt"
  {
    var w := WorkName(id);
    UnderJobDir(id, w + "/finished.txt");
    SlashAssoc(JobDir(id), w, "finished.txt");
  }

  lemma FailedPlain(id: Digest)
    ensures FailedFlag(id) == JobDir(id) + "/" + WorkName(id) + "/" + "failed.txt"
  {
    var w := WorkName(id);
    UnderJobDir(id, w + "/failed.txt");
    SlashAssoc(JobDir(id), w, "failed.txt");
  }

  lemma RunningPlain(id: Digest)
    ensures RunningFlag(id) == BASE_OUTPUT_DIR + "/" + WorkName(id) + "/" + "running.txt"
  {
    var w := WorkName(id);
    JoinPlain(BASE_OUTPUT_DIR, w + "/running.txt");
    SlashAssoc(BASE_OUTPUT_DIR, w, "running.txt");
  }

  /** The paths of an MD5 id, written out. */
  lemma DigestPaths(id: Digest)
    ensures JobDir(id) == BASE_OUTPUT_DIR + "/" + id
    ensures InputFile(id) == JobDir(id) + "/" + ("input_" + id + ".fasta")
    ensures FinishedFlag(id) == JobDir(id) + "/" + WorkName(id) + "/" + "finished.txt"
    ensures FailedFlag(id) == JobDir(id) + "/" + WorkName(id) + "/" + "failed.txt"
    ensures RunningFlag(id) == BASE_OUTPUT_DIR + "/" + WorkName(id) + "/" + "running.txt"
    ensures ErrorLog(id) == JobDir(id) + "/" + (WorkName(id) + ".log")
  {
    JobDirPlain(id);
    UnderJobDir(id, "input_" + id + ".fasta");
    FinishedPlain(id);
    FailedPlain(id);
    RunningPlain(id);
    UnderJobDir(id, WorkName(id) + ".log");
  }

  lemma CanonSnoc(names: seq<string>, x: string)
    requires |names| >= 1
    ensures Canon(names + [x]) == Canon(names) + "/" + x
  {
    JoinWithSnoc(names, x, '/');
  }

  lemma JobDirCanon(id: Digest)
    ensures JobDir(id) == Canon(BASE_NAMES + [id])
  {
    BaseIsCanonical();
    DigestPaths(id);
    CanonSnoc(BASE_NAMES, id);
  }

  /** For an MD5 id every path of the job is already in normal form, the
      input file, the finished and failed sentinels and the error log lie inside
      the job directory, and the running sentinel lies beside it. */
  lemma DigestLayout(id: Digest)
    ensures JobDir(id) == Canon(BASE_NAMES + [id])
    ensures InputFile(id) == Canon(BASE_NAMES + [id, "input_" + id + ".fasta"])
    ensures FinishedFlag(id) == Canon(BASE_NAMES + [id, WorkName(id), "finished.txt"])
    ensures FailedFlag(id) == Canon(BASE_NAMES + [id, WorkName(id), "failed.txt"])
    ensures RunningFlag(id) == Canon(BASE_NAMES + [WorkName(id), "running.txt"])
    ensures ErrorLog(id) == Canon(BASE_NAMES + [id, WorkName(id) + ".log"])
  {
    BaseIsCanonical();
    DigestPaths(id);
    JobDirCanon(id);
    var b := BASE_NAMES;
    var w := WorkName(id);
    CanonSnoc(b + [id], "input_" + id + ".fasta");
    assert b + [id] + ["input_" + id + ".fasta"] == b + [id, "input_" + id + ".fasta"];
    CanonSnoc(b + [id], w);
    assert b + [id] + [w] == b + [id, w];
    CanonSnoc(b + [id, w], "finished.txt");
    assert b + [id, w] + ["finished.txt"] == b + [id, w, "finished.txt"];
    CanonSnoc(b + [id, w], "failed.txt");
    assert b + [id, w] + ["failed.txt"] == b + [id, w, "failed.txt"];
    CanonSnoc(b, w);
    CanonSnoc(b + [w], "running.txt");
    assert b + [w] + ["running.txt"] == b + [w, "running.txt"];
    CanonSnoc(b + [id], w + ".log");
    assert b + [id] + [w + ".log"] == b + [id, w + ".log"];
  }

  lemma NamesOfDigest(id: Digest)
    ensures AllNames(BASE_NAMES + [id])
    ensures AllNames(BASE_NAMES + [id, WorkName(id), "finished.txt"])
    ensures AllNames(BASE_NAMES + [id, WorkName(id), "failed.txt"])
    ensures AllNames(BASE_NAMES + [WorkName(id), "running.txt"])
    ensures AllNames(BASE_NAMES + [id, WorkName(id) + ".log"])
  {
    BaseIsCanonical();
    DigestIsName(id);
    assert '/' !in WorkName(id) + ".log";
  }

  /** For an MD5 id the paths the resolver looks at are already normal. */
  lemma DigestPathsNormal(id: Digest)
    ensures AbsPath(JobDir(id)) == JobDir(id)
    ensures AbsPath(FinishedFlag(id)) == FinishedFlag(id)
    ensures AbsPath(FailedFlag(id)) == FailedFlag(id)
    ensures AbsPath(RunningFlag(id)) == RunningFlag(id)
    ensures AbsPath(ErrorLog(id)) == ErrorLog(id)
  {
    DigestLayout(id);
    NamesOfDigest(id);
    var b := BASE_NAMES;
    var w := WorkName(id);
    NormalFormFixed("/", b + [id]);
    NormalFormFixed("/", b + [id, w, "finished.txt"]);
    NormalFormFixed("/", b + [id, w, "failed.txt"]);
    NormalFormFixed("/", b + [w, "running.txt"]);
    NormalFormFixed("/", b + [id, w + ".log"]);
  }

  // ---------------------------------------------------------------------
  // Status resolver (scripts/web.py:276-337)

  /** The five pages `job_results` can return; `Failed` names the log file it
      embeds when that file exists. */
  datatype JobStatus =
    | JobNotFound
    | Finished
    | Failed(errorLog: Option<string>)
    | Running
    | NotRunning

  /** `os.path.exists(p)` against a snapshot of the existing (normalised) paths. */
  predicate Exists(existing: set<string>, p: string)
    requires IsAbsolute(p)
  {
    AbsPath(p) in existing
  }

  /** The status page: 404 when the job directory is missing, otherwise the
      first sentinel that exists among finished, failed and running decides. */
  function Status(existing: set<string>, id: string): (s: JobStatus)
    ensures s == JobNotFound <==> !Exists(existing, JobDir(id))
    ensures s == Finished <==> Exists(existing, JobDir(id)) && Exists(existing, FinishedFlag(id))
    ensures s.Failed? <==>
      Exists(existing, JobDir(id)) && !Exists(existing, FinishedFlag(id)) && Exists(existing, FailedFlag(id))
    ensures s.Failed? ==> (s.errorLog.Some? <==> Exists(existing, ErrorLog(id)))
    ensures s == Running <==>
      Exists(existing, JobDir(id)) && !Exists(existing, FinishedFlag(id))
      && !Exists(existing, FailedFlag(id)) && Exists(existing, RunningFlag(id))
    ensures s == NotRunning <==>
      Exists(existing, JobDir(id)) && !Exists(existing, FinishedFlag(id))
      && !Exists(existing, FailedFlag(id)) && !Exists(existing, RunningFlag(id))
  {
    if !Exists(existing, JobDir(id)) then JobNotFound
    else if Exists(existing, FinishedFlag(id)) then Finished
    else if Exists(existing, FailedFlag(id)) then
      Failed(if Exists(existing, ErrorLog(id)) then Some(ErrorLog(id)) else None)
    else if Exists(existing, RunningFlag(id)) then Running
    else NotRunning
  }

  /** The HTTP status code of each page. */
  function StatusCode(s: JobStatus): int {
    if s == JobNotFound then 404 else 200
  }

  /** The normalised paths the resolver looks at. */
  function Watched(id: string): set<string> {
    {AbsPath(JobDir(id)), AbsPath(FinishedFlag(id)), AbsPath(FailedFlag(id)),
     AbsPath(RunningFlag(id)), AbsPath(ErrorLog(id))}
  }

  /** The resolver looks at nothing but its five paths. */
  lemma StatusReadsOnlyWatched(existing: set<string>, other: set<string>, id: string)
    requires existing * Watched(id) == other * Watched(id)
    ensures Status(existing, id) == Status(other, id)
  {
    var w := Watched(id);
    forall p | p in w ensures p in existing <==> p in other {
      assert p in existing <==> p in existing * w;
      assert p in other <==> p in other * w;
    }
    assert Exists(existing, JobDir(id)) == Exists(other, JobDir(id));
    assert Exists(existing, FinishedFlag(id)) == Exists(other, FinishedFlag(id));
    assert Exists(existing, FailedFlag(id)) == Exists(other, FailedFlag(id));
    assert Exists(existing, RunningFlag(id)) == Exists(other, RunningFlag(id));
    assert Exists(existing, ErrorLog(id)) == Exists(other, ErrorLog(id));
  }

  /** Priority of a page: a sentinel that appears can only move the status
      up this order, never down. */
  function Rank(s: JobStatus): nat {
    match s
    case JobNotFound => 0
    case NotRunning => 1
    case Running => 2
    case Failed(_) => 3
    case Finished => 4
  }

  lemma StatusMonotonic(existing: set<string>, later: set<string>, id: string)
    requires existing <= later
    ensures Rank(Status(existing, id)) <= Rank(Status(later, id))
  {
  }

  /** The resolver on the five situations a well-behaved worker produces, for
      an MD5 id: no directory, an empty job, and exactly one sentinel each. */
  lemma StatusScenarios(id: Digest)
    ensures Status({}, id) == JobNotFound
    ensures Status({JobDir(id)}, id) == NotRunning
    ensures Status({JobDir(id), FinishedFlag(id)}, id) == Finished
    ensures Status({JobDir(id), FailedFlag(id)}, id) == Failed(None)
    ensures Status({JobDir(id), FailedFlag(id), ErrorLog(id)}, id) == Failed(Some(ErrorLog(id)))
    ensures Status({JobDir(id), RunningFlag(id)}, id) == Running
    ensures Status({FinishedFlag(id), FailedFlag(id), RunningFlag(id)}, id) == JobNotFound
  {
    DigestPathsNormal(id);
    PathLengths(id);
  }

  lemma PathLengths(id: Digest)
    ensures |JobDir(id)| == 54
    ensures |FinishedFlag(id)| == 115
    ensures |FailedFlag(id)| == 113
    ensures |RunningFlag(id)| == 81
    ensures |ErrorLog(id)| == 106
  {
    DigestPaths(id);
  }

  /** The running sentinel is not inside the job directory, unlike the other
      two sentinels (the quirk of scripts/web.py:285). */
  lemma RunningSentinelOutsideJob(id: Digest)
    ensures Within(JobDir(id), FinishedFlag(id)) && Within(JobDir(id), FailedFlag(id))
    ensures !Within(JobDir(id), RunningFlag(id))
  {
    DigestPaths(id);
    var j := JobDir(id);
    var r := RunningFlag(id);
    assert !EndsWith(j, "/") by { assert j[|j| - 1] == id[31]; }
    assert r[22] == 'i' && (j + "/")[22] == id[0];
    assert id[0] in "0123456789abcdef";
  }
}
