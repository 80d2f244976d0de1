/** The submission handler of the web front end (scripts/web.py:43-86): it
    writes the normalised sequences into the job directory, launches the
    worker and appends one HTML table row to the audit log. The file system
    and the worker launch are modelled as a map of file contents and a trace
    of the side effects, in the order the handler performs them. */
module Audit {
  import opened Wrappers
  import opened Strings
  import opened Paths
  import opened Jobs

  // ---------------------------------------------------------------------
  // The fields of the audit row

  /** `email.split("@")[0]`: the part of the address before its first `@`. */
  function UserField(email: string): (user: string)
    ensures StartsWith(email, user)
    ensures '@' !in user
    ensures |user| < |email| ==> email[|user|] == '@'
  {
    SplitHead(email, '@');
    Split(email, '@')[0]
  }

  lemma SepBefore(email: string, a: string, b: string)
    requires StartsWith(email, a) && StartsWith(email, b) && '@' !in b && |a| < |b|
    ensures email[|a|] != '@'
  {
    assert email[|a|] == b[|a|];
    assert b[|a|] in b;
  }

  /** The three facts above determine the user field. */
  lemma UserFieldUnique(email: string, user: string)
    requires StartsWith(email, user) && '@' !in user
    requires |user| < |email| ==> email[|user|] == '@'
    ensures user == UserField(email)
  {
    var r := UserField(email);
    if |user| < |r| {
      SepBefore(email, user, r);
    } else if |r| < |user| {
      SepBefore(email, r, user);
    }
    assert email[..|user|] == user && email[..|r|] == r;
  }

  /** `environ.get('HTTP_X_FORWARDED_FOR') or environ.get('REMOTE_ADDR')`
      (scripts/web.py:45): Python's `or` keeps the header unless it is missing
      or empty. */
  function ClientIp(forwarded: Option<string>, remote: Option<string>): Option<string> {
    if forwarded.Some? && forwarded.value != "" then forwarded else remote
  }

  /** `scheme + "://" + netloc + get_url('job_results', job_id=...)`
      (scripts/web.py:78), with `origin` the scheme and host part. */
  function JobUrl(origin: string, id: string): string {
    origin + "/AF2IBS/job/" + id
  }

  /** The row appended to the audit log (scripts/web.py:80); `now` is the
      text of `str(datetime.now())`. */
  function AuditLine(now: string, email: string, ip: string, url: string, id: string, tokens: string): string {
    "<tr><td>" + now + "</td><td>" + UserField(email) + "</td><td>" + ip
      + "</td><td><a href=\"" + url + "\">" + id + "</a></td><td>" + tokens
      + "</td></tr>\n"
  }

  // ---------------------------------------------------------------------
  // Reading a row back

  datatype Record = Record(time: string, user: string, ip: string, url: string, id: string, tokens: string)

  /** Cuts `s` after its last `c`: the text up to and including that `c`,
      and the text after it. */
  function LastCut(s: string, c: char): (r: Option<(string, string)>)
    ensures r.Some? ==> r.value.0 + r.value.1 == s && c !in r.value.1
    ensures r.Some? ==> |r.value.0| > 0 && r.value.0[|r.value.0| - 1] == c
    ensures r.None? ==> c !in s
    decreases |s|
  {
    if |s| == 0 then None
    else if s[|s| - 1] == c then Some((s, ""))
    else
      assert s == s[..|s| - 1] + [s[|s| - 1]];
      match LastCut(s[..|s| - 1], c)
      case None => None
      case Some((h, t)) => Some((h, t + [s[|s| - 1]]))
  }

  /** The field that ends right before the closing text `tail` and starts
      right after a `c`, with what comes before it. */
  function Cut(s: string, tail: string, c: char): Option<(string, string)> {
    if EndsWith(s, tail) then LastCut(s[..|s| - |tail|], c) else None
  }

  /** Reads the fields of an audit row back, from its end to its start. */
  function ParseAuditLine(line: string): Option<Record> {
    match Cut(line, "</td></tr>\n", '>')
    case None => None
    case Some((h1, tokens)) =>
      match Cut(h1, "</a></td><td>", '>')
      case None => None
      case Some((h2, id)) =>
        match Cut(h2, "\">", '"')
        case None => None
        case Some((h3, url)) =>
          match Cut(h3, "</td><td><a href=\"", '>')
          case None => None
          case Some((h4, ip)) =>
            match Cut(h4, "</td><td>", '>')
            case None => None
            case Some((h5, user)) =>
              match Cut(h5, "</td><td>", '>')
              case None => None
              case Some((h6, time)) =>
                if h6 == "<tr><td>" then Some(Record(time, user, ip, url, id, tokens)) else None
  }

  lemma {:induction false} LastCutOf(h: string, f: string, c: char)
    requires |h| > 0 && h[|h| - 1] == c && c !in f
    ensures LastCut(h + f, c) == Some((h, f))
    decreases |f|
  {
    if |f| == 0 {
      assert h + f == h;
    } else {
      var s := h + f;
      var g := f[..|f| - 1];
      assert s[..|s| - 1] == h + g;
      assert s[|s| - 1] == f[|f| - 1] && f[|f| - 1] in f;
      LastCutOf(h, g, c);
      assert g + [f[|f| - 1]] == f;
    }
  }

  lemma CutOf(h: string, f: string, tail: string, c: char)
    requires |h| > 0 && h[|h| - 1] == c && c !in f
    ensures Cut(h + f + tail, tail, c) == Some((h, f))
  {
    var s := h + f + tail;
    assert s[|s| - |tail|..] == tail;
    assert s[..|s| - |tail|] == h + f;
    LastCutOf(h, f, c);
  }

  /** A row whose fields hold no `>` (and whose link holds no `"`) reads
      back into the fields it was written from. */
  lemma ParseAuditLineRoundTrip(now: string, email: string, ip: string, url: string, id: string, tokens: string)
    requires '>' !in now && '>' !in email && '>' !in ip && '>' !in id && '>' !in tokens
    requires '"' !in url
    ensures ParseAuditLine(AuditLine(now, email, ip, url, id, tokens))
         == Some(Record(now, UserField(email), ip, url, id, tokens))
  {
    var user := UserField(email);
    assert '>' !in user by {
      assert forall i :: 0 <= i < |user| ==> user[i] == email[i];
    }
    var h5 := "<tr><td>" + now + "</td><td>";
    var h4 := h5 + user + "</td><td>";
    var h3 := h4 + ip + "</td><td><a href=\"";
    var h2 := h3 + url + "\">";
    var h1 := h2 + id + "</a></td><td>";
    CutOf(h1, tokens, "</td></tr>\n", '>');
    CutOf(h2, id, "</a></td><td>", '>');
    CutOf(h3, url, "\">", '"');
    CutOf(h4, ip, "</td><td><a href=\"", '>');
    CutOf(h5, user, "</td><td>", '>');
    CutOf("<tr><td>", now, "</td><td>", '>');
  }

  /** A field holding `>` is not read back: with this tokens value the row
      yields another tokens field, or none. */
  lemma InjectedCellBreaksRow()
    ensures ParseAuditLine(AuditLine("t", "u", "i", "l", "d", "x</td><td>y")).Some? ==>
            ParseAuditLine(AuditLine("t", "u", "i", "l", "d", "x</td><td>y")).value.tokens == "y"
  {
    var h1 := "<tr><td>" + "t" + "</td><td>" + UserField("u") + "</td><td>" + "i"
      + "</td><td><a href=\"" + "l" + "\">" + "d" + "</a></td><td>" + "x</td><td>";
    assert AuditLine("t", "u", "i", "l", "d", "x</td><td>y") == h1 + "y" + "</td></tr>\n";
    CutOf(h1, "y", "</td></tr>\n", '>');
  }

  /** A row whose fields hold no newline adds exactly one line to the log. */
  lemma AuditLineIsOneLine(log: string, now: string, email: string, ip: string, url: string, id: string, tokens: string)
    requires '\n' !in now && '\n' !in email && '\n' !in ip && '\n' !in url && '\n' !in id && '\n' !in tokens
    ensures Count(log + AuditLine(now, email, ip, url, id, tokens), '\n') == Count(log, '\n') + 1
    ensures EndsWith(AuditLine(now, email, ip, url, id, tokens), "\n")
  {
    var user := UserField(email);
    assert '\n' !in user by {
      assert forall i :: 0 <= i < |user| ==> user[i] == email[i];
    }
    var body := "<tr><td>" + now + "</td><td>" + user + "</td><td>" + ip
      + "</td><td><a href=\"" + url + "\">" + id + "</a></td><td>" + tokens + "</td></tr>";
    var line := AuditLine(now, email, ip, url, id, tokens);
    assert line == body + "\n";
    CountAbsent(body, '\n');
    CountAppend(body, "\n", '\n');
    CountAppend(log, line, '\n');
  }

  // ---------------------------------------------------------------------
  // The submission handler

  /** The side effects of a submission, in the order they happen. */
  datatype Event =
    | MadeDirs(path: string)
    | Wrote(path: string, text: string)
    | Chmod(mode: string, path: string)
    | Spawned(command: seq<string>, cwd: string, jobName: string)
    | Appended(path: string, text: string)

  /** A POST of the submission form: its three fields (`None` for a field
      the form does not carry), the two address variables of the request
      environment and the scheme and host the request was made to. */
  datatype Request = Request(sequences: Option<string>, email: Option<string>, tokens: Option<string>,
                             forwarded: Option<string>, remote: Option<string>, origin: string)

  /** The page returned, or the exception that ends the request. */
  datatype Outcome = Submitted(jobUrl: string) | Crashed(error: string)

  const CALLER: string := "/storage/Alphafold/scripts/alphafold2_caller.bin"

  /** The worker command line (scripts/web.py:74). */
  function Command(id: string): seq<string> {
    [CALLER, InputFile(id), "3"]
  }

  /** The text of the audit log; a missing file reads as empty. */
  function LogText(files: map<string, string>): string {
    if LogFile() in files then files[LogFile()] else ""
  }

  /** The effects up to and including the worker launch (scripts/web.py:62-75). */
  function Launch(id: string, text: string): seq<Event> {
    [MadeDirs(JobDir(id)), Wrote(InputFile(id), text), Chmod("664", InputFile(id)),
     Spawned(Command(id), JobDir(id), id)]
  }

  /** The files once the input is written and the log opened for appending,
      which creates it when missing. */
  function Opened(files: map<string, string>, id: string, text: string): map<string, string> {
    files[InputFile(id) := text][LogFile() := LogText(files)]
  }

  /** The row can be built: `email.split`, `+ client_ip` and `+ tokens_var`
      fail on a missing value. */
  predicate Complete(req: Request) {
    req.email.Some? && ClientIp(req.forwarded, req.remote).Some? && req.tokens.Some?
  }

  /** The row a complete request appends. */
  function Row(req: Request, id: string, now: string): string
    requires Complete(req)
  {
    AuditLine(now, req.email.value, ClientIp(req.forwarded, req.remote).value,
              JobUrl(req.origin, id), id, req.tokens.value)
  }

  /** The job's input file is not the audit log. */
  lemma InputIsNotLog(id: Digest)
    ensures InputFile(id) != LogFile()
  {
    DigestPaths(id);
    JoinPlain(BASE_OUTPUT_DIR, "AF2.log");
    assert |LogFile()| < |InputFile(id)|;
  }

  class Host {
    /** The files on the server and their contents. */
    var files: map<string, string>
    /** The side effects performed so far. */
    var events: seq<Event>

    constructor (files: map<string, string>)
      ensures this.files == files && events == []
    {
      this.files := files;
      events := [];
    }

    /** Handles a POST of the submission form (scripts/web.py:45, 54-86).
        `md5` stands for the digest and `now` for the clock's text. */
    method Submit(req: Request, md5: string -> Digest, now: string) returns (out: Outcome)
      modifies this
      // a form without sequences fails before any effect
      ensures req.sequences.None? ==>
        out == Crashed("AttributeError") && files == old(files) && events == old(events)
      // otherwise the job is written and launched and the log opened ...
      ensures req.sequences.Some? && !Complete(req) ==>
        var id := JobId(md5, req.sequences.value);
        var text := Normalize(req.sequences.value);
        out == Crashed(if req.email.None? then "AttributeError" else "TypeError")
        && files == Opened(old(files), id, text)
        && events == old(events) + Launch(id, text)
      // ... and the row, when it can be built, appended after the launch
      ensures req.sequences.Some? && Complete(req) ==>
        var id := JobId(md5, req.sequences.value);
        var text := Normalize(req.sequences.value);
        out == Submitted(JobUrl(req.origin, id))
        && files == Opened(old(files), id, text)[LogFile() := LogText(old(files)) + Row(req, id, now)]
        && events == old(events) + Launch(id, text) + [Appended(LogFile(), Row(req, id, now))]
      // the log only grows
      ensures StartsWith(LogText(files), LogText(old(files)))
    {
      if req.sequences.None? {
        return Crashed("AttributeError");
      }
      var text := Normalize(req.sequences.value);
      var id := JobId(md5, req.sequences.value);
      var ip := ClientIp(req.forwarded, req.remote);
      var log := LogText(files);
      InputIsNotLog(id);
      // make the job directory, write and chmod the input, launch the worker
      files := files[InputFile(id) := text];
      events := events + Launch(id, text);
      var url := JobUrl(req.origin, id);
      files := files[LogFile() := log];
      if req.email.None? {
        return Crashed("AttributeError");
      }
      if ip.None? || req.tokens.None? {
        return Crashed("TypeError");
      }
      var line := AuditLine(now, req.email.value, ip.value, url, id, req.tokens.value);
      files := files[LogFile() := log + line];
      events := events + [Appended(LogFile(), line)];
      out := Submitted(url);
    }
  }
}
