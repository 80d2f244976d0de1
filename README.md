# AlphaFold 2 job server and prediction driver, modelled in Dafny

This project models two parts of a small AlphaFold 2 web service.

**The Bottle web front end (`scripts/web.py`).** It takes protein sequences, runs the predictor on them and serves the results.
- A submitted sequence text is normalised. Its MD5 digest becomes the job id, which names the job directory under `/storage/Data/AF2jobs`.
- The service writes the input file and launches the worker.
- It appends an HTML table row for each submission to the audit log `AF2.log`.
- From marker files it reports whether a job was found and is finished, failed, running or not yet started.
- The file browser and the download and view handlers serve files under the job directory. Each one first resolves the requested path with `abspath(join(...))` and checks that the result starts with the job directory.

**The prediction driver (`run_alphafold.py`).** The model:
- checks flags with `_check_flag`;
- converts model outputs with `_jnp_to_np`;
- runs every model with its own seed, `model_index + random_seed * num_models`;
- ranks the models by confidence, with Python's stable descending sort;
- chooses which models to relax (`ALL`, `BEST` or `NONE`);
- writes `ranked_<i>.pdb` in rank order, preferring the relaxed structure;
- labels the confidences in `ranking_debug.json` as `iptm+ptm` or `plddts`, from the last model's output.

**How the model is laid out.**
- Files are modelled as maps. The digest, the clock, the process launch, the models and the relaxer are parameters.
- Python's `os.path.join`, `normpath` (as used by `abspath`), `dirname`, `basename`, `str.strip`, `str.split` and the stable `sorted` are written out in Dafny. Their properties are proved.
- `Strings` holds splitting and joining, prefixes, lexicographic order and sorting.
- `Paths` holds POSIX path joining and normalisation.
- `Jobs` holds the job id, the directory layout and the status resolver.
- `Sandbox` holds the access check and what it does and does not let through.
- `Browser` holds the browse, download and view handlers.
- `Audit` holds the audit row and the submission handler, as a class over the server's files and the effects performed.
- `AlphaFold` holds the driver.

## Model

| member | source | states |
|---|---|---|
| Paths.Join | scripts/web.py:12 | an absolute second part replaces the first; otherwise the result extends the first part; joining onto an absolute path stays absolute |
| Paths.Dirname | scripts/web.py:380 | `os.path.dirname` returns a prefix of its argument |
| Paths.Basename | scripts/web.py:380 | `os.path.basename` is a suffix of its argument with no `/` |
| Paths.NormalFormFixed | scripts/web.py:349 | a root, then names joined by `/`, is already normal: it is its own `abspath`, with that root and those segments |
| Paths.AbsPathIdempotent | scripts/web.py:348-349 | `AbsPath` (the model of `os.path.abspath`: `normpath` of an absolute path) of an absolute path is absolute, and applying it twice is the same as once |
| Paths.JoinSegments | scripts/web.py:349 | normalising `join(root, fp)` equals folding the components of `fp` (with `.` and `..` rules) onto the segments of the root |
| Paths.SegmentsAreNames | scripts/web.py:349 | every segment of a normalised absolute path is a plain name (non-empty, no `/`, not `.` or `..`) |
| Paths.DirnameOfNames | scripts/web.py:380 | `dirname` of a path of names drops exactly the last name, and `basename` is that name |
| Paths.DirBaseJoin | scripts/web.py:349 | for a normalised absolute path, `join(dirname(p), basename(p)) == p`, and `basename(p)` has no `/` |
| Paths.JoinAssoc | scripts/web.py:360-365 | `join(a, join(b, name)) == join(join(a, b), name)` for a plain name |
| Paths.AbsPathJoinName | scripts/web.py:364 | normalising a path extended by one plain name is the normalised path extended by that name |
| Strings.JoinSplit | scripts/web.py:80 | joining the pieces of `split(sep)` gives the string back |
| Strings.SplitJoin | scripts/web.py:80 | splitting pieces without the separator after joining them gives the pieces back |
| Strings.SplitHead | scripts/web.py:80 | the first piece of a split is a separator-free prefix, followed by the separator when shorter than the string |
| Strings.CountJoin | scripts/web.py:80 | joining `n` separator-free pieces puts exactly `n - 1` separators in the result |
| Strings.SortCorrect | scripts/web.py:357 | `sorted` gives an ordered permutation of its input |
| Strings.SortDistinct | scripts/web.py:356-357 | sorting distinct names gives a strictly ordered list with the same members |
| Strings.StrictlySortedUnique | scripts/web.py:357 | two strictly ordered lists with the same members are equal |
| Strings.LessEqTotal | scripts/web.py:357 | the string order compares any two strings |
| Strings.LessEqAntisymmetric | scripts/web.py:357 | strings ordered both ways are equal |
| Strings.LessEqTransitive | scripts/web.py:357 | the string order is transitive |
| Strings.LowerAll | scripts/web.py:370 | `lower()` maps each ASCII capital to its small letter and leaves other characters alone, position by position |
| Jobs.TrimStart | scripts/web.py:54 | the leading-whitespace strip removes only whitespace, from the front, and leaves no leading whitespace |
| Jobs.TrimEnd | scripts/web.py:54 | the trailing-whitespace strip removes only whitespace, from the end, and leaves no trailing whitespace |
| Jobs.StripSurroundingSpace | scripts/web.py:54 | `strip` ignores any whitespace added around the text |
| Jobs.StripEnds | scripts/web.py:54 | the stripped text is empty or starts and ends with a non-space |
| Jobs.NormalizeShape | scripts/web.py:54 | the normalised sequences end in one newline, preceded by a non-space when there is any text |
| Jobs.NormalizeIdempotent | scripts/web.py:54 | normalising twice is the same as normalising once |
| Jobs.JobIdIgnoresSurroundingSpace | scripts/web.py:54-59 | `JobId` (the MD5 digest of `strip() + '\n'`): two submissions that differ only in surrounding whitespace get the same job id |
| Jobs.DigestIsName | scripts/web.py:59-66 | a hex digest, the worker directory name and the input file name are plain names without `/` |
| Jobs.DigestPaths | scripts/web.py:278-299 | the job directory, input file and marker files are the base directory, the id and the fixed names joined by single slashes |
| Jobs.DigestLayout | scripts/web.py:278-299 | each job path is the canonical `/`-joined form of its list of names |
| Jobs.DigestPathsNormal | scripts/web.py:280-300 | every path the status resolver tests is already normalised |
| Jobs.Status | scripts/web.py:276-337 | the page is chosen from the markers by precedence: no job directory gives not-found; then finished; then failed, with the error log exactly when it exists; then running; otherwise not running. Each case holds if and only if its conditions hold |
| Jobs.StatusReadsOnlyWatched | scripts/web.py:276-337 | the status depends on nothing but the five watched paths |
| Jobs.StatusMonotonic | scripts/web.py:276-337 | when files are only added, the status never moves backwards through not-found, not running, running, failed and finished |
| Jobs.StatusScenarios | scripts/web.py:276-337 | the page shown for each characteristic set of marker files, including finished taking precedence over failed and running |
| Jobs.PathLengths | scripts/web.py:278-299 | the job directory and marker paths have fixed lengths for every digest |
| Jobs.RunningSentinelOutsideJob | scripts/web.py:284-286 | the finished and failed markers lie inside the job directory; the running marker lies outside it, under the base directory |
| Sandbox.NamesGranted | scripts/web.py:348-352 | `Granted` (the check `Resolve(root, fp).startswith(abspath(root))`, with `Resolve` = `abspath(join(root, fp))`): a relative path without `..` always passes the check and resolves inside the root, to the root's segments extended by its names |
| Sandbox.GrantedIsWithinOrSibling | scripts/web.py:348-352 | whatever passes the check lies inside the root, or at a path that extends the root's text with no `/` after it |
| Sandbox.SiblingGranted | scripts/web.py:348-352 | `../<last segment><x>` passes the prefix check and resolves to `<root><x>`, outside the root |
| Sandbox.EscapeDenied | scripts/web.py:348-352 | a path that resolves above the root's depth is refused |
| Sandbox.UpsThenNames | scripts/web.py:349 | `k` `..` components followed by names resolve to the root with its last `k` segments replaced by the names |
| Sandbox.TraversalDenied | scripts/web.py:348-352 | climbing `k` levels and descending fewer than `k` names is refused |
| Sandbox.EtcTraversalDenied | scripts/web.py:348-352 | `../../../etc` is refused for every MD5 job id |
| Sandbox.DigestRootNormal | scripts/web.py:348 | a digest's job directory is its own `abspath`, with the base segments plus the id |
| Sandbox.ChildResolve | scripts/web.py:360-365 | resolving a path extended by a name is the resolved path extended by that name |
| Sandbox.ChildGranted | scripts/web.py:360-365 | a name inside a granted path is granted |
| Sandbox.ParentIdDir | scripts/web.py:344-348 | the job id `..` makes the root `/storage/Data` |
| Sandbox.ParentIdEscapes | scripts/web.py:341-352 | with job id `..`, any other entry of `/storage/Data` passes the check and lies outside the jobs directory |
| Browser.ListdirKey | scripts/web.py:356 | an entry of `os.listdir(d)` is a non-empty name without `/`, stored at `join(d, name)` |
| Browser.ListdirNames | scripts/web.py:356 | the entries of a directory listing are plain names |
| Browser.EntryFor | scripts/web.py:359-375 | a directory entry links to the sub-browser; a file entry links to the download, and to the image viewer exactly when its lower-cased name ends in `.png`, else to the text viewer; a file entry shows the file's size |
| Browser.ListingUnique | scripts/web.py:356-357 | the rendered listing does not depend on the order `os.listdir` returns |
| Browser.ListingLinksResolve | scripts/web.py:359-375 | every link of a granted listing passes the check again and reaches the very entry it is shown for |
| Browser.ListDir | scripts/web.py:356 | `os.listdir` returns every entry of the directory exactly once |
| Browser.TargetParts | scripts/web.py:413-417 | the resolved file is `join(dirname, basename)` of itself, with a basename free of `/` |
| Browser.DownloadFile | scripts/web.py:399-417 | refuses with 403 exactly when the check fails; 404 "File not found." exactly when the path does not exist; `static_file`'s 404 "File does not exist." exactly when it exists but is not a regular file (a directory); otherwise it serves the file as an attachment from its directory under its basename |
| Browser.ViewImage | scripts/web.py:419-438 | serves a file inline as `image/png` exactly when it passes the check and is a regular file |
| Browser.ViewFile | scripts/web.py:440-459 | serves a file inline as `text/plain` exactly when it passes the check and is a regular file |
| Browser.ViewedIsDownloadable | scripts/web.py:399-459 | what the viewers serve the download also serves, from the same directory and name |
| Browser.RenderItems | scripts/web.py:359-375 | the loop builds one entry per sorted item, in order |
| Browser.RenderListing | scripts/web.py:354-375 | the listing holds every entry of the directory once, in sorted order, each rendered by its kind |
| Browser.Browse | scripts/web.py:339-397 | 404 exactly when the job is missing; 403 exactly when the check fails; a listing exactly for a directory, with its title, its parent link and its entries; a download exactly for a file; 404 for anything else |
| Browser.ParentLinkReturnsToTop | scripts/web.py:379-383 | the parent link as written always leads back to the job's top directory, even from `a/b` |
| Browser.FixedParentLink | scripts/web.py:379-383 | a parent link carried in the path gives `dirname(filepath)` to the handler |
| Browser.FixedParentLinkGoesUp | scripts/web.py:379-383 | following the corrected parent link from a path of names reaches the directory that contains it |
| Audit.UserField | scripts/web.py:80 | `email.split("@")[0]` is the prefix of the address before its first `@` |
| Audit.UserFieldUnique | scripts/web.py:80 | that prefix is the only `@`-free prefix followed by `@` or by the end |
| Audit.LastCut | scripts/web.py:80 | splitting after the last occurrence of a character gives the text back, and the tail has no such character |
| Audit.ParseAuditLineRoundTrip | scripts/web.py:80 | `AuditLine` (the `<tr>` row written to the log): a row whose fields contain no `>` (and a URL without `"`) reads back as exactly those fields |
| Audit.InjectedCellBreaksRow | scripts/web.py:80 | a tokens field holding `</td><td>` is not read back as written |
| Audit.AuditLineIsOneLine | scripts/web.py:79-80 | a row of newline-free fields adds exactly one line to the log and ends in a newline |
| Audit.InputIsNotLog | scripts/web.py:62-79 | the job's input file is never the audit log |
| Audit.Host.constructor | scripts/web.py:11-12 | the server starts with the given files and no effects |
| Audit.Host.Submit | scripts/web.py:45-86 | uses `ClientIp` (`X-Forwarded-For` unless it is missing or empty, else `REMOTE_ADDR`, line 45) and `JobUrl` (scheme and host, then the `job_results` route, line 78). No sequences field crashes before any effect. Otherwise the directory is made, the input written and made mode 664, and the worker launched in the job directory, and the log is opened. A missing email, client address or tokens value then crashes with no row written; a complete request appends its row and returns the job URL. The log only grows |
| AlphaFold.CheckFlag | run_alphafold.py:95-101 | passes exactly when the flag's truthiness matches the expectation. A mismatch raises `ValueError` when the other flag is defined, and `KeyError` for the other flag when it is not. The message starts with `<flag> must [not ]be set` and ends with ` when running with "--<other>=<value>".`. A `KeyError` names only an undefined flag among the two |
| AlphaFold.CheckFlagExclusive | run_alphafold.py:95-101 | for a defined flag exactly one of "must be set" and "must not be set" passes |
| AlphaFold.JnpToNp | run_alphafold.py:104-111 | the dictionary is rewritten into its converted form: JAX arrays become NumPy arrays, nested dictionaries are converted recursively, other values are kept |
| AlphaFold.ConvertShape | run_alphafold.py:104-111 | conversion keeps every dictionary's keys in order and leaves no JAX array |
| AlphaFold.ConvertFixed | run_alphafold.py:104-111 | conversion changes nothing exactly when there is no JAX array |
| AlphaFold.ConvertIdempotent | run_alphafold.py:104-111 | converting twice is the same as converting once |
| AlphaFold.ModelSeedParts | run_alphafold.py:190 | `ModelSeed` (`model_index + random_seed * num_models`): the seed's quotient by the model count is the random seed and its remainder is the model index |
| AlphaFold.ModelSeedInjective | run_alphafold.py:190 | different models or random seeds never share a seed |
| AlphaFold.InsertDescDescending | run_alphafold.py:251-253 | inserting into a descending list keeps it descending |
| AlphaFold.InsertDescPerm | run_alphafold.py:251-253 | insertion adds exactly the inserted entry |
| AlphaFold.InsertDescWithScore | run_alphafold.py:251-253 | insertion places the new entry after every entry of equal confidence |
| AlphaFold.SortDescCorrect | run_alphafold.py:251-253 | `SortDesc` (the model of `sorted(..., key=confidence, reverse=True)`): the ranking is descending by confidence, a permutation, and stable among equal confidences |
| AlphaFold.SortDescUnique | run_alphafold.py:251-253 | any descending list with the same per-confidence order is the ranking |
| AlphaFold.DescendingUnique | run_alphafold.py:251-253 | two descending lists with the same entries per confidence are equal |
| AlphaFold.RankedOrderPermutes | run_alphafold.py:251-253 | `ranked_order` lists each model name as often as it was scored |
| AlphaFold.RankedOrderHead | run_alphafold.py:251-257 | the head of the ranking has the highest confidence and is the first model run with it |
| AlphaFold.ToRelax | run_alphafold.py:256-261 | the models to relax come from the ranking; `IndexError` exactly for `BEST` with no model |
| AlphaFold.SumOfFlags | run_alphafold.py:269 | the violation count of 0/1 flags lies between 0 and their number, and equals the number exactly when every flag is set |
| AlphaFold.RankedChoice | run_alphafold.py:256-288 | `ranked_<i>` is relaxed for every model under `ALL`, for the top model only under `BEST`, and for none under `NONE` |
| AlphaFold.ScoresNames | run_alphafold.py:186-216 | the confidences are listed in model order, one per model |
| AlphaFold.RankedModels | run_alphafold.py:251-253 | with distinct model names the ranking lists every model exactly once |
| AlphaFold.RunModels | run_alphafold.py:185-248 | each model runs with its seed; its confidence, converted output and unrelaxed PDB are recorded under its name; the scores are in model order; the last output is kept |
| AlphaFold.AllModelsRun | run_alphafold.py:185-248 | the records of the finished loop hold one entry per model, each from that model's own run |
| AlphaFold.ModelOutputsKept | run_alphafold.py:250-304 | the per-model record holds of any outputs that keep the same seeds, results, confidences and unrelaxed texts, so the relax and ranking steps keep it |
| AlphaFold.RelaxModels | run_alphafold.py:263-279 | the relaxed PDBs and the metrics (violations and their sum) of exactly the models to relax |
| AlphaFold.RankModels | run_alphafold.py:281-288 | `ranked_<i>` is the relaxed text of the `i`-th ranked model when it has one, else its unrelaxed text |
| AlphaFold.PredictStructure | run_alphafold.py:185-304 | with no model: `IndexError` for `BEST`, else `UnboundLocalError`. Otherwise every per-model record from its seeded run, the ranking, the relaxed set and metrics, the ranked PDBs, the debug label from the last output, and whether the metrics file is written (not under `NONE`) |

## Left out

- Files are a map from normalised absolute paths. There are no symbolic links, no permissions and no working directory: every path the handlers build starts from the absolute base directory, and `abspath`'s use of the working directory is not modelled.
- MD5 is a parameter returning 32 lower-case hex characters. The clock text, the client address variables, the request's scheme and host, and the worker launch are inputs or recorded effects.
- `os.makedirs`, `open` and `chmod` are assumed to succeed. A crash of these calls, and the effect of the worker process, are not modelled.
- Unicode handling is limited. `str.isspace` is given as the set of whitespace characters; `lower()` maps only ASCII capitals, so other letters are not case-folded.
- HTML escaping and URL quoting of file names are not modelled. A link is modelled by its route, job id and file path.
- Bottle's `static_file` is modelled by its root, file name and disposition, and by its 404 for a path that is not a regular file. Its stripping of `/` and `\` from the ends of the file name is left out: a file whose name begins or ends with a backslash is modelled as served, where `static_file` looks it up under another name. Its permission refusal (403 for an unreadable file), MIME guessing, range requests and headers are left out too.
- The listing shows each file's size as stored in the file map. The model does not distinguish that `getsize` reads `requested + '/' + item` rather than the joined path. The page's host name from `os.uname` is left out.
- The GET side of `index` is left out: the form, the `squeue` and `nvidia-smi` output, and the log read back into `log_lines` (scripts/web.py:46-51, 81). So are `previous_results`, the favicon and error routes, and the second `datetime.now()` at line 81, which only feeds that page.
- Bottle's route matching is left out, beyond the job id being any `/`-free text.
- `get_url` is modelled for an empty `SCRIPT_NAME` only; a mount prefix added by a non-empty `SCRIPT_NAME` is left out.
- Requests are handled one at a time. Concurrency between submissions and the running worker is left out.
- In the driver, the feature pipeline, the model runners, the protein-to-PDB conversion and the Amber relaxer are parameters. Timings, logging, the benchmark re-run, and the plDDT and PAE JSON files are left out.
- The pickle and JSON encodings of the written files are left out. The outputs are modelled as values.
- The driver's `main` is left out: the flag parsing, the random seed draw and the data pipelines.
- AlphaFold.JnpToNp: modelled on values; the in-place rewrite is not captured. `dict(prediction_result)` is a shallow copy, so the nested dictionaries of `prediction_result` are rewritten in place. They are read again at run_alphafold.py:238 and 292. Nothing the model records changes because of this: conversion keeps every key (AlphaFold.ConvertShape) and turns each JAX array into a NumPy array holding the same data, and the label at line 292 tests only a top-level key. The model does not capture the aliasing itself, nor the change of array type seen by `protein.from_prediction`.
- AlphaFold.RunModels: confidences are integers rather than floating-point numbers. Their order and ties behave the same, but NaN is not modelled.
- AlphaFold.RelaxModels: the relaxer is a function of the unrelaxed PDB text rather than of the protein object it was made from.
- Jobs.Status: the pages' HTML and the error log's contents are left out. The status carries the error log's path when it exists.

## Findings

| source | as written | input that shows it | evidently intended | confidence | as-written member | corrected member |
|---|---|---|---|---|---|---|
| scripts/web.py:379-383 | the parent link is built with `get_url('browse', job_id=..., filepath=parent)`. The `browse` route has no `filepath` wildcard, so the value goes into the query string and the handler ignores it | browsing `a/b` of any job gives a parent link that opens the job's top directory, not `a` | the parent link should open `dirname(filepath)`, through the `browse_sub` route | not executed | Browser.ParentLinkReturnsToTop | Browser.FixedParentLink, Browser.FixedParentLinkGoesUp |
