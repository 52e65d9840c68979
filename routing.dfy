/** The file-level driver (utils/pre_process.py): the lab folder and file
    name read off a raw file's path, the folder and file each normalized
    table is written to, the loop over the classified files, and the
    per-bucket concatenation of what was written. The file system is a
    map from path to the table stored there. */
module Routing {
  import opened Wrappers
  import opened Text
  import opened Tables
  import opened Paths
  import Settings
  import Dispatch

  /** What the driver raises: a normalizer's exception passed through, or
      one of its own. */
  datatype Raised =
    | NormalizerRaised(error: Error)   // raised inside `preprocess`
    | PathIndexError                   // `path_parts[2]` with two components
    | CannotUnpackNone                 // `a, b = None`
    | WrongUnpackCount(found: nat)     // a frame unpacked into two names
    | NoToCsv                          // `.to_csv` on a column label

  // ---------------------------------------------------------------------
  // get_als_lab_folder_name_and_file_name

  /** The lab folder (if any) and the stem of a raw file's path. */
  datatype Located = Located(parent: Option<string>, fileName: string)

  /** Component 2 of the path whenever there are two or more components
      (an IndexError when there are exactly two), and the path's stem. */
  function AlsLabFolderAndFileName(path: string): (r: Result<Located, Raised>)
    ensures r.Err? <==> |Parts(path)| == 2
    ensures r.Err? ==> r.error == PathIndexError
    ensures r.Ok? ==> (r.value.parent.Some? <==> |Parts(path)| > 2)
    ensures r.Ok? && r.value.parent.Some? ==> r.value.parent.value == Parts(path)[2]
    ensures r.Ok? ==> r.value.fileName + Suffix(Name(path)) == Name(path)
  {
    StemSuffix(Name(path));
    var parts := Parts(path);
    var parent :- if |parts| > 1 then
        (if |parts| > 2 then Ok(Some(parts[2])) else Err(PathIndexError))
      else Ok(None);
    Ok(Located(parent, Stem(Name(path))))
  }

  /** A component `pathlib` keeps as it is. */
  predicate Segment(s: string)
  {
    IsNamedSegment(s) && '/' !in s
  }

  lemma {:induction false} JoinCons(x: string, rest: seq<string>)
    requires |rest| >= 1
    ensures Join([x] + rest) == x + "/" + Join(rest)
  {
    assert ([x] + rest)[1..] == rest;
  }

  /** Joining two non-empty lists puts one separator between their joins. */
  lemma {:induction false} JoinAppend(xs: seq<string>, ys: seq<string>)
    requires |xs| >= 1 && |ys| >= 1
    ensures Join(xs + ys) == Join(xs) + "/" + Join(ys)
    decreases |xs|
  {
    if |xs| == 1 {
      JoinCons(xs[0], ys);
      assert xs + ys == [xs[0]] + ys;
    } else {
      JoinAppend(xs[1..], ys);
      assert (xs + ys)[1..] == xs[1..] + ys;
      assert Join(xs + ys) == xs[0] + "/" + Join(xs[1..] + ys);
    }
  }

  /** The literal components the driver's paths are built from. */
  lemma LiteralSegments()
    ensures Segment("data") && Segment("sales") && Segment("pre_processed") && Segment("pre_processed_combined")
    ensures Settings.RawFolderPath == Join(["data", "sales"])
    ensures LastFolder == "sales"
  {
    assert Join(["data", "sales"]) == "data" + "/" + "sales" by { JoinCons("data", ["sales"]); }
  }

  /** A path below the raw-data root, given by its components there. */
  lemma RawPath(rel: seq<string>)
    requires |rel| >= 1
    ensures Settings.RawFolderPath + "/" + Join(rel) == Join(["data", "sales"] + rel)
  {
    LiteralSegments();
    JoinAppend(["data", "sales"], rel);
  }

  /** A relative path of three or more components is located by its third
      component and the stem of its last. */
  lemma LocatedOfJoin(comps: seq<string>, lab: string, last: string)
    requires |comps| >= 3 && forall k :: 0 <= k < |comps| ==> Segment(comps[k])
    requires lab == comps[2] && last == comps[|comps| - 1]
    ensures AlsLabFolderAndFileName(Join(comps)) == Ok(Located(Some(lab), Stem(last)))
  {
    PartsOfRelative(comps);
  }

  /** Below a two-component root, the lab folder is the first component
      under the root. */
  lemma LocatedBelow(root: seq<string>, rel: seq<string>)
    requires |root| == 2 && Segment(root[0]) && Segment(root[1])
    requires |rel| >= 1 && forall k :: 0 <= k < |rel| ==> Segment(rel[k])
    ensures AlsLabFolderAndFileName(Join(root + rel)) == Ok(Located(Some(rel[0]), Stem(rel[|rel| - 1])))
  {
    SegmentsAppend(root, rel);
    AppendEnds(root, rel);
    LocatedOfJoin(root + rel, rel[0], rel[|rel| - 1]);
  }

  lemma SegmentsAppend(root: seq<string>, rel: seq<string>)
    requires forall k :: 0 <= k < |root| ==> Segment(root[k])
    requires forall k :: 0 <= k < |rel| ==> Segment(rel[k])
    ensures forall k :: 0 <= k < |root + rel| ==> Segment((root + rel)[k])
  {
    var comps := root + rel;
    forall k | 0 <= k < |comps| ensures Segment(comps[k]) {
      if k >= |root| { assert comps[k] == rel[k - |root|]; }
    }
  }

  lemma AppendEnds(root: seq<string>, rel: seq<string>)
    requires |root| == 2 && |rel| >= 1
    ensures (root + rel)[2] == rel[0] && (root + rel)[|root + rel| - 1] == rel[|rel| - 1]
  {
  }

  /** Every file found under `data/sales` is located by its first
      component there, the lab folder, and by the stem of its last; a
      file lying directly in `data/sales` is its own "lab folder". */
  lemma ScannedPathLocated(rel: seq<string>)
    requires |rel| >= 1 && forall k :: 0 <= k < |rel| ==> Segment(rel[k])
    ensures AlsLabFolderAndFileName(Settings.RawFolderPath + "/" + Join(rel)) ==
      Ok(Located(Some(rel[0]), Stem(rel[|rel| - 1])))
  {
    RawPath(rel);
    LiteralSegments();
    LocatedBelow(["data", "sales"], rel);
  }

  /** A relative path of two components passes the `len > 1` guard and
      then fails on index 2. */
  lemma TwoComponentPathRaises(a: string, b: string)
    requires Segment(a) && Segment(b)
    ensures AlsLabFolderAndFileName(a + "/" + b) == Err(PathIndexError)
  {
    assert Join([a, b]) == a + "/" + b by { JoinCons(a, [b]); }
    PartsOfRelative([a, b]);
  }

  /** A single-component path has no lab folder. */
  lemma OneComponentPathHasNoFolder(a: string)
    requires Segment(a)
    ensures AlsLabFolderAndFileName(a) == Ok(Located(None, Stem(a)))
  {
    assert Join([a]) == a;
    PartsOfRelative([a]);
  }

  // ---------------------------------------------------------------------
  // The output path (pre_process.py:50-58)

  /** `os.path.basename(RAW_FOLDER_PATH)`. */
  const LastFolder: string := "sales"

  lemma LastFolderIsBasename()
    ensures Name(Settings.RawFolderPath) == LastFolder
  {
    LiteralSegments();
    PartsOfRelative(["data", "sales"]);
  }

  /** The components of `data/pre_processed/{last_folder}/{combine_folder}`,
      followed by `parent_folder` when it is a non-empty string. */
  function FolderParts(bucket: string, parent: Option<string>): seq<string>
  {
    ["data", "pre_processed", LastFolder, bucket] +
    (if parent.Some? && parent.value != "" then [parent.value] else [])
  }

  /** The output folder: its components joined by "/". */
  function OutputFolder(bucket: string, parent: Option<string>): string
  {
    Join(FolderParts(bucket, parent))
  }

  /** `{output_folder}/{file_name}.csv`. */
  function OutputFile(folder: string, fileName: string): string
  {
    folder + "/" + fileName + ".csv"
  }

  /** Where the table a normalizer called `name` produced for the file at
      `loc` is written. */
  function Destination(name: string, loc: Located): string
  {
    OutputFile(OutputFolder(Settings.Bucket(name), loc.parent), loc.fileName)
  }

  /** The components of that path. */
  function RouteParts(bucket: string, loc: Located): seq<string>
  {
    FolderParts(bucket, loc.parent) + [loc.fileName + ".csv"]
  }

  /** Every bucket, the fallback included, is a single path component. */
  lemma BucketIsSegment(name: string)
    ensures Segment(Settings.Bucket(name))
  {
    var b := Settings.Bucket(name);
    assert b in {"labtrac", "transactor", "leca", "great_lab", "combine"};
  }

  lemma RoutePartsAreSegments(bucket: string, loc: Located)
    requires Segment(bucket) && '/' !in loc.fileName
    requires loc.parent.Some? ==> Segment(loc.parent.value)
    ensures forall k :: 0 <= k < |RouteParts(bucket, loc)| ==> Segment(RouteParts(bucket, loc)[k])
  {
    LiteralSegments();
    var parts := RouteParts(bucket, loc);
    var file := loc.fileName + ".csv";
    assert '/' !in file by {
      forall k | 0 <= k < |file| ensures file[k] != '/' {
        if k < |loc.fileName| { assert file[k] == loc.fileName[k]; }
      }
    }
    assert Segment(file) by { assert |file| >= 4; }
    forall k | 0 <= k < |parts| ensures Segment(parts[k]) {
      if k == |parts| - 1 { assert parts[k] == file; }
      else if k == 4 { assert parts[k] == loc.parent.value; }
      else if k == 3 { assert parts[k] == bucket; }
      else if k == 2 { assert parts[k] == "sales"; }
      else if k == 1 { assert parts[k] == "pre_processed"; }
      else { assert parts[k] == "data"; }
    }
  }

  lemma DestinationJoin(bucket: string, loc: Located)
    ensures OutputFile(OutputFolder(bucket, loc.parent), loc.fileName) == Join(RouteParts(bucket, loc))
  {
    var file := loc.fileName + ".csv";
    JoinAppend(FolderParts(bucket, loc.parent), [file]);
    assert Join([file]) == file;
  }

  /** The written file lies in the bucket's folder, below the lab folder
      when there is one; it keeps the raw file's stem and carries the
      `.csv` extension, so the combination step's filter accepts it. */
  lemma DestinationParts(name: string, loc: Located)
    requires '/' !in loc.fileName && loc.fileName != ""
    requires loc.parent.Some? ==> Segment(loc.parent.value)
    ensures Parts(Destination(name, loc)) == RouteParts(Settings.Bucket(name), loc)
    ensures Stem(Name(Destination(name, loc))) == loc.fileName
    ensures Suffix(Name(Destination(name, loc))) == ".csv"
    ensures PassesCsvFilter(Name(Destination(name, loc)))
  {
    var bucket := Settings.Bucket(name);
    BucketIsSegment(name);
    RoutePartsAreSegments(bucket, loc);
    DestinationJoin(bucket, loc);
    PartsOfRelative(RouteParts(bucket, loc));
    CsvName(loc.fileName);
  }

  /** `{file_name}.csv` has the stem `file_name` and passes the `.csv`
      filter. */
  lemma CsvName(fileName: string)
    requires fileName != ""
    ensures Stem(fileName + ".csv") == fileName && Suffix(fileName + ".csv") == ".csv"
    ensures PassesCsvFilter(fileName + ".csv")
  {
    var name := fileName + ".csv";
    assert name == fileName + "." + "csv";
    StemOfExtension(fileName, "csv");
    LowerCsv();
    CsvFilterAccepts(name);
  }

  lemma LowerCsv()
    ensures Lower(".csv") == ".csv"
  {
    var l := Lower(".csv");
    assert l[0] == '.' && l[1] == 'c' && l[2] == 's' && l[3] == 'v';
  }

  /** The components of a route determine its bucket, lab folder and stem. */
  lemma RoutePartsInjective(b: string, l: Located, c: string, k: Located)
    requires l.parent.Some? ==> l.parent.value != ""
    requires k.parent.Some? ==> k.parent.value != ""
    requires RouteParts(b, l) == RouteParts(c, k)
    ensures b == c && l == k
  {
    var p, q := RouteParts(b, l), RouteParts(c, k);
    assert p[3] == b && q[3] == c;
    assert l.parent.Some? <==> k.parent.Some?;
    if l.parent.Some? { assert p[4] == l.parent.value && q[4] == k.parent.value; }
    var f, g := l.fileName + ".csv", k.fileName + ".csv";
    assert p[|p| - 1] == f && q[|q| - 1] == g;
    assert l.fileName == f[..|f| - 4] && k.fileName == g[..|g| - 4];
  }

  /** Two outputs coincide exactly when they go to the same bucket and lab
      folder and have the same stem: files of one lab with the same stem
      in different sub-folders overwrite each other. */
  lemma DestinationsCollide(m: string, l: Located, n: string, k: Located)
    requires '/' !in l.fileName && l.fileName != "" && '/' !in k.fileName && k.fileName != ""
    requires l.parent.Some? ==> Segment(l.parent.value)
    requires k.parent.Some? ==> Segment(k.parent.value)
    ensures Destination(m, l) == Destination(n, k) <==>
      Settings.Bucket(m) == Settings.Bucket(n) && l == k
  {
    if Destination(m, l) == Destination(n, k) {
      DestinationParts(m, l);
      DestinationParts(n, k);
      RoutePartsInjective(Settings.Bucket(m), l, Settings.Bucket(n), k);
    }
  }

  // ---------------------------------------------------------------------
  // The loop of `preprocess(df)` (pre_process.py:37-61)

  /** One row of the driver's input frame: file path, schema key, lab name. */
  datatype Job = Job(path: string, schemaType: string, alsLab: string)

  /** The files written so far, and the exception that ended the loop. */
  datatype Progress = Progress(files: map<string, Table>, raised: Option<Raised>)

  /** Every file the reader can be asked for reads to a well-formed frame. */
  ghost predicate Readable(read: string -> Table)
  {
    forall q :: WellFormed(read(q))
  }

  /** What `preprocess` hands back for file `i` of the run: the file is read
      from its path and its normalizer draws row identifiers from `ids(i)`
      and writes non-text values as text with `show`. */
  function Outcome(job: Job, i: nat, read: string -> Table, ids: nat -> nat -> string, show: Value -> string): Option<Dispatch.Dispatched>
    requires Readable(read)
  {
    Dispatch.Preprocess(job.schemaType, read(job.path), job.alsLab, ids(i), show)
  }

  /** The outcomes of the whole run, file by file. */
  function Outcomes(jobs: seq<Job>, read: string -> Table, ids: nat -> nat -> string, show: Value -> string): (r: seq<Option<Dispatch.Dispatched>>)
    requires Readable(read)
    ensures |r| == |jobs|
  {
    seq(|jobs|, i requires 0 <= i < |jobs| => Outcome(jobs[i], i, read, ids, show))
  }

  /** Outcomes as the dispatch table determines them: nothing exactly for a
      schema key without a normalizer, and otherwise the name of that key's
      normalizer. */
  predicate Reported(jobs: seq<Job>, found: seq<Option<Dispatch.Dispatched>>)
  {
    |found| == |jobs| &&
    forall i :: 0 <= i < |jobs| ==>
      (found[i].None? <==> jobs[i].schemaType !in Dispatch.LookupPreprocessFunction) &&
      (found[i].Some? ==> found[i].value.name == Dispatch.FunctionName(Dispatch.LookupPreprocessFunction[jobs[i].schemaType]))
  }

  /** The run's outcomes are reported as the dispatch table says. */
  lemma OutcomesReported(jobs: seq<Job>, read: string -> Table, ids: nat -> nat -> string, show: Value -> string)
    requires Readable(read)
    ensures Reported(jobs, Outcomes(jobs, read, ids, show))
  {
    var found := Outcomes(jobs, read, ids, show);
    forall i | 0 <= i < |jobs| && jobs[i].schemaType in Dispatch.LookupPreprocessFunction
      ensures found[i] == Some(Dispatch.Dispatched(
        Dispatch.FunctionName(Dispatch.LookupPreprocessFunction[jobs[i].schemaType]),
        Dispatch.Run(Dispatch.LookupPreprocessFunction[jobs[i].schemaType], read(jobs[i].path), jobs[i].alsLab, ids(i), show)))
    {
      Dispatch.PreprocessRuns(jobs[i].schemaType, read(jobs[i].path), jobs[i].alsLab, ids(i), show);
    }
  }

  /** Iteration with the normalizer's name reported alongside its outcome
      `found`: an undispatched file is skipped, an exception ends the
      loop, and a table is written to its destination, replacing what was
      there. */
  function Step(p: Progress, job: Job, found: Option<Dispatch.Dispatched>): (s: Progress)
    ensures p.raised.Some? ==> s == p
    ensures s.raised.None? ==> p.raised.None? && (found.None? || found.value.result.Ok?)
  {
    if p.raised.Some? then p
    else
      match found
      case None => p
      case Some(d) =>
        match d.result
        case Err(e) => Progress(p.files, Some(NormalizerRaised(e)))
        case Ok(t) =>
          match AlsLabFolderAndFileName(job.path)
          case Err(x) => Progress(p.files, Some(x))
          case Ok(loc) => Progress(p.files[Destination(d.name, loc) := t], None)
  }

  /** The state after the first `n` iterations. */
  function Processed(jobs: seq<Job>, found: seq<Option<Dispatch.Dispatched>>, n: nat): Progress
    requires n <= |jobs| && n <= |found|
  {
    if n == 0 then Progress(map[], None)
    else Step(Processed(jobs, found, n - 1), jobs[n - 1], found[n - 1])
  }

  /** `preprocess(df)`: the normalizer of file `i` draws its row
      identifiers from `ids(i)`. */
  method PreprocessFiles(jobs: seq<Job>, read: string -> Table, ids: nat -> nat -> string, show: Value -> string)
      returns (files: map<string, Table>, raised: Option<Raised>)
    requires Readable(read)
    ensures Progress(files, raised) == Processed(jobs, Outcomes(jobs, read, ids, show), |jobs|)
  {
    ghost var outcomes := Outcomes(jobs, read, ids, show);
    files, raised := map[], None;
    var i := 0;
    while i < |jobs|
      invariant 0 <= i <= |jobs|
      invariant Progress(files, raised) == Processed(jobs, outcomes, i)
      invariant raised.None?
    {
      var found := PreprocessJob(jobs, read, ids, show, i);
      ProcessedStep(jobs, outcomes, i);
      files, raised := WriteOne(files, jobs[i], found);
      if raised.Some? {
        AbortSticks(jobs, outcomes, i + 1, |jobs|);
        return;
      }
      i := i + 1;
    }
  }

  /** `preprocess` on file `i`: what the dispatch table reports for it. */
  method PreprocessJob(jobs: seq<Job>, read: string -> Table, ids: nat -> nat -> string, show: Value -> string, i: nat)
      returns (found: Option<Dispatch.Dispatched>)
    requires Readable(read) && i < |jobs|
    ensures found == Outcomes(jobs, read, ids, show)[i]
  {
    found := Dispatch.Preprocess(jobs[i].schemaType, read(jobs[i].path), jobs[i].alsLab, ids(i), show);
    OutcomeAt(jobs, read, ids, show, i);
  }

  lemma OutcomeAt(jobs: seq<Job>, read: string -> Table, ids: nat -> nat -> string, show: Value -> string, i: nat)
    requires Readable(read) && i < |jobs|
    ensures Outcomes(jobs, read, ids, show)[i] == Dispatch.Preprocess(jobs[i].schemaType, read(jobs[i].path), jobs[i].alsLab, ids(i), show)
  {
  }

  lemma ProcessedStep(jobs: seq<Job>, found: seq<Option<Dispatch.Dispatched>>, i: nat)
    requires i < |jobs| && i < |found|
    ensures Processed(jobs, found, i + 1) == Step(Processed(jobs, found, i), jobs[i], found[i])
  {
  }

  /** The body of the loop, for one file and what `preprocess` reported
      for it. */
  method WriteOne(files0: map<string, Table>, job: Job, found: Option<Dispatch.Dispatched>)
      returns (files: map<string, Table>, raised: Option<Raised>)
    ensures Progress(files, raised) == Step(Progress(files0, None), job, found)
  {
    files, raised := files0, None;
    if found.Some? {
      var d := found.value;
      if d.result.Err? {
        raised := Some(NormalizerRaised(d.result.error));
        return;
      }
      var loc := AlsLabFolderAndFileName(job.path);
      if loc.Err? {
        raised := Some(loc.error);
        return;
      }
      files := files[Destination(d.name, loc.value) := d.result.value];
    }
  }

  /** Once raised, the exception ends the run: no later file is touched. */
  lemma {:induction false} AbortSticks(jobs: seq<Job>, found: seq<Option<Dispatch.Dispatched>>, i: nat, n: nat)
    requires i <= n <= |jobs| && n <= |found|
    requires Processed(jobs, found, i).raised.Some?
    ensures Processed(jobs, found, n) == Processed(jobs, found, i)
    decreases n - i
  {
    if n > i {
      AbortSticks(jobs, found, i, n - 1);
    }
  }

  /** A run that ends without an exception raised none along the way. */
  lemma QuietPrefix(jobs: seq<Job>, found: seq<Option<Dispatch.Dispatched>>, i: nat, n: nat)
    requires i <= n <= |jobs| && n <= |found|
    requires Processed(jobs, found, n).raised.None?
    ensures Processed(jobs, found, i).raised.None?
  {
    if Processed(jobs, found, i).raised.Some? {
      AbortSticks(jobs, found, i, n);
    }
  }

  /** File `f` is the destination of one of the first `n` files whose
      schema key has a normalizer. */
  ghost predicate DispatchedTo(jobs: seq<Job>, n: nat, f: string)
    requires n <= |jobs|
  {
    exists i, loc :: 0 <= i < n && jobs[i].schemaType in Dispatch.LookupPreprocessFunction &&
      AlsLabFolderAndFileName(jobs[i].path) == Ok(loc) &&
      f == Destination(Dispatch.FunctionName(Dispatch.LookupPreprocessFunction[jobs[i].schemaType]), loc)
  }

  lemma DispatchedToLater(jobs: seq<Job>, m: nat, n: nat, f: string)
    requires m <= n <= |jobs| && DispatchedTo(jobs, m, f)
    ensures DispatchedTo(jobs, n, f)
  {
    var i, loc :| 0 <= i < m && jobs[i].schemaType in Dispatch.LookupPreprocessFunction &&
      AlsLabFolderAndFileName(jobs[i].path) == Ok(loc) &&
      f == Destination(Dispatch.FunctionName(Dispatch.LookupPreprocessFunction[jobs[i].schemaType]), loc);
  }

  /** Every written file is the destination of an earlier file whose schema
      key has a normalizer; a file with no normalizer is never written. */
  lemma {:induction false} WrittenFilesAreDispatched(jobs: seq<Job>, found: seq<Option<Dispatch.Dispatched>>, n: nat)
    requires n <= |jobs| && Reported(jobs, found)
    ensures forall f :: f in Processed(jobs, found, n).files ==> DispatchedTo(jobs, n, f)
  {
    if n > 0 {
      WrittenFilesAreDispatched(jobs, found, n - 1);
      var p, q := Processed(jobs, found, n - 1), Processed(jobs, found, n);
      var job, d := jobs[n - 1], found[n - 1];
      forall f | f in q.files ensures DispatchedTo(jobs, n, f) {
        if f in p.files {
          DispatchedToLater(jobs, n - 1, n, f);
        } else {
          WrittenLast(jobs, found, n, f);
        }
      }
    }
  }

  /** A file the last step wrote is the destination of that step's file. */
  lemma WrittenLast(jobs: seq<Job>, found: seq<Option<Dispatch.Dispatched>>, n: nat, f: string)
    requires 0 < n <= |jobs| && Reported(jobs, found)
    requires f in Processed(jobs, found, n).files && f !in Processed(jobs, found, n - 1).files
    ensures DispatchedTo(jobs, n, f)
  {
    var p, job, d := Processed(jobs, found, n - 1), jobs[n - 1], found[n - 1];
    assert Processed(jobs, found, n) == Step(p, job, d);
    assert p.raised.None? && d.Some? && d.value.result.Ok? && AlsLabFolderAndFileName(job.path).Ok?;
    var loc := AlsLabFolderAndFileName(job.path).value;
    assert f == Destination(d.value.name, loc);
  }

  /** A run that raises nothing writes, for every file whose schema key has
      a normalizer, that normalizer's table to its destination, unless a
      later file with the same destination replaced it. */
  lemma {:induction false} DispatchedFilesAreWritten(jobs: seq<Job>, found: seq<Option<Dispatch.Dispatched>>, n: nat)
    requires n <= |jobs| && Reported(jobs, found)
    requires Processed(jobs, found, n).raised.None?
    ensures forall i :: 0 <= i < n && jobs[i].schemaType in Dispatch.LookupPreprocessFunction ==>
      found[i].value.result.Ok? && AlsLabFolderAndFileName(jobs[i].path).Ok? &&
      Destination(Dispatch.FunctionName(Dispatch.LookupPreprocessFunction[jobs[i].schemaType]),
                  AlsLabFolderAndFileName(jobs[i].path).value) in Processed(jobs, found, n).files
  {
    if n > 0 {
      QuietPrefix(jobs, found, n - 1, n);
      DispatchedFilesAreWritten(jobs, found, n - 1);
      QuietStep(jobs, found, n);
      var p, q := Processed(jobs, found, n - 1), Processed(jobs, found, n);
      forall i | 0 <= i < n - 1 && jobs[i].schemaType in Dispatch.LookupPreprocessFunction
        ensures Destination(Dispatch.FunctionName(Dispatch.LookupPreprocessFunction[jobs[i].schemaType]),
                            AlsLabFolderAndFileName(jobs[i].path).value) in q.files
      {
        assert Destination(Dispatch.FunctionName(Dispatch.LookupPreprocessFunction[jobs[i].schemaType]),
                           AlsLabFolderAndFileName(jobs[i].path).value) in p.files;
      }
    }
  }

  /** A step that raises nothing keeps every written file and writes the
      file of a dispatched schema key. */
  lemma QuietStep(jobs: seq<Job>, found: seq<Option<Dispatch.Dispatched>>, n: nat)
    requires 0 < n <= |jobs| && Reported(jobs, found)
    requires Processed(jobs, found, n).raised.None?
    ensures Processed(jobs, found, n - 1).files.Keys <= Processed(jobs, found, n).files.Keys
    ensures jobs[n - 1].schemaType in Dispatch.LookupPreprocessFunction ==>
      found[n - 1].value.result.Ok? && AlsLabFolderAndFileName(jobs[n - 1].path).Ok? &&
      Destination(Dispatch.FunctionName(Dispatch.LookupPreprocessFunction[jobs[n - 1].schemaType]),
                  AlsLabFolderAndFileName(jobs[n - 1].path).value) in Processed(jobs, found, n).files
  {
    var p, job, d := Processed(jobs, found, n - 1), jobs[n - 1], found[n - 1];
    assert Processed(jobs, found, n) == Step(p, job, d);
    if p.raised.Some? {
      assert Step(p, job, d) == p;
    }
  }

  // ---------------------------------------------------------------------
  // Line 47 as written

  /** Iteration as written. `preprocess` hands back the normalizer's frame
      alone, or None, and line 47 unpacks it into two names: None cannot be
      unpacked, a frame unpacks into its column labels, which fails unless
      there are exactly two of them, and then `processed_df` is a label, a
      string, which has no `to_csv`. */
  function StepAsWritten(p: Progress, job: Job, found: Option<Dispatch.Dispatched>): (s: Progress)
    ensures s.files == p.files
    ensures s.raised.Some?
  {
    if p.raised.Some? then p
    else
      match found
      case None => Progress(p.files, Some(CannotUnpackNone))
      case Some(d) =>
        match d.result
        case Err(e) => Progress(p.files, Some(NormalizerRaised(e)))
        case Ok(t) =>
          if |t.columns| != 2 then Progress(p.files, Some(WrongUnpackCount(|t.columns|)))
          else
            match AlsLabFolderAndFileName(job.path)
            case Err(x) => Progress(p.files, Some(x))
            case Ok(_) => Progress(p.files, Some(NoToCsv))
  }

  function ProcessedAsWritten(jobs: seq<Job>, found: seq<Option<Dispatch.Dispatched>>, n: nat): Progress
    requires n <= |jobs| && n <= |found|
  {
    if n == 0 then Progress(map[], None)
    else StepAsWritten(ProcessedAsWritten(jobs, found, n - 1), jobs[n - 1], found[n - 1])
  }

  /** As written, the loop writes no file at all and raises on the first
      file it is given, whatever that file is and whatever `preprocess`
      reports for it. */
  lemma {:induction false} AsWrittenWritesNothing(jobs: seq<Job>, found: seq<Option<Dispatch.Dispatched>>, n: nat)
    requires n <= |jobs| && n <= |found|
    ensures ProcessedAsWritten(jobs, found, n).files == map[]
    ensures n > 0 ==> ProcessedAsWritten(jobs, found, n).raised.Some?
  {
    if n > 0 {
      AsWrittenWritesNothing(jobs, found, n - 1);
    }
  }

  // ---------------------------------------------------------------------
  // combine_preprocess (pre_process.py:79-103)

  /** One entry of `rglob("*")` below a bucket folder: its path, whether
      it is a regular file, and the frame `read_csv` gives for it. */
  datatype Found = Found(path: string, isFile: bool, table: Table)

  /** The entries that are read and concatenated. */
  predicate Accepted(f: Found)
  {
    f.isFile && PassesCsvFilter(Name(f.path))
  }

  predicate AllWellFormed(found: seq<Found>)
  {
    forall k :: 0 <= k < |found| ==> WellFormed(found[k].table)
  }

  /** `combine_df` after the loop: the accepted frames concatenated in
      walk order onto an empty frame. */
  function Combined(found: seq<Found>): (r: Table)
    requires AllWellFormed(found)
    ensures WellFormed(r)
  {
    if found == [] then Empty
    else
      var prev := Combined(found[..|found| - 1]);
      var f := found[|found| - 1];
      if Accepted(f) then Concat(prev, f.table) else prev
  }

  /** The rows of the accepted frames, counted. */
  function AcceptedRows(found: seq<Found>): nat
  {
    if found == [] then 0
    else AcceptedRows(found[..|found| - 1]) + (if Accepted(found[|found| - 1]) then found[|found| - 1].table.height else 0)
  }

  /** Column `c` of every accepted frame, one below the other, with a
      missing value on every row of a frame that lacks the column. */
  function Stacked(found: seq<Found>, c: string): seq<Value>
    requires AllWellFormed(found)
  {
    if found == [] then []
    else
      var f := found[|found| - 1];
      Stacked(found[..|found| - 1], c) + (if Accepted(f) then Padded(f.table, c) else [])
  }

  /** The combined frame has exactly the rows of the accepted files. */
  lemma {:induction false} CombinedRows(found: seq<Found>)
    requires AllWellFormed(found)
    ensures Combined(found).height == AcceptedRows(found)
  {
    if found != [] {
      CombinedRows(found[..|found| - 1]);
    }
  }

  /** Entry `f` is accepted and its frame has a column `c`. */
  predicate Supplies(f: Found, c: string)
  {
    Accepted(f) && c in Labels(f.table)
  }

  /** Its columns are the labels of the accepted frames. */
  lemma {:induction false} CombinedLabels(found: seq<Found>, c: string)
    requires AllWellFormed(found)
    ensures c in Labels(Combined(found)) <==> exists k :: 0 <= k < |found| && Supplies(found[k], c)
  {
    if found != [] {
      var front := found[..|found| - 1];
      var f := found[|found| - 1];
      CombinedLabels(front, c);
      assert c in Labels(Combined(found)) <==> c in Labels(Combined(front)) || Supplies(f, c);
      FoundSplit(found, front, g => Supplies(g, c));
    }
  }

  /** Some entry satisfies `p` exactly when one before the last does or
      the last does. */
  lemma FoundSplit(found: seq<Found>, front: seq<Found>, p: Found -> bool)
    requires found != [] && front == found[..|found| - 1]
    ensures (exists k :: 0 <= k < |found| && p(found[k])) <==>
      (exists k :: 0 <= k < |front| && p(front[k])) || p(found[|found| - 1])
  {
    if exists k :: 0 <= k < |found| && p(found[k]) {
      var k :| 0 <= k < |found| && p(found[k]);
      if k < |front| { assert front[k] == found[k]; }
    }
    if exists k :: 0 <= k < |front| && p(front[k]) {
      var k :| 0 <= k < |front| && p(front[k]);
      assert found[k] == front[k];
    }
  }

  /** Each of its columns is the accepted frames' column stacked in walk
      order, padded with missing values where a frame lacks it. */
  lemma {:induction false} CombinedColumns(found: seq<Found>, c: string)
    requires AllWellFormed(found)
    ensures Padded(Combined(found), c) == Stacked(found, c)
  {
    if found != [] {
      var front := found[..|found| - 1];
      var f := found[|found| - 1];
      var prev := Combined(front);
      CombinedColumns(front, c);
      if Accepted(f) {
        var r := Concat(prev, f.table);
        if c !in Labels(r) {
          assert c !in Labels(prev) && c !in Labels(f.table);
          assert Repeat(r.height, Null) == Repeat(prev.height, Null) + Repeat(f.table.height, Null);
        }
      }
    }
  }

  /** The inner loop over one bucket folder's walk. */
  method CombineBucket(found: seq<Found>) returns (combined: Table)
    requires AllWellFormed(found)
    ensures combined == Combined(found)
  {
    combined := Empty;
    var k := 0;
    while k < |found|
      invariant 0 <= k <= |found|
      invariant combined == Combined(found[..k])
    {
      assert found[..k + 1][..k] == found[..k];
      if Accepted(found[k]) {
        combined := Concat(combined, found[k].table);
      }
      k := k + 1;
    }
    assert found[..|found|] == found;
  }

  /** One bucket folder found below `data/pre_processed/{last_folder}`. */
  datatype BucketFolder = BucketFolder(name: string, found: seq<Found>)

  /** `{combined_output_folder}/combined_{folder_name}.csv`. */
  function CombinedFile(folder: string): string
  {
    Join(["data", "pre_processed_combined", LastFolder]) + "/combined_" + folder + ".csv"
  }

  predicate FoldersWellFormed(folders: seq<BucketFolder>)
  {
    forall k :: 0 <= k < |folders| ==> AllWellFormed(folders[k].found)
  }

  /** The combined files written for the first `n` folders. */
  function CombinedOutputs(folders: seq<BucketFolder>, n: nat): map<string, Table>
    requires n <= |folders| && FoldersWellFormed(folders)
  {
    if n == 0 then map[]
    else CombinedOutputs(folders, n - 1)[CombinedFile(folders[n - 1].name) := Combined(folders[n - 1].found)]
  }

  /** `combine_preprocess()`. */
  method CombinePreprocess(folders: seq<BucketFolder>) returns (written: map<string, Table>)
    requires FoldersWellFormed(folders)
    ensures written == CombinedOutputs(folders, |folders|)
  {
    written := map[];
    var k := 0;
    while k < |folders|
      invariant 0 <= k <= |folders|
      invariant written == CombinedOutputs(folders, k)
    {
      var combined := CombineBucket(folders[k].found);
      written := written[CombinedFile(folders[k].name) := combined];
      k := k + 1;
    }
  }

  lemma {:induction false} AffixInjective(pre: string, x: string, y: string, post: string)
    requires pre + x + post == pre + y + post
    ensures x == y
  {
    var s := pre + x + post;
    assert x == s[|pre|..|s| - |post|];
    assert y == (pre + y + post)[|pre|..|s| - |post|];
  }

  /** Distinct folders get distinct combined files. */
  lemma CombinedFileInjective(a: string, b: string)
    ensures CombinedFile(a) == CombinedFile(b) <==> a == b
  {
    if CombinedFile(a) == CombinedFile(b) {
      var pre := Join(["data", "pre_processed_combined", LastFolder]) + "/combined_";
      assert CombinedFile(a) == pre + a + ".csv" && CombinedFile(b) == pre + b + ".csv";
      AffixInjective(pre, a, b, ".csv");
    }
  }

  /** The run writes one combined file per bucket folder and nothing
      else. */
  lemma {:induction false} CombinedKeys(folders: seq<BucketFolder>, n: nat)
    requires n <= |folders| && FoldersWellFormed(folders)
    ensures CombinedOutputs(folders, n).Keys == set k | 0 <= k < n :: CombinedFile(folders[k].name)
  {
    if n > 0 {
      CombinedKeys(folders, n - 1);
      var prev := set k | 0 <= k < n - 1 :: CombinedFile(folders[k].name);
      assert (set k | 0 <= k < n :: CombinedFile(folders[k].name)) == prev + {CombinedFile(folders[n - 1].name)};
    }
  }

  /** With the folder names of a directory listing, which are distinct,
      each bucket folder's combined file holds that folder's combined
      frame. */
  lemma {:induction false} EveryBucketCombined(folders: seq<BucketFolder>, n: nat)
    requires n <= |folders| && FoldersWellFormed(folders)
    requires forall i, j :: 0 <= i < j < |folders| ==> folders[i].name != folders[j].name
    ensures forall k :: 0 <= k < n ==>
      CombinedFile(folders[k].name) in CombinedOutputs(folders, n) &&
      CombinedOutputs(folders, n)[CombinedFile(folders[k].name)] == Combined(folders[k].found)
  {
    if n > 0 {
      EveryBucketCombined(folders, n - 1);
      forall k | 0 <= k < n - 1
        ensures CombinedFile(folders[k].name) != CombinedFile(folders[n - 1].name)
      {
        CombinedFileInjective(folders[k].name, folders[n - 1].name);
      }
    }
  }
}
