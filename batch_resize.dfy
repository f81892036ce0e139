/**
 * The batch resizer of view.py: every PNG file of the input folder is resized
 * to each named target resolution, and the result of size `n` for a file with
 * stem `b` is written as `b_n.png` into the sub-folder `n` of the output folder.
 *
 * The listing of the folder is an input (one `Entry` per name, with whether it
 * is a regular file), and so is whether each `resize_image` call manages to
 * open, resize and save (`resizeSucceeds`). The model records the calls the
 * main loop makes, the files they write, and `processed_count`.
 */
module BatchResize {
  import opened Text

  /** `input_folder`. */
  const InputFolder: string := "./img"

  /** `output_base_folder`, which the script sets to the input folder. */
  const OutputBaseFolder: string := InputFolder

  datatype Size = Size(width: int, height: int)

  /** One entry of `target_resolutions`: a size name and its size. */
  datatype Target = Target(name: string, size: Size)

  /** `target_resolutions`, in the dict's insertion order. */
  const TargetResolutions: seq<Target> := [Target("2k", Size(2560, 1440)), Target("4k", Size(3840, 2160))]

  /** `expected_original_resolution`. */
  const ExpectedOriginalResolution: Size := Size(1920, 1080)

  /** Equal width-to-height ratios, compared by cross-multiplication. */
  predicate SameAspect(a: Size, b: Size)
  {
    a.width * b.height == a.height * b.width
  }

  /** Both targets are scalings of 1920x1080, so resizing does not distort such a source. */
  lemma TargetsKeepAspect()
    ensures |TargetResolutions| == 2
    ensures forall k :: 0 <= k < |TargetResolutions| ==>
              SameAspect(TargetResolutions[k].size, ExpectedOriginalResolution)
  {
  }

  /** One name from `os.listdir`, and whether `os.path.isfile` holds for it. */
  datatype Entry = Entry(name: string, isFile: bool)

  /** The test at view.py:89. */
  predicate Qualifies(e: Entry)
  {
    e.isFile && IsPngName(e.name)
  }

  /** The arguments of one `resize_image(image_path, target_size, target_name, base_name, output_folder)` call. */
  datatype Job = Job(imagePath: string, targetSize: Size, targetName: string, baseName: string, outputFolder: string)

  /** `output_filename` of view.py:61. */
  function OutputFilename(j: Job): string
  {
    j.baseName + "_" + j.targetName + ".png"
  }

  /** `output_file_path` of view.py:62. */
  function OutputFilePath(j: Job): string
  {
    PathJoin(j.outputFolder, OutputFilename(j))
  }

  /** `base_name` of view.py:93. */
  function Stem(filename: string): string
  {
    SplitExt(filename).0
  }

  /** The call the loop of view.py:96-98 makes for `filename` and target `t`. */
  function JobFor(filename: string, t: Target): Job
  {
    Job(PathJoin(InputFolder, filename), t.size, t.name, Stem(filename), PathJoin(OutputBaseFolder, t.name))
  }

  /** The calls made for one file, one per target, in order. */
  function TargetJobs(filename: string, targets: seq<Target>): seq<Job>
  {
    if targets == [] then []
    else TargetJobs(filename, targets[..|targets| - 1]) + [JobFor(filename, targets[|targets| - 1])]
  }

  /** The names of the entries the loop processes, in listing order. */
  function QualifyingNames(entries: seq<Entry>): (r: seq<string>)
    ensures |r| <= |entries|
    ensures forall f :: f in r <==> exists i :: 0 <= i < |entries| && Qualifies(entries[i]) && entries[i].name == f
  {
    if entries == [] then []
    else
      var init, last := entries[..|entries| - 1], entries[|entries| - 1];
      assert forall i :: 0 <= i < |init| ==> init[i] == entries[i];
      QualifyingNames(init) + (if Qualifies(last) then [last.name] else [])
  }

  /** Every `resize_image` call of the main loop of view.py:85-103, in order. */
  function PlannedJobs(entries: seq<Entry>): seq<Job>
  {
    if entries == [] then []
    else
      var last := entries[|entries| - 1];
      PlannedJobs(entries[..|entries| - 1])
      + (if Qualifies(last) then TargetJobs(last.name, TargetResolutions) else [])
  }

  /** The files the calls manage to write, in order. */
  function SavedFiles(jobs: seq<Job>, resizeSucceeds: Job -> bool): seq<string>
  {
    if jobs == [] then []
    else
      var last := jobs[|jobs| - 1];
      SavedFiles(jobs[..|jobs| - 1], resizeSucceeds) + (if resizeSucceeds(last) then [OutputFilePath(last)] else [])
  }

  // ---------------------------------------------------------------------
  // Properties of the plan
  // ---------------------------------------------------------------------

  /** One call per target, the k-th for the k-th target. */
  lemma {:induction false} TargetJobsAt(filename: string, targets: seq<Target>)
    ensures |TargetJobs(filename, targets)| == |targets|
    ensures forall k :: 0 <= k < |targets| ==> TargetJobs(filename, targets)[k] == JobFor(filename, targets[k])
  {
    if targets != [] {
      TargetJobsAt(filename, targets[..|targets| - 1]);
    }
  }

  /** An entry that is a directory or a non-PNG file adds no call. */
  lemma SkippedEntryAddsNothing(entries: seq<Entry>, e: Entry)
    requires !Qualifies(e)
    ensures PlannedJobs(entries + [e]) == PlannedJobs(entries)
    ensures QualifyingNames(entries + [e]) == QualifyingNames(entries)
  {
    assert (entries + [e])[..|entries|] == entries;
  }

  /** Exactly two calls per processed file: total calls = 2 * processed_count. */
  lemma {:induction false} PlannedJobsCount(entries: seq<Entry>)
    ensures |PlannedJobs(entries)| == |TargetResolutions| * |QualifyingNames(entries)|
  {
    if entries != [] {
      PlannedJobsCount(entries[..|entries| - 1]);
      TargetJobsAt(entries[|entries| - 1].name, TargetResolutions);
    }
  }

  /**
   * Call 2m is the 2k resize of the m-th processed file and call 2m+1 its 4k
   * resize: the plan is exactly "every PNG file, every target, in order".
   */
  lemma {:induction false} PlannedJobsAt(entries: seq<Entry>, k: nat)
    requires k < |PlannedJobs(entries)|
    ensures |PlannedJobs(entries)| == 2 * |QualifyingNames(entries)|
    ensures PlannedJobs(entries)[k] == JobFor(QualifyingNames(entries)[k / 2], TargetResolutions[k % 2])
  {
    PlannedJobsCount(entries);
    var init, last := entries[..|entries| - 1], entries[|entries| - 1];
    PlannedJobsCount(init);
    var m := |QualifyingNames(init)|;
    if k < |PlannedJobs(init)| {
      PlannedJobsAt(init, k);
    } else {
      assert Qualifies(last);
      TargetJobsAt(last.name, TargetResolutions);
      assert k == 2 * m || k == 2 * m + 1;
      assert k / 2 == m && k - 2 * m == k % 2;
      assert QualifyingNames(entries)[m] == last.name;
    }
  }

  /** Each call's output file lies in the folder named after its target. */
  lemma OutputPathShape(j: Job)
    requires j.outputFolder == PathJoin(OutputBaseFolder, j.targetName)
    requires |j.targetName| >= 1 && '/' !in j.targetName && '/' !in j.baseName
    ensures OutputFilePath(j) == "./img/" + j.targetName + "/" + j.baseName + "_" + j.targetName + ".png"
  {
    assert j.outputFolder == "./img/" + j.targetName;
    var folder, name := j.outputFolder, OutputFilename(j);
    assert folder[|folder| - 1] == j.targetName[|j.targetName| - 1];
    assert name[0] != '/' by {
      if j.baseName == [] { assert name[0] == '_'; } else { assert name[0] == j.baseName[0]; }
    }
  }

  /** A PNG name with no slash: its last dot is the one of ".png". */
  lemma {:induction false} PngNameLastDot(f: string)
    requires IsPngName(f) && '/' !in f
    ensures RFind(f, '.') == |f| - 4 && RFind(f, '/') == -1
  {
    IsPngNameChars(f);
    assert f[|f| - 3] != '.' && f[|f| - 2] != '.' && f[|f| - 1] != '.';
  }

  /**
   * The stem of a listed PNG name is the name without its last four
   * characters, unless everything before ".png" is dots (".png", "..png"):
   * then splitext finds no extension and the stem is the whole name.
   */
  lemma StemOfPngName(f: string)
    requires IsPngName(f) && '/' !in f
    ensures |f| >= 4
    ensures HasNonDot(f, 0, |f| - 4) ==> Stem(f) == f[..|f| - 4]
    ensures !HasNonDot(f, 0, |f| - 4) ==> Stem(f) == f
  {
    PngNameLastDot(f);
  }

  /** A listing of one entry plans that entry's calls alone. */
  lemma SingleEntryJobs(e: Entry)
    ensures PlannedJobs([e]) == if Qualifies(e) then TargetJobs(e.name, TargetResolutions) else []
  {
    assert [e][..0] == [];
  }

  /** The stem of a PNG name that is not all dots before ".png" holds no slash either. */
  lemma PngStem(f: string)
    requires IsPngName(f) && '/' !in f && HasNonDot(f, 0, |f| - 4)
    ensures |f| >= 4 && f[0] != '/'
    ensures Stem(f) == f[..|f| - 4] && '/' !in Stem(f)
  {
    StemOfPngName(f);
    var b := f[..|f| - 4];
    assert '/' !in b by {
      forall k | 0 <= k < |b| ensures b[k] != '/' { assert b[k] == f[k]; }
    }
  }

  /** The call for a file name that does not start with a slash, and a plain size name. */
  lemma JobForShape(f: string, t: Target)
    requires |f| >= 1 && f[0] != '/'
    requires |t.name| >= 1 && '/' !in t.name
    ensures JobFor(f, t) == Job("./img/" + f, t.size, t.name, Stem(f), "./img/" + t.name)
  {
    assert InputFolder + "/" == "./img/";
    assert PathJoin(InputFolder, f) == InputFolder + "/" + f;
    assert t.name[0] != '/';
    assert PathJoin(OutputBaseFolder, t.name) == InputFolder + "/" + t.name;
  }

  /** The call for a PNG file `f` (no slash, not all dots before ".png") and target `t`. */
  lemma PngFileJob(f: string, t: Target)
    requires IsPngName(f) && '/' !in f && HasNonDot(f, 0, |f| - 4)
    requires |t.name| >= 1 && '/' !in t.name
    ensures |f| >= 4
    ensures var b := f[..|f| - 4];
            && JobFor(f, t) == Job("./img/" + f, t.size, t.name, b, "./img/" + t.name)
            && OutputFilePath(JobFor(f, t)) == "./img/" + t.name + "/" + b + "_" + t.name + ".png"
  {
    PngStem(f);
    JobForShape(f, t);
    OutputPathShape(JobFor(f, t));
  }

  /** A listing holding only a PNG file makes its 2k call and then its 4k call. */
  lemma SingleFileJobs(f: string)
    requires IsPngName(f)
    ensures PlannedJobs([Entry(f, true)]) == [JobFor(f, TargetResolutions[0]), JobFor(f, TargetResolutions[1])]
  {
    SingleEntryJobs(Entry(f, true));
    TargetJobsAt(f, TargetResolutions);
  }

  /** "hair.PNG" qualifies and has the stem "hair". */
  lemma HairIsPng()
    ensures IsPngName("hair.PNG") && '/' !in "hair.PNG" && HasNonDot("hair.PNG", 0, 4)
    ensures "hair.PNG"[..4] == "hair"
  {
    var f := "hair.PNG";
    IsPngNameChars(f);
    assert f[0] != '.';
  }

  /**
   * "hair.PNG" gives the 2k call and then the 4k call; by `PngFileJob` they
   * read "./img/hair.PNG" and write "./img/2k/hair_2k.png" and "./img/4k/hair_4k.png".
   */
  lemma HairExample()
    ensures PlannedJobs([Entry("hair.PNG", true)])
            == [JobFor("hair.PNG", TargetResolutions[0]), JobFor("hair.PNG", TargetResolutions[1])]
    ensures Stem("hair.PNG") == "hair"
  {
    HairIsPng();
    SingleFileJobs("hair.PNG");
    PngStem("hair.PNG");
  }

  /** A file named ".png" qualifies, and keeps its whole name as the stem (its 2k output is ".png_2k.png"). */
  lemma DotPngExample()
    ensures IsPngName(".png") && Stem(".png") == ".png"
  {
    var f := ".png";
    IsPngNameChars(f);
    StemOfPngName(f);
  }

  /** One more entry extends the plan and the count by that entry's share. */
  lemma EntrySnoc(entries: seq<Entry>, e: Entry)
    ensures PlannedJobs(entries + [e])
            == PlannedJobs(entries) + (if Qualifies(e) then TargetJobs(e.name, TargetResolutions) else [])
    ensures |QualifyingNames(entries + [e])| == |QualifyingNames(entries)| + (if Qualifies(e) then 1 else 0)
  {
    assert (entries + [e])[..|entries|] == entries;
  }

  /** One more target extends a file's calls by the call for that target. */
  lemma TargetJobsSnoc(filename: string, targets: seq<Target>, k: nat)
    requires k < |targets|
    ensures TargetJobs(filename, targets[..k + 1]) == TargetJobs(filename, targets[..k]) + [JobFor(filename, targets[k])]
  {
    assert targets[..k + 1][..k] == targets[..k];
  }

  /** One more call extends the saved files by what that call writes. */
  lemma SavedFilesSnoc(jobs: seq<Job>, j: Job, resizeSucceeds: Job -> bool)
    ensures SavedFiles(jobs + [j], resizeSucceeds)
            == SavedFiles(jobs, resizeSucceeds) + (if resizeSucceeds(j) then [OutputFilePath(j)] else [])
  {
    assert (jobs + [j])[..|jobs|] == jobs;
  }

  // ---------------------------------------------------------------------
  // The script
  // ---------------------------------------------------------------------

  /** How a run of the script ends. */
  datatype Run =
    | NotADirectory
    | Completed(calls: seq<Job>, saved: seq<string>, processedCount: nat)

  /**
   * `resize_image`, view.py:33-75. `succeeds` is whether the call gets
   * through `save` (line 65); any exception is caught and only printed, and
   * one raised before `save` leaves nothing written.
   */
  method ResizeImage(job: Job, succeeds: bool) returns (savedPath: seq<string>)
    ensures succeeds ==> savedPath == [OutputFilePath(job)]
    ensures !succeeds ==> savedPath == []
    // the naming scheme of lines 61-62 for a call the main loop makes
    ensures succeeds && job.outputFolder == PathJoin(OutputBaseFolder, job.targetName)
            && |job.targetName| >= 1 && '/' !in job.targetName && '/' !in job.baseName
            ==> savedPath == ["./img/" + job.targetName + "/" + job.baseName + "_" + job.targetName + ".png"]
  {
    if !succeeds {
      return [];
    }
    savedPath := [OutputFilePath(job)];
    if job.outputFolder == PathJoin(OutputBaseFolder, job.targetName)
       && |job.targetName| >= 1 && '/' !in job.targetName && '/' !in job.baseName {
      OutputPathShape(job);
    }
  }

  /**
   * The inner loop of view.py:96-98 over `targets` (the script passes
   * `target_resolutions`): one `resize_image` call per target, in order;
   * `calls` and `saved` are what the main loop has recorded so far.
   */
  method ResizeToTargets(filename: string, filePath: string, baseName: string, targets: seq<Target>,
                         resizeSucceeds: Job -> bool, calls: seq<Job>, saved: seq<string>)
    returns (calls': seq<Job>, saved': seq<string>)
    requires filePath == PathJoin(InputFolder, filename) && baseName == Stem(filename)
    requires saved == SavedFiles(calls, resizeSucceeds)
    ensures calls' == calls + TargetJobs(filename, targets)
    ensures saved' == SavedFiles(calls', resizeSucceeds)
  {
    calls', saved' := calls, saved;
    for k := 0 to |targets|
      invariant calls' == calls + TargetJobs(filename, targets[..k])
      invariant saved' == SavedFiles(calls', resizeSucceeds)
    {
      var t := targets[k];
      var outputFolderPath := PathJoin(OutputBaseFolder, t.name);
      var job := Job(filePath, t.size, t.name, baseName, outputFolderPath);
      assert job == JobFor(filename, t);
      TargetJobsSnoc(filename, targets, k);
      var written := ResizeImage(job, resizeSucceeds(job));
      SavedFilesSnoc(calls', job, resizeSucceeds);
      calls' := calls' + [job];
      saved' := saved' + written;
    }
    assert targets[..|targets|] == targets;
  }

  /**
   * The main program of view.py:79-106. `processed_count` counts the PNG
   * files the loop reached, whether or not their resizes succeeded, and no
   * failing call stops the loop.
   */
  method RunBatch(inputIsDir: bool, listing: seq<Entry>, resizeSucceeds: Job -> bool) returns (run: Run)
    ensures !inputIsDir ==> run == NotADirectory
    ensures inputIsDir ==>
              run == Completed(PlannedJobs(listing), SavedFiles(PlannedJobs(listing), resizeSucceeds),
                               |QualifyingNames(listing)|)
  {
    if !inputIsDir {
      return NotADirectory;
    }
    var processedCount := 0;
    var calls: seq<Job> := [];
    var saved: seq<string> := [];
    for i := 0 to |listing|
      invariant calls == PlannedJobs(listing[..i])
      invariant saved == SavedFiles(calls, resizeSucceeds)
      invariant processedCount == |QualifyingNames(listing[..i])|
    {
      var filename := listing[i].name;
      var filePath := PathJoin(InputFolder, filename);
      assert listing[..i + 1] == listing[..i] + [listing[i]];
      EntrySnoc(listing[..i], listing[i]);
      if listing[i].isFile && IsPngName(filename) {
        var (baseName, _) := SplitExt(filename);
        calls, saved := ResizeToTargets(filename, filePath, baseName, TargetResolutions, resizeSucceeds, calls, saved);
        processedCount := processedCount + 1;
      }
    }
    assert listing[..|listing|] == listing;
    run := Completed(calls, saved, processedCount);
  }
}
