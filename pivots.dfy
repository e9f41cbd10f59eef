/** The weekly pivot marts (`testing/build_weekly_transfer_pivots.py`): every
    corrected `transfers_*.csv` week file of a directory, in name order, is
    turned into `mart_transfers_pivot_<start>_<end>.csv`; the first failure
    of the pivot builder ends the run. The builder itself is not part of this
    model: each file carries whether it succeeds on it. */
module Pivots {
  import opened Wrappers
  import opened Text
  import opened Calendar
  import opened WeekFiles
  import opened ProjectPaths

  const TransfersPrefix: string := "transfers_"
  const PivotPrefix: string := "mart_transfers_pivot_"

  /** A week file of the directory: its name and whether the builder
      succeeds on it. */
  type WeekFile = (string, bool)

  function PivotName(start: string, end: string): string {
    PivotPrefix + start + "_" + end + ".csv"
  }

  /** `output_dir or weekly_dir`. */
  function OutputDir(weeklyDir: string, outputDir: Option<string>): (d: string)
    ensures outputDir.Some? ==> d == outputDir.value
    ensures outputDir.None? ==> d == weeklyDir
  {
    if outputDir.Some? then outputDir.value else weeklyDir
  }

  /** A pivot's name reads back as the week it was built for. */
  lemma PivotNameRoundTrip(start: string, end: string)
    requires IsIsoShaped(start) && IsIsoShaped(end)
    ensures WeekFromName(PivotPrefix, PivotName(start, end)) == Some((start, end))
  {
    WeekNameRoundTrip(PivotPrefix, start, end, "");
    assert PivotPrefix + start + "_" + end + ".csv" + "" == PivotName(start, end);
  }

  /** The paths written for `files` processed in order: the non-week files
      are skipped, and the first failing week file is the run's failure. */
  function PivotsOf(files: seq<WeekFile>, outDir: string): (r: Result<seq<string>, string>)
    ensures r.Success? ==> |r.value| <= |files|
  {
    if files == [] then Success([])
    else
      match PivotsOf(files[..|files| - 1], outDir)
      case Failure(e) => Failure(e)
      case Success(written) =>
        var f := files[|files| - 1];
        match WeekFromName(TransfersPrefix, f.0)
        case None => Success(written)
        case Some(w) =>
          if f.1 then Success(written + [JoinPath(outDir, PivotName(w.0, w.1))])
          else Failure("build_table: " + f.0)
  }

  /** Once a prefix of the files fails, the whole run fails the same way. */
  lemma {:induction false} FailureSticks(files: seq<WeekFile>, outDir: string, i: nat)
    requires i <= |files| && PivotsOf(files[..i], outDir).Failure?
    ensures PivotsOf(files, outDir) == PivotsOf(files[..i], outDir)
    decreases |files| - i
  {
    if i < |files| {
      assert files[..i + 1][..i] == files[..i];
      FailureSticks(files, outDir, i + 1);
    } else {
      assert files[..i] == files;
    }
  }

  /** One more file processed after a successful prefix: a non-week file
      is skipped, a week file the builder succeeds on adds its pivot, and
      one it fails on fails the run. */
  lemma PivotsStep(files: seq<WeekFile>, outDir: string, i: nat, written: seq<string>)
    requires i < |files| && PivotsOf(files[..i], outDir) == Success(written)
    ensures WeekFromName(TransfersPrefix, files[i].0).None? ==> PivotsOf(files[..i + 1], outDir) == Success(written)
    ensures WeekFromName(TransfersPrefix, files[i].0).Some? && files[i].1 ==>
      var w := WeekFromName(TransfersPrefix, files[i].0).value;
      PivotsOf(files[..i + 1], outDir) == Success(written + [JoinPath(outDir, PivotName(w.0, w.1))])
    ensures WeekFromName(TransfersPrefix, files[i].0).Some? && !files[i].1 ==>
      PivotsOf(files[..i + 1], outDir) == Failure("build_table: " + files[i].0)
  {
    assert files[..i + 1][..i] == files[..i];
  }

  /** `build_weekly_pivots` over a directory listing. */
  method BuildWeeklyPivots(weeklyDir: string, outputDir: Option<string>, listing: seq<WeekFile>)
    returns (r: Result<seq<string>, string>)
    ensures r == PivotsOf(SortedGlob(TransfersPrefix, listing), OutputDir(weeklyDir, outputDir))
  {
    r := BuildPivots(SortedGlob(TransfersPrefix, listing), OutputDir(weeklyDir, outputDir));
  }

  /** The loop of `build_weekly_pivots` over the sorted week files. */
  method BuildPivots(files: seq<WeekFile>, outDir: string) returns (r: Result<seq<string>, string>)
    ensures r == PivotsOf(files, outDir)
  {
    var written: seq<string> := [];
    var i := 0;
    while i < |files|
      invariant 0 <= i <= |files|
      invariant PivotsOf(files[..i], outDir) == Success(written)
    {
      PivotsStep(files, outDir, i, written);
      var week := WeekFromName(TransfersPrefix, files[i].0);
      if week.Some? {
        if !files[i].1 {
          FailureSticks(files, outDir, i + 1);
          return Failure("build_table: " + files[i].0);
        }
        written := written + [JoinPath(outDir, PivotName(week.value.0, week.value.1))];
      }
      i := i + 1;
    }
    assert files[..|files|] == files;
    r := Success(written);
  }

  /** The run succeeds exactly when the builder succeeds on every week file. */
  lemma {:induction false} PivotsSucceed(files: seq<WeekFile>, outDir: string)
    ensures PivotsOf(files, outDir).Success?
        <==> forall f :: f in files && WeekFromName(TransfersPrefix, f.0).Some? ==> f.1
  {
    if files != [] {
      var init := files[..|files| - 1];
      PivotsSucceed(init, outDir);
      assert files == init + [files[|files| - 1]];
      assert forall f :: f in files <==> f in init || f == files[|files| - 1];
    }
  }

  /** On success, the paths written are exactly the pivots of the week
      files. */
  lemma {:induction false} PivotsWritten(files: seq<WeekFile>, outDir: string, p: string)
    requires PivotsOf(files, outDir).Success?
    ensures p in PivotsOf(files, outDir).value
        <==> exists f :: f in files && WeekFromName(TransfersPrefix, f.0).Some?
                         && p == JoinPath(outDir, PivotName(WeekFromName(TransfersPrefix, f.0).value.0,
                                                            WeekFromName(TransfersPrefix, f.0).value.1))
  {
    if files != [] {
      var init := files[..|files| - 1];
      PivotsWritten(init, outDir, p);
      assert files == init + [files[|files| - 1]];
      assert forall f :: f in files <==> f in init || f == files[|files| - 1];
    }
  }

  /** Every path written names the week it was built from. */
  lemma PivotPathsReadBack(files: seq<WeekFile>, outDir: string, f: WeekFile)
    requires f in files && WeekFromName(TransfersPrefix, f.0).Some?
    requires PivotsOf(files, outDir).Success?
    ensures var w := WeekFromName(TransfersPrefix, f.0).value;
            JoinPath(outDir, PivotName(w.0, w.1)) in PivotsOf(files, outDir).value
            && WeekFromName(PivotPrefix, PivotName(w.0, w.1)) == Some(w)
  {
    var w := WeekFromName(TransfersPrefix, f.0).value;
    PivotsWritten(files, outDir, JoinPath(outDir, PivotName(w.0, w.1)));
    PivotNameRoundTrip(w.0, w.1);
  }
}
