/** What the task action promises: where its reports go, in which order, with which result,
    and which failure, if any, it ends with. */
module DiffTaskProperties {
  import opened Wrappers
  import opened DiffTask

  /** Every format is tried, and in the order of `FormatIndex`. */
  lemma ReportOrderComplete()
    ensures forall f :: f in ReportOrder
    ensures InOrder(ReportOrder)
  {
    forall f ensures f in ReportOrder {
      assert ReportOrder[FormatIndex(f)] == f;
    }
  }

  /** No two formats share an extension. */
  lemma FileExtensionInjective(f: Format, g: Format)
    ensures FileExtension(f) == FileExtension(g) ==> f == g
  {
    if f != g {
      var e, h := FileExtension(f), FileExtension(g);
      assert |e| != |h| || e[1] != h[1];
    }
  }

  lemma AppendCancel(base: string, a: string, b: string)
    ensures base + a == base + b ==> a == b
  {
    if base + a == base + b {
      assert (base + a)[|base|..] == a;
      assert (base + b)[|base|..] == b;
    }
  }

  /** The formats of `fs` come in strictly increasing `FormatIndex`. */
  predicate InOrder(fs: seq<Format>)
  {
    forall i, j :: 0 <= i < j < |fs| ==> FormatIndex(fs[i]) < FormatIndex(fs[j])
  }

  /** Filtering keeps a sequence of formats in increasing order. */
  lemma {:induction false} EnabledIncreasing(fs: seq<Format>, cfg: TaskConfig)
    requires InOrder(fs)
    ensures InOrder(Enabled(fs, cfg))
  {
    if fs != [] {
      var tail := fs[1..];
      assert InOrder(tail) by {
        forall i, j | 0 <= i < j < |tail| ensures FormatIndex(tail[i]) < FormatIndex(tail[j]) {
          assert tail[i] == fs[i + 1] && tail[j] == fs[j + 1];
        }
      }
      EnabledIncreasing(tail, cfg);
      var rest := Enabled(tail, cfg);
      var r := Enabled(fs, cfg);
      if ReportFlag(cfg, fs[0]) == Some(true) {
        assert r == [fs[0]] + rest;
        forall i, j | 0 <= i < j < |r| ensures FormatIndex(r[i]) < FormatIndex(r[j]) {
          assert r[j] == rest[j - 1] && r[j] in rest && r[j] in tail;
          if i == 0 {
            var k :| 0 <= k < |tail| && tail[k] == r[j];
            assert tail[k] == fs[k + 1];
          } else {
            assert r[i] == rest[i - 1];
          }
        }
      } else {
        assert r == rest;
        assert InOrder(rest);
      }
    }
  }

  /** A path is written iff its format's flag is true; it is the base followed by that
      format's extension. */
  lemma ReportPathsMembership(cfg: TaskConfig, base: string, p: string)
    ensures p in ReportPaths(cfg, base) <==>
      exists f :: ReportFlag(cfg, f) == Some(true) && p == base + FileExtension(f)
  {
    ReportOrderComplete();
    var fs := Enabled(ReportOrder, cfg);
    var paths := ReportPaths(cfg, base);
    if p in paths {
      var i :| 0 <= i < |paths| && paths[i] == p;
      assert fs[i] in fs;
    }
    if f :| ReportFlag(cfg, f) == Some(true) && p == base + FileExtension(f) {
      assert f in fs;
      var i :| 0 <= i < |fs| && fs[i] == f;
      assert paths[i] == p;
    }
  }

  /** The reports follow the order html, json, txt, md, adoc, and no path occurs twice. */
  lemma ReportPathsOrdered(cfg: TaskConfig, base: string)
    ensures var fs := Enabled(ReportOrder, cfg);
      var paths := ReportPaths(cfg, base);
      |paths| == |fs|
      && (forall i :: 0 <= i < |fs| ==> paths[i] == base + FileExtension(fs[i]))
      && InOrder(fs)
      && (forall i, j :: 0 <= i < j < |paths| ==> paths[i] != paths[j])
  {
    ReportOrderComplete();
    EnabledIncreasing(ReportOrder, cfg);
    var fs := Enabled(ReportOrder, cfg);
    var paths := ReportPaths(cfg, base);
    forall i, j | 0 <= i < j < |paths| ensures paths[i] != paths[j] {
      assert FormatIndex(fs[i]) < FormatIndex(fs[j]);
      assert paths[i] == base + FileExtension(fs[i]) && paths[j] == base + FileExtension(fs[j]);
      AppendCancel(base, FileExtension(fs[i]), FileExtension(fs[j]));
      FileExtensionInjective(fs[i], fs[j]);
    }
  }

  /** The enabled paths of a non-empty sequence of formats: the first format's path when its
      flag is true, then those of the rest. */
  lemma EnabledPathsStep(fs: seq<Format>, cfg: TaskConfig, base: string)
    requires fs != []
    ensures PathsOf(base, Enabled(fs, cfg))
         == (if ReportFlag(cfg, fs[0]) == Some(true) then [base + FileExtension(fs[0])] else [])
            + PathsOf(base, Enabled(fs[1..], cfg))
  {
    var rest := Enabled(fs[1..], cfg);
    if ReportFlag(cfg, fs[0]) == Some(true) {
      assert Enabled(fs, cfg) == [fs[0]] + rest;
      assert ([fs[0]] + rest)[1..] == rest;
    } else {
      assert Enabled(fs, cfg) == rest;
    }
  }

  /** The report blocks write a prefix of the enabled paths, in order, each with the one
      result, and only paths that can be written. */
  lemma {:induction false} RenderAllWrites(fs: seq<Format>, cfg: TaskConfig, base: string, result: DiffResult,
                                           canWrite: string -> bool)
    ensures var r := RenderAll(fs, cfg, base, result, canWrite);
      var paths := PathsOf(base, Enabled(fs, cfg));
      |r.writes| <= |paths|
      && (forall i :: 0 <= i < |r.writes| ==> r.writes[i] == Wrote(paths[i], result) && canWrite(paths[i]))
  {
    if fs != [] {
      var f, tail := fs[0], fs[1..];
      RenderAllWrites(tail, cfg, base, result, canWrite);
      EnabledPathsStep(fs, cfg, base);
      var rest := RenderAll(tail, cfg, base, result, canWrite);
      var r := RenderAll(fs, cfg, base, result, canWrite);
      var restPaths := PathsOf(base, Enabled(tail, cfg));
      var paths := PathsOf(base, Enabled(fs, cfg));
      if ReportFlag(cfg, f).None? {
        assert r.writes == [];
      } else if ReportFlag(cfg, f) == Some(false) {
        assert paths == restPaths && r == rest;
      } else {
        var path := base + FileExtension(f);
        assert paths == [path] + restPaths;
        if canWrite(path) {
          assert r == Rendered([Wrote(path, result)] + rest.writes, rest.error);
          forall i | 0 < i < |r.writes| ensures r.writes[i] == Wrote(paths[i], result) && canWrite(paths[i]) {
            assert r.writes[i] == rest.writes[i - 1] && paths[i] == restPaths[i - 1];
          }
        } else {
          assert r == Rendered([], Some(RenderFailed(path)));
        }
      }
    }
  }

  /** The report blocks write every enabled path when no exception stops them. */
  lemma {:induction false} RenderAllComplete(fs: seq<Format>, cfg: TaskConfig, base: string, result: DiffResult,
                                             canWrite: string -> bool)
    ensures var r := RenderAll(fs, cfg, base, result, canWrite);
      r.error.None? ==> |r.writes| == |PathsOf(base, Enabled(fs, cfg))|
  {
    if fs != [] {
      var f, tail := fs[0], fs[1..];
      RenderAllComplete(tail, cfg, base, result, canWrite);
      EnabledPathsStep(fs, cfg, base);
      var rest := RenderAll(tail, cfg, base, result, canWrite);
      var r := RenderAll(fs, cfg, base, result, canWrite);
      if ReportFlag(cfg, f) == Some(false) {
        assert r == rest;
      } else if ReportFlag(cfg, f) == Some(true) && canWrite(base + FileExtension(f)) {
        assert r == Rendered([Wrote(base + FileExtension(f), result)] + rest.writes, rest.error);
      }
    }
  }

  /** A render failure names the first enabled path that was not written, and that path
      could not be written. */
  lemma {:induction false} RenderAllFailsAt(fs: seq<Format>, cfg: TaskConfig, base: string, result: DiffResult,
                                            canWrite: string -> bool)
    ensures var r := RenderAll(fs, cfg, base, result, canWrite);
      var paths := PathsOf(base, Enabled(fs, cfg));
      r.error.Some? && r.error.value.RenderFailed? ==>
        |r.writes| < |paths| && r.error.value.path == paths[|r.writes|] && !canWrite(paths[|r.writes|])
  {
    if fs != [] {
      var f, tail := fs[0], fs[1..];
      RenderAllFailsAt(tail, cfg, base, result, canWrite);
      EnabledPathsStep(fs, cfg, base);
      var rest := RenderAll(tail, cfg, base, result, canWrite);
      var r := RenderAll(fs, cfg, base, result, canWrite);
      var restPaths := PathsOf(base, Enabled(tail, cfg));
      var paths := PathsOf(base, Enabled(fs, cfg));
      if ReportFlag(cfg, f) == Some(false) {
        assert paths == restPaths && r == rest;
      } else if ReportFlag(cfg, f) == Some(true) {
        var path := base + FileExtension(f);
        assert paths == [path] + restPaths;
        if canWrite(path) {
          assert r == Rendered([Wrote(path, result)] + rest.writes, rest.error);
          if r.error.Some? && r.error.value.RenderFailed? {
            assert paths[|r.writes|] == restPaths[|rest.writes|];
          }
        } else {
          assert r == Rendered([], Some(RenderFailed(path)));
        }
      }
    }
  }

  /** The report blocks end without an exception iff every flag has a value and every
      enabled path can be written. */
  lemma {:induction false} RenderAllSucceeds(fs: seq<Format>, cfg: TaskConfig, base: string, result: DiffResult,
                                             canWrite: string -> bool)
    ensures var r := RenderAll(fs, cfg, base, result, canWrite);
      r.error.None? <==>
        (forall f :: f in fs ==> ReportFlag(cfg, f).Some?)
        && (forall p :: p in PathsOf(base, Enabled(fs, cfg)) ==> canWrite(p))
  {
    if fs != [] {
      var f, tail := fs[0], fs[1..];
      RenderAllSucceeds(tail, cfg, base, result, canWrite);
      EnabledPathsStep(fs, cfg, base);
      var restPaths := PathsOf(base, Enabled(tail, cfg));
      var paths := PathsOf(base, Enabled(fs, cfg));
      assert forall g :: g in fs <==> g == f || g in tail by {
        assert fs == [f] + tail;
      }
      if ReportFlag(cfg, f) == Some(false) {
        assert paths == restPaths;
      } else if ReportFlag(cfg, f) == Some(true) {
        var path := base + FileExtension(f);
        assert paths == [path] + restPaths;
        assert forall p :: p in paths <==> p == path || p in restPaths;
      }
    }
  }

  /** An exception of the report blocks that is not a render failure is a flag without a value. */
  lemma {:induction false} RenderAllMissingFlag(fs: seq<Format>, cfg: TaskConfig, base: string, result: DiffResult,
                                                canWrite: string -> bool)
    ensures var r := RenderAll(fs, cfg, base, result, canWrite);
      r.error.Some? && !r.error.value.RenderFailed? ==>
        exists f :: f in fs && ReportFlag(cfg, f).None? && r.error.value == MissingValue(FlagName(f))
  {
    if fs != [] {
      RenderAllMissingFlag(fs[1..], cfg, base, result, canWrite);
      assert forall g :: g in fs[1..] ==> g in fs;
    }
  }

  /** The comparison happens once, as the first event, and only when both locations have a
      value; the directory made is the build directory, and every report written carries
      the comparison's result. A failed comparison ends the action with nothing written. */
  lemma RunComparesOnceFirst(cfg: TaskConfig, separator: string,
                             compare: (string, string) -> Result<DiffResult, string>, canWrite: string -> bool)
    ensures var t := Run(cfg, separator, compare, canWrite);
      (cfg.originalFile.None? ==> t == Trace([], Fail(MissingValue("originalFile"))))
      && (cfg.originalFile.Some? && cfg.newFile.None? ==> t == Trace([], Fail(MissingValue("newFile"))))
      && (cfg.originalFile.Some? && cfg.newFile.Some? ==>
            var c := compare(cfg.originalFile.value, cfg.newFile.value);
            |t.events| >= 1 && t.events[0] == Compared(cfg.originalFile.value, cfg.newFile.value)
            && (forall i :: 1 <= i < |t.events| ==> !t.events[i].Compared?)
            && (c.Failure? ==> t == Trace([t.events[0]], Fail(ComparisonFailed(c.error))))
            && (c.Success? ==>
                  |t.events| >= 2 && t.events[1] == MadeDirs(cfg.buildDirectory)
                  && forall i :: 2 <= i < |t.events| ==> t.events[i] == Wrote(t.events[i].path, c.value)))
  {
    if cfg.originalFile.Some? && cfg.newFile.Some? {
      var t := Run(cfg, separator, compare, canWrite);
      var original, revised := cfg.originalFile.value, cfg.newFile.value;
      var c := compare(original, revised);
      if c.Success? {
        var base := ReportBase(cfg.reportName, cfg.buildDirectory, separator);
        var rendered := RenderAll(ReportOrder, cfg, base, c.value, canWrite);
        RenderAllWrites(ReportOrder, cfg, base, c.value, canWrite);
        assert t.events == [Compared(original, revised), MadeDirs(cfg.buildDirectory)] + rendered.writes;
        forall i | 2 <= i < |t.events|
          ensures t.events[i] == Wrote(t.events[i].path, c.value)
        {
          assert t.events[i] == rendered.writes[i - 2];
        }
      }
    }
  }

  /** After a successful comparison the reports written are a prefix of the enabled report
      paths, in their order; a failure of a gate comes only after all of them are written,
      and a render failure names the next enabled path, which could not be written. */
  lemma RunWritesReports(cfg: TaskConfig, separator: string,
                         compare: (string, string) -> Result<DiffResult, string>, canWrite: string -> bool)
    requires cfg.originalFile.Some? && cfg.newFile.Some?
    requires compare(cfg.originalFile.value, cfg.newFile.value).Success?
    ensures var t := Run(cfg, separator, compare, canWrite);
      var result := compare(cfg.originalFile.value, cfg.newFile.value).value;
      var paths := ReportPaths(cfg, ReportBase(cfg.reportName, cfg.buildDirectory, separator));
      2 <= |t.events| <= 2 + |paths|
      && (forall i :: 0 <= i < |t.events| - 2 ==> t.events[2 + i] == Wrote(paths[i], result) && canWrite(paths[i]))
      && (t.outcome.Pass? || t.outcome.error.GateFailed? ==> |t.events| == 2 + |paths|)
      && (t.outcome.Fail? && t.outcome.error.RenderFailed? ==>
            |t.events| < 2 + |paths| && t.outcome.error.path == paths[|t.events| - 2]
            && !canWrite(t.outcome.error.path))
  {
    var original, revised := cfg.originalFile.value, cfg.newFile.value;
    var result := compare(original, revised).value;
    var base := ReportBase(cfg.reportName, cfg.buildDirectory, separator);
    var rendered := RenderAll(ReportOrder, cfg, base, result, canWrite);
    var paths := ReportPaths(cfg, base);
    var t := Run(cfg, separator, compare, canWrite);
    RunAfterComparison(cfg, separator, compare, canWrite);
    assert t.events == [Compared(original, revised), MadeDirs(cfg.buildDirectory)] + rendered.writes;
    assert rendered.error.Some? ==> t.outcome == Fail(rendered.error.value);
    RenderAllWrites(ReportOrder, cfg, base, result, canWrite);
    RenderAllComplete(ReportOrder, cfg, base, result, canWrite);
    RenderAllFailsAt(ReportOrder, cfg, base, result, canWrite);
    RenderAllMissingFlag(ReportOrder, cfg, base, result, canWrite);
    forall i | 0 <= i < |t.events| - 2 ensures t.events[2 + i] == Wrote(paths[i], result) && canWrite(paths[i]) {
      assert t.events[2 + i] == rendered.writes[i];
    }
  }

  /** The action ends normally iff both locations have a value, the comparison succeeds,
      every report flag has a value, every enabled report can be written and the gates pass;
      it then has written exactly the enabled reports. */
  lemma RunPasses(cfg: TaskConfig, separator: string,
                  compare: (string, string) -> Result<DiffResult, string>, canWrite: string -> bool)
    ensures var t := Run(cfg, separator, compare, canWrite);
      t.outcome == Pass <==>
        cfg.originalFile.Some? && cfg.newFile.Some?
        && var c := compare(cfg.originalFile.value, cfg.newFile.value);
        var paths := ReportPaths(cfg, ReportBase(cfg.reportName, cfg.buildDirectory, separator));
        c.Success?
        && (forall f :: ReportFlag(cfg, f).Some?)
        && (forall p :: p in paths ==> canWrite(p))
        && Gates(cfg.failOnChange, cfg.failOnIncompatible, c.value) == Pass
  {
    ReportOrderComplete();
    if cfg.originalFile.Some? && cfg.newFile.Some? {
      var c := compare(cfg.originalFile.value, cfg.newFile.value);
      if c.Success? {
        var base := ReportBase(cfg.reportName, cfg.buildDirectory, separator);
        RenderAllSucceeds(ReportOrder, cfg, base, c.value, canWrite);
      }
    }
  }

  /** The action ends with a gate's failure iff it got through every report and that gate is
      the first whose condition holds: reports are written before any gate is checked. */
  lemma RunGateFailure(cfg: TaskConfig, separator: string,
                       compare: (string, string) -> Result<DiffResult, string>, canWrite: string -> bool, g: Gate)
    ensures var t := Run(cfg, separator, compare, canWrite);
      t.outcome == Fail(GateFailed(g)) <==>
        cfg.originalFile.Some? && cfg.newFile.Some?
        && var c := compare(cfg.originalFile.value, cfg.newFile.value);
        var paths := ReportPaths(cfg, ReportBase(cfg.reportName, cfg.buildDirectory, separator));
        c.Success?
        && (forall f :: ReportFlag(cfg, f).Some?)
        && (forall p :: p in paths ==> canWrite(p))
        && Gates(cfg.failOnChange, cfg.failOnIncompatible, c.value) == Fail(GateFailed(g))
  {
    ReportOrderComplete();
    if cfg.originalFile.Some? && cfg.newFile.Some? {
      var c := compare(cfg.originalFile.value, cfg.newFile.value);
      if c.Success? {
        var base := ReportBase(cfg.reportName, cfg.buildDirectory, separator);
        RenderAllSucceeds(ReportOrder, cfg, base, c.value, canWrite);
        RenderAllMissingFlag(ReportOrder, cfg, base, c.value, canWrite);
      }
    }
  }

  /** With no flag set to true, no format is enabled. */
  lemma {:induction false} NothingEnabled(fs: seq<Format>, cfg: TaskConfig)
    requires forall f :: ReportFlag(cfg, f) != Some(true)
    ensures Enabled(fs, cfg) == []
  {
    if fs != [] {
      NothingEnabled(fs[1..], cfg);
    }
  }

  /** A task left with the `init` defaults, given two locations that compare, makes the
      build directory, writes no report and passes, whatever the comparison finds. */
  lemma {:induction false} RunDefaults(projectBuildDirectory: string, original: string, revised: string,
                                       separator: string, compare: (string, string) -> Result<DiffResult, string>,
                                       canWrite: string -> bool)
    requires compare(original, revised).Success?
    ensures Run(DefaultConfig(projectBuildDirectory).(originalFile := Some(original), newFile := Some(revised)),
                separator, compare, canWrite)
         == Trace([Compared(original, revised), MadeDirs(projectBuildDirectory)], Pass)
  {
    var cfg := DefaultConfig(projectBuildDirectory).(originalFile := Some(original), newFile := Some(revised));
    var base := ReportBase(cfg.reportName, cfg.buildDirectory, separator);
    var result := compare(original, revised).value;
    NothingEnabled(ReportOrder, cfg);
    RenderAllSucceeds(ReportOrder, cfg, base, result, canWrite);
    RenderAllComplete(ReportOrder, cfg, base, result, canWrite);
    RenderAllFailsAt(ReportOrder, cfg, base, result, canWrite);
  }
}
