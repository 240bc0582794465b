/** The task action of the Gradle plugin: compare two OpenAPI documents once, write the
    enabled reports next to one base name, then apply the two fail-gates. */
module DiffTask {
  import opened Wrappers
  import KotlinText

  /** What the comparison library returns, as far as the task and the renderers see it:
      the two summary flags and the differences, which the task never inspects. */
  datatype DiffResult = DiffResult(isUnchanged: bool, isCompatible: bool, differences: seq<string>)

  /** The five report formats, each with its own renderer and file extension. */
  datatype Format = Html | Json | Text | Markdown | Asciidoc

  /** The order in which the task action tries the formats. */
  const ReportOrder: seq<Format> := [Html, Json, Text, Markdown, Asciidoc]

  const DefaultReportName: string := "Openapi_Diff_Report"

  function FileExtension(f: Format): string
  {
    match f
    case Html => ".html"
    case Json => ".json"
    case Text => ".txt"
    case Markdown => ".md"
    case Asciidoc => ".adoc"
  }

  /** The name of the task property that enables a format. */
  function FlagName(f: Format): string
  {
    match f
    case Html => "htmlReport"
    case Json => "jsonReport"
    case Text => "textReport"
    case Markdown => "markdownReport"
    case Asciidoc => "asciidocReport"
  }

  /** The position of a format in the order the task action tries them. */
  function FormatIndex(f: Format): (k: nat)
    ensures k < |ReportOrder| && ReportOrder[k] == f
  {
    match f
    case Html => 0
    case Json => 1
    case Text => 2
    case Markdown => 3
    case Asciidoc => 4
  }

  /** The two fail-gates, in the order the task action checks them. */
  datatype Gate = ChangeGate | IncompatibilityGate

  const GateOrder: seq<Gate> := [ChangeGate, IncompatibilityGate]

  /** The message of the build failure each gate throws. */
  function GateMessage(g: Gate): string
  {
    match g
    case ChangeGate =>
      "The specifications do not match and the build settings state to fail if any change is detected."
    case IncompatibilityGate =>
      "The specifications do not match and the build settings specify to fail if changes break compatibility."
  }

  /** Why a task action stops with an exception. */
  datatype TaskError =
    | MissingValue(property: string)   // `get()` on a property that has no value
    | ComparisonFailed(reason: string) // the comparison library threw
    | RenderFailed(path: string)       // opening or rendering the report file threw
    | GateFailed(gate: Gate)           // a fail-gate threw its build failure

  /** The side effects of a task action, in the order they happen. */
  datatype Event =
    | Compared(original: string, revised: string)
    | MadeDirs(directory: string)
    | Wrote(path: string, result: DiffResult)

  /** The task's property values when the action starts (`None`: the property has no value). */
  datatype TaskConfig = TaskConfig(
    failOnChange: Option<bool>,
    failOnIncompatible: Option<bool>,
    htmlReport: Option<bool>,
    jsonReport: Option<bool>,
    textReport: Option<bool>,
    markdownReport: Option<bool>,
    asciidocReport: Option<bool>,
    reportName: Option<string>,
    buildDirectory: string,
    originalFile: Option<string>,
    newFile: Option<string>)

  /** The property values the task's `init` block leaves: every flag false, no report name,
      no document locations, and the project's build directory. */
  function DefaultConfig(projectBuildDirectory: string): TaskConfig
  {
    TaskConfig(Some(false), Some(false), Some(false), Some(false), Some(false), Some(false), Some(false),
               None, projectBuildDirectory, None, None)
  }

  function ReportFlag(cfg: TaskConfig, f: Format): Option<bool>
  {
    match f
    case Html => cfg.htmlReport
    case Json => cfg.jsonReport
    case Text => cfg.textReport
    case Markdown => cfg.markdownReport
    case Asciidoc => cfg.asciidocReport
  }

  /** The base every report path is built from. A given report name is cut at its first
      `.`, as `split(".")[0]` does; without one, the default name in the build directory. */
  function ReportBase(reportName: Option<string>, buildDirectory: string, separator: string): (base: string)
    ensures reportName.Some? ==>
      var n := reportName.value;
      |base| <= |n| && base == n[..|base|] && '.' !in base && (base == n || n[|base|] == '.')
    ensures reportName.None? ==> base == buildDirectory + separator + DefaultReportName
  {
    match reportName
    case Some(n) =>
      KotlinText.BeforeFirstIsPrefix(n, '.');
      KotlinText.Split(n, '.')[0]
    case None => buildDirectory + separator + DefaultReportName
  }

  /** The formats of `fs` whose flag is set to true, in the order of `fs`. */
  function Enabled(fs: seq<Format>, cfg: TaskConfig): (r: seq<Format>)
    ensures |r| <= |fs|
    ensures forall f {:trigger f in r} :: f in r <==> f in fs && ReportFlag(cfg, f) == Some(true)
  {
    if fs == [] then []
    else (if ReportFlag(cfg, fs[0]) == Some(true) then [fs[0]] else []) + Enabled(fs[1..], cfg)
  }

  /** The report path of each format of `fs`: the base followed by the format's extension. */
  function PathsOf(base: string, fs: seq<Format>): (paths: seq<string>)
    ensures |paths| == |fs|
    ensures forall i {:trigger paths[i]} :: 0 <= i < |fs| ==> paths[i] == base + FileExtension(fs[i])
  {
    if fs == [] then [] else [base + FileExtension(fs[0])] + PathsOf(base, fs[1..])
  }

  /** The report files the task writes when nothing goes wrong, in the order it writes them. */
  function ReportPaths(cfg: TaskConfig, base: string): seq<string>
  {
    PathsOf(base, Enabled(ReportOrder, cfg))
  }

  /** What the reports written so far are, and the exception that stopped the writing, if any. */
  datatype Rendered = Rendered(writes: seq<Event>, error: Option<TaskError>)

  /** One guarded report block: read the flag, and when it is true open `base` plus the
      format's extension and render the result into it. */
  function ReportStep(flag: Option<bool>, f: Format, base: string, result: DiffResult,
                      canWrite: string -> bool): Rendered
  {
    match flag
    case None => Rendered([], Some(MissingValue(FlagName(f))))
    case Some(enabled) =>
      if !enabled then Rendered([], None)
      else
        var path := base + FileExtension(f);
        if canWrite(path) then Rendered([Wrote(path, result)], None)
        else Rendered([], Some(RenderFailed(path)))
  }

  /** The report blocks for `fs`, one after the other; the first exception ends them. */
  function RenderAll(fs: seq<Format>, cfg: TaskConfig, base: string, result: DiffResult,
                     canWrite: string -> bool): Rendered
    decreases |fs|
  {
    if fs == [] then Rendered([], None)
    else
      var step := ReportStep(ReportFlag(cfg, fs[0]), fs[0], base, result, canWrite);
      if step.error.Some? then step
      else
        var rest := RenderAll(fs[1..], cfg, base, result, canWrite);
        Rendered(step.writes + rest.writes, rest.error)
  }

  /** Whether a gate's condition holds, independently of the other gate. */
  predicate Triggered(g: Gate, onChange: bool, onIncompatible: bool, result: DiffResult)
  {
    match g
    case ChangeGate => onChange && !result.isUnchanged
    case IncompatibilityGate => onIncompatible && !result.isCompatible
  }

  /** Every gate whose condition holds, in gate order. */
  function TriggeredGates(onChange: bool, onIncompatible: bool, result: DiffResult): (gs: seq<Gate>)
    ensures forall g :: g in gs <==> Triggered(g, onChange, onIncompatible, result)
  {
    (if Triggered(ChangeGate, onChange, onIncompatible, result) then [ChangeGate] else [])
    + (if Triggered(IncompatibilityGate, onChange, onIncompatible, result) then [IncompatibilityGate] else [])
  }

  /** The fail-gates as the task action evaluates them: each reads its flag (a flag without a
      value throws), and the first gate that fires throws, so the second is then not reached. */
  function Gates(failOnChange: Option<bool>, failOnIncompatible: Option<bool>, result: DiffResult): Outcome<TaskError>
  {
    match failOnChange
    case None => Fail(MissingValue("failOnChange"))
    case Some(onChange) =>
      if onChange && !result.isUnchanged then Fail(GateFailed(ChangeGate))
      else
        match failOnIncompatible
        case None => Fail(MissingValue("failOnIncompatible"))
        case Some(onIncompatible) =>
          if onIncompatible && !result.isCompatible then Fail(GateFailed(IncompatibilityGate))
          else Pass
  }

  /** The first gate whose condition holds fails the build; a flag without a value throws
      when its gate is reached. */
  lemma GatesInOrder(failOnChange: Option<bool>, failOnIncompatible: Option<bool>, result: DiffResult)
    ensures var r := Gates(failOnChange, failOnIncompatible, result);
      (r == Fail(GateFailed(ChangeGate)) <==> failOnChange == Some(true) && !result.isUnchanged)
      && (r == Fail(GateFailed(IncompatibilityGate)) <==>
            failOnChange.Some? && !(failOnChange.value && !result.isUnchanged)
            && failOnIncompatible == Some(true) && !result.isCompatible)
      && (failOnChange.Some? && failOnIncompatible.Some? ==>
            var gs := TriggeredGates(failOnChange.value, failOnIncompatible.value, result);
            (r == Pass <==> gs == []) && (gs != [] ==> r == Fail(GateFailed(gs[0]))))
      && (r.Fail? && r.error.MissingValue? ==>
            (failOnChange.None? && r.error.property == "failOnChange")
            || (failOnChange.Some? && failOnIncompatible.None? && r.error.property == "failOnIncompatible"))
      && (r.Pass? || r.error.GateFailed? || r.error.MissingValue?)
  {
  }

  /** The events and the end of one task action. */
  datatype Trace = Trace(events: seq<Event>, outcome: Outcome<TaskError>)

  /** The task action from its property values. `compare` stands for the comparison library,
      `canWrite` for whether a report file can be opened and written, `separator` for the
      platform's file separator. */
  function Run(cfg: TaskConfig, separator: string, compare: (string, string) -> Result<DiffResult, string>,
               canWrite: string -> bool): Trace
  {
    if cfg.originalFile.None? then Trace([], Fail(MissingValue("originalFile")))
    else if cfg.newFile.None? then Trace([], Fail(MissingValue("newFile")))
    else
      var original, revised := cfg.originalFile.value, cfg.newFile.value;
      match compare(original, revised)
      case Failure(reason) => Trace([Compared(original, revised)], Fail(ComparisonFailed(reason)))
      case Success(result) =>
        var base := ReportBase(cfg.reportName, cfg.buildDirectory, separator);
        Finish(cfg, [Compared(original, revised), MadeDirs(cfg.buildDirectory)],
               RenderAll(ReportOrder, cfg, base, result, canWrite), result)
  }

  /** The end of a task action whose comparison succeeded: the reports written after the
      events so far, then the exception that stopped the reports, or else the gates. */
  function Finish(cfg: TaskConfig, events: seq<Event>, rendered: Rendered, result: DiffResult): Trace
  {
    if rendered.error.Some? then Trace(events + rendered.writes, Fail(rendered.error.value))
    else Trace(events + rendered.writes, Gates(cfg.failOnChange, cfg.failOnIncompatible, result))
  }

  /** Once both locations are read and the comparison succeeds, what is left of the action. */
  lemma RunAfterComparison(cfg: TaskConfig, separator: string,
                           compare: (string, string) -> Result<DiffResult, string>, canWrite: string -> bool)
    requires cfg.originalFile.Some? && cfg.newFile.Some?
    requires compare(cfg.originalFile.value, cfg.newFile.value).Success?
    ensures var original, revised := cfg.originalFile.value, cfg.newFile.value;
      var result := compare(original, revised).value;
      var base := ReportBase(cfg.reportName, cfg.buildDirectory, separator);
      Run(cfg, separator, compare, canWrite)
      == Finish(cfg, [Compared(original, revised), MadeDirs(cfg.buildDirectory)],
                RenderAll(ReportOrder, cfg, base, result, canWrite), result)
  {
  }

  /** The reports `done` written before the blocks that produced `r`. */
  function Then(done: seq<Event>, r: Rendered): (t: Rendered)
    ensures t.error == r.error && |t.writes| == |done| + |r.writes|
    ensures t.writes[..|done|] == done && t.writes[|done|..] == r.writes
  {
    Rendered(done + r.writes, r.error)
  }

  /** Taking one report block off the front of the pending ones. */
  lemma RenderStep(done: seq<Event>, fs: seq<Format>, cfg: TaskConfig, base: string, result: DiffResult,
                   canWrite: string -> bool)
    requires fs != []
    ensures var step := ReportStep(ReportFlag(cfg, fs[0]), fs[0], base, result, canWrite);
      var now := Then(done, RenderAll(fs, cfg, base, result, canWrite));
      if step.error.Some? then now == Then(done, step)
      else now == Then(done + step.writes, RenderAll(fs[1..], cfg, base, result, canWrite))
  {
    var step := ReportStep(ReportFlag(cfg, fs[0]), fs[0], base, result, canWrite);
    var rest := RenderAll(fs[1..], cfg, base, result, canWrite);
    assert RenderAll(fs, cfg, base, result, canWrite)
        == if step.error.Some? then step else Rendered(step.writes + rest.writes, rest.error);
    if step.error.None? {
      assert done + (step.writes + rest.writes) == done + step.writes + rest.writes;
    }
  }

  /** One guarded report block of the task action. */
  method RenderReport(flag: Option<bool>, f: Format, base: string, result: DiffResult,
                      canWrite: string -> bool) returns (written: seq<Event>, error: Option<TaskError>)
    ensures Rendered(written, error) == ReportStep(flag, f, base, result, canWrite)
  {
    written, error := [], None;
    if flag.None? {
      error := Some(MissingValue(FlagName(f)));
      return;
    }
    if flag.value {
      var path := base + FileExtension(f);
      if !canWrite(path) {
        error := Some(RenderFailed(path));
        return;
      }
      written := [Wrote(path, result)];
    }
  }

  /** The two fail-gates at the end of the task action, checked in order; the first that fires
      throws its build failure. */
  method CheckGates(failOnChange: Option<bool>, failOnIncompatible: Option<bool>, result: DiffResult)
    returns (outcome: Outcome<TaskError>)
    ensures outcome == Gates(failOnChange, failOnIncompatible, result)
  {
    if failOnChange.None? {
      return Fail(MissingValue("failOnChange"));
    }
    if failOnChange.value && !result.isUnchanged {
      return Fail(GateFailed(ChangeGate));
    }
    if failOnIncompatible.None? {
      return Fail(MissingValue("failOnIncompatible"));
    }
    if failOnIncompatible.value && !result.isCompatible {
      return Fail(GateFailed(IncompatibilityGate));
    }
    outcome := Pass;
  }

  /** The Gradle task; its fields are its properties. */
  class OpenapiDiffPluginTask {
    var failOnChange: Option<bool>
    var failOnIncompatible: Option<bool>
    var htmlReport: Option<bool>
    var jsonReport: Option<bool>
    var textReport: Option<bool>
    var markdownReport: Option<bool>
    var asciidocReport: Option<bool>
    var reportName: Option<string>
    var buildDirectory: string
    var originalFile: Option<string>
    var newFile: Option<string>

    function Config(): TaskConfig
      reads this
    {
      TaskConfig(failOnChange, failOnIncompatible, htmlReport, jsonReport, textReport, markdownReport,
                 asciidocReport, reportName, buildDirectory, originalFile, newFile)
    }

    /** The `init` block: every flag false, the build directory the project's. */
    constructor (projectBuildDirectory: string)
      ensures Config() == DefaultConfig(projectBuildDirectory)
    {
      htmlReport := Some(false);
      jsonReport := Some(false);
      textReport := Some(false);
      markdownReport := Some(false);
      asciidocReport := Some(false);
      failOnIncompatible := Some(false);
      failOnChange := Some(false);
      reportName := None;
      buildDirectory := projectBuildDirectory;
      originalFile := None;
      newFile := None;
    }

    /** The five guarded report blocks of `doWork`, in order; the first exception ends them. */
    method WriteReports(base: string, result: DiffResult, canWrite: string -> bool)
      returns (written: seq<Event>, error: Option<TaskError>)
      ensures Rendered(written, error) == RenderAll(ReportOrder, Config(), base, result, canWrite)
    {
      // `goal` is what the blocks must produce; each block takes one format off `pending`
      ghost var cfg := Config();
      ghost var goal := RenderAll(ReportOrder, cfg, base, result, canWrite);
      ghost var pending := ReportOrder;
      written := [];
      assert goal == Then(written, RenderAll(pending, cfg, base, result, canWrite));

      // the HTML report
      var step, failure := RenderReport(htmlReport, Html, base, result, canWrite);
      assert failure.Some? ==> goal == Then(written, Rendered(step, failure)) by {
        assert pending == [Html, Json, Text, Markdown, Asciidoc] && ReportFlag(cfg, Html) == htmlReport;
        RenderStep(written, pending, cfg, base, result, canWrite);
      }
      assert failure.None? ==> goal == Then(written + step, RenderAll(pending[1..], cfg, base, result, canWrite)) by {
        assert pending == [Html, Json, Text, Markdown, Asciidoc] && ReportFlag(cfg, Html) == htmlReport;
        RenderStep(written, pending, cfg, base, result, canWrite);
      }
      if failure.Some? {
        return written + step, failure;
      }
      written, pending := written + step, pending[1..];

      // the JSON report
      step, failure := RenderReport(jsonReport, Json, base, result, canWrite);
      assert failure.Some? ==> goal == Then(written, Rendered(step, failure)) by {
        assert pending == [Json, Text, Markdown, Asciidoc] && ReportFlag(cfg, Json) == jsonReport;
        RenderStep(written, pending, cfg, base, result, canWrite);
      }
      assert failure.None? ==> goal == Then(written + step, RenderAll(pending[1..], cfg, base, result, canWrite)) by {
        assert pending == [Json, Text, Markdown, Asciidoc] && ReportFlag(cfg, Json) == jsonReport;
        RenderStep(written, pending, cfg, base, result, canWrite);
      }
      if failure.Some? {
        return written + step, failure;
      }
      written, pending := written + step, pending[1..];

      // the plain-text report (the console renderer)
      step, failure := RenderReport(textReport, Text, base, result, canWrite);
      assert failure.Some? ==> goal == Then(written, Rendered(step, failure)) by {
        assert pending == [Text, Markdown, Asciidoc] && ReportFlag(cfg, Text) == textReport;
        RenderStep(written, pending, cfg, base, result, canWrite);
      }
      assert failure.None? ==> goal == Then(written + step, RenderAll(pending[1..], cfg, base, result, canWrite)) by {
        assert pending == [Text, Markdown, Asciidoc] && ReportFlag(cfg, Text) == textReport;
        RenderStep(written, pending, cfg, base, result, canWrite);
      }
      if failure.Some? {
        return written + step, failure;
      }
      written, pending := written + step, pending[1..];

      // the Markdown report
      step, failure := RenderReport(markdownReport, Markdown, base, result, canWrite);
      assert failure.Some? ==> goal == Then(written, Rendered(step, failure)) by {
        assert pending == [Markdown, Asciidoc] && ReportFlag(cfg, Markdown) == markdownReport;
        RenderStep(written, pending, cfg, base, result, canWrite);
      }
      assert failure.None? ==> goal == Then(written + step, RenderAll(pending[1..], cfg, base, result, canWrite)) by {
        assert pending == [Markdown, Asciidoc] && ReportFlag(cfg, Markdown) == markdownReport;
        RenderStep(written, pending, cfg, base, result, canWrite);
      }
      if failure.Some? {
        return written + step, failure;
      }
      written, pending := written + step, pending[1..];

      // the AsciiDoc report
      step, failure := RenderReport(asciidocReport, Asciidoc, base, result, canWrite);
      assert failure.Some? ==> goal == Then(written, Rendered(step, failure)) by {
        assert pending == [Asciidoc] && ReportFlag(cfg, Asciidoc) == asciidocReport;
        RenderStep(written, pending, cfg, base, result, canWrite);
      }
      assert failure.None? ==> goal == Then(written + step, RenderAll(pending[1..], cfg, base, result, canWrite)) by {
        assert pending == [Asciidoc] && ReportFlag(cfg, Asciidoc) == asciidocReport;
        RenderStep(written, pending, cfg, base, result, canWrite);
      }
      if failure.Some? {
        return written + step, failure;
      }
      written, pending := written + step, pending[1..];

      assert pending == [] && goal == Then(written, Rendered([], None));
      error := None;
    }

    /** The task action `doWork`. */
    method DoWork(separator: string, compare: (string, string) -> Result<DiffResult, string>,
                  canWrite: string -> bool) returns (events: seq<Event>, outcome: Outcome<TaskError>)
      ensures Trace(events, outcome) == Run(Config(), separator, compare, canWrite)
    {
      if originalFile.None? {
        return [], Fail(MissingValue("originalFile"));
      }
      if newFile.None? {
        return [], Fail(MissingValue("newFile"));
      }
      var original, revised := originalFile.value, newFile.value;
      events := [Compared(original, revised)];
      var comparison := compare(original, revised);
      if comparison.Failure? {
        return events, Fail(ComparisonFailed(comparison.error));
      }
      var result := comparison.value;

      var base := ReportBase(reportName, buildDirectory, separator);
      events := events + [MadeDirs(buildDirectory)];
      var written, error := WriteReports(base, result, canWrite);
      RunAfterComparison(Config(), separator, compare, canWrite);
      events := events + written;
      if error.Some? {
        return events, Fail(error.value);
      }
      outcome := CheckGates(failOnChange, failOnIncompatible, result);
    }
  }
}
