/** The plugin's registration of the `openapi_diff` task: the values of the `openapi_diff`
    extension are copied onto the task, and a report name is supplied when none is given. */
module DiffPlugin {
  import opened Wrappers
  import opened DiffTask
  import KotlinText

  /** The values of the `openapi_diff` extension (`None`: not set by the build script). */
  datatype DiffExtension = DiffExtension(
    failOnChange: Option<bool>,
    failOnIncompatible: Option<bool>,
    htmlReport: Option<bool>,
    jsonReport: Option<bool>,
    textReport: Option<bool>,
    markdownReport: Option<bool>,
    asciidocReport: Option<bool>,
    reportName: Option<string>,
    originalFile: Option<string>,
    newFile: Option<string>)

  /** The report name the plugin gives a task when the extension has none. */
  function DefaultReportPath(projectBuildDirectory: string, separator: string): string
  {
    projectBuildDirectory + separator + DefaultReportName
  }

  /** The task's property values after registration: each extension value copied as it is
      (an unset value leaves the property without one, replacing the `init` default), and
      always a report name. */
  function Registered(ext: DiffExtension, projectBuildDirectory: string, separator: string): (cfg: TaskConfig)
    ensures cfg.failOnChange == ext.failOnChange && cfg.failOnIncompatible == ext.failOnIncompatible
    ensures forall f :: ReportFlag(cfg, f) == ExtensionFlag(ext, f)
    ensures cfg.originalFile == ext.originalFile && cfg.newFile == ext.newFile
    ensures cfg.buildDirectory == projectBuildDirectory
    ensures cfg.reportName.Some?
    ensures ext.reportName.Some? ==> cfg.reportName == ext.reportName
    ensures ext.reportName.None? ==> cfg.reportName == Some(DefaultReportPath(projectBuildDirectory, separator))
  {
    var copied := TaskConfig(ext.failOnChange, ext.failOnIncompatible, ext.htmlReport, ext.jsonReport,
                             ext.textReport, ext.markdownReport, ext.asciidocReport, ext.reportName,
                             projectBuildDirectory, ext.originalFile, ext.newFile);
    if ext.reportName.None? then copied.(reportName := Some(DefaultReportPath(projectBuildDirectory, separator)))
    else copied
  }

  function ExtensionFlag(ext: DiffExtension, f: Format): Option<bool>
  {
    match f
    case Html => ext.htmlReport
    case Json => ext.jsonReport
    case Text => ext.textReport
    case Markdown => ext.markdownReport
    case Asciidoc => ext.asciidocReport
  }

  /** `apply`: create the task (its `init` runs first), then set its properties one by one. */
  method Apply(ext: DiffExtension, projectBuildDirectory: string, separator: string)
    returns (task: OpenapiDiffPluginTask)
    ensures fresh(task)
    ensures task.Config() == Registered(ext, projectBuildDirectory, separator)
  {
    task := new OpenapiDiffPluginTask(projectBuildDirectory);
    task.failOnChange := ext.failOnChange;
    task.failOnIncompatible := ext.failOnIncompatible;
    task.htmlReport := ext.htmlReport;
    task.jsonReport := ext.jsonReport;
    task.textReport := ext.textReport;
    task.markdownReport := ext.markdownReport;
    task.asciidocReport := ext.asciidocReport;
    task.reportName := ext.reportName;
    task.originalFile := ext.originalFile;
    task.newFile := ext.newFile;
    task.buildDirectory := projectBuildDirectory;
    if ext.reportName.None? {
      task.reportName := Some(DefaultReportPath(projectBuildDirectory, separator));
    }
  }

  /** Through the plugin the task never takes its own fallback: the base of a registered task
      is always its report name cut at the first `.`. The default name is cut too: when the
      build directory and separator hold no `.`, the base is the whole default path; when the
      build directory holds one, the base is the build directory cut at its first `.`. */
  lemma RegisteredBase(ext: DiffExtension, projectBuildDirectory: string, separator: string)
    ensures var cfg := Registered(ext, projectBuildDirectory, separator);
      var base := ReportBase(cfg.reportName, cfg.buildDirectory, separator);
      base == KotlinText.BeforeFirst(cfg.reportName.value, '.')
      && (ext.reportName.None? && '.' !in projectBuildDirectory + separator ==>
            base == DefaultReportPath(projectBuildDirectory, separator))
      && (ext.reportName.None? && '.' in projectBuildDirectory ==>
            base == KotlinText.BeforeFirst(projectBuildDirectory, '.'))
  {
    assert '.' !in DefaultReportName;
    CutDefaultPath(projectBuildDirectory, separator, DefaultReportName);
  }

  /** Where the first `.` of `directory + separator + name` is, for a `name` without one. */
  lemma CutDefaultPath(directory: string, separator: string, name: string)
    requires '.' !in name
    ensures '.' !in directory + separator ==>
      KotlinText.BeforeFirst(directory + separator + name, '.') == directory + separator + name
    ensures '.' in directory ==>
      KotlinText.BeforeFirst(directory + separator + name, '.') == KotlinText.BeforeFirst(directory, '.')
  {
    KotlinText.BeforeFirstAppend(directory + separator, name, '.');
    KotlinText.NoDelimiterOnePart(name, '.');
    KotlinText.BeforeFirstAppend(directory, separator + name, '.');
    assert directory + separator + name == directory + (separator + name);
  }

  /** A build directory with a `.` in one of its segments, such as `/a/my.proj/build`: the
      default base of a registered task is the part before that `.` (`/a/my`), outside the
      build directory, while a task without a report name would use the whole default path. */
  lemma DottedBuildDirectory(ext: DiffExtension, head: string, tail: string, separator: string)
    requires ext.reportName.None?
    requires '.' !in head && |tail| > 0 && tail[0] == '.'
    ensures var cfg := Registered(ext, head + tail, separator);
      ReportBase(cfg.reportName, cfg.buildDirectory, separator) == head
      && ReportBase(None, head + tail, separator) == DefaultReportPath(head + tail, separator)
  {
    assert (head + tail)[|head|] == '.';
    RegisteredBase(ext, head + tail, separator);
    CutDirectory(head, tail);
  }

  lemma CutDirectory(head: string, tail: string)
    requires '.' !in head && |tail| > 0 && tail[0] == '.'
    ensures KotlinText.BeforeFirst(head + tail, '.') == head
  {
    KotlinText.BeforeFirstAppend(head, tail, '.');
    KotlinText.NoDelimiterOnePart(head, '.');
    KotlinText.BeforeFirstIsPrefix(tail, '.');
  }
}
