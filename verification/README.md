# openapi-diff Gradle plugin: a Dafny model of the task action and its registration

The `openapi_diff` Gradle task compares two OpenAPI documents once. It writes the
comparison to up to five report files (HTML, JSON, plain text, Markdown, AsciiDoc), all
built from one base name. Then it fails the build when a configured fail-gate fires. The
plugin registers the task, copies the values of the `openapi_diff` extension onto it, and
gives it a default report name.

The model:

- `wrappers.dfy`: module `Wrappers`. `Option`, `Result`, and `Outcome` (an action that
  returns normally or throws).
- `kotlin_text.dfy`: module `KotlinText`. Kotlin's `split` for the one-character delimiter
  `.`, its inverse `Join`, and `BeforeFirst`, which is `split(".")[0]`.
- `task.dfy`: module `DiffTask`. The class `OpenapiDiffPluginTask`, whose fields are the
  task's properties.
  - Its constructor is the `init` block.
  - `DoWork` is the task action. It returns the events it caused and how it ended, and it
    is proved equal to the specification function `Run`.
  - `WriteReports` holds the five guarded report blocks of the action as straight-line
    code, and is proved equal to the specification function `RenderAll`.
  - `CheckGates` holds the two gates, and is proved equal to the function `Gates`.
  - `RenderAll`, `ReportPaths` and `Gates` are the parts `Run` is built from.
- `task_properties.dfy`: module `DiffTaskProperties`. What `Run` promises: the order of
  reports, the paths used, the result passed to each renderer, and which failure ends the
  action.
- `plugin.dfy`: module `DiffPlugin`. `Apply` is the registration lambda, proved equal to
  the function `Registered`. It also holds the lemmas about the report name the plugin
  supplies.

The model keeps these behaviours of the code:

- A property without a value is an `Option` that is `None`. The flags are tested with the
  non-short-circuit `isPresent and get()`, so reading an absent flag throws
  (`MissingValue`). The `init` block sets every flag to false. The plugin's `set(provider)`
  then replaces that value with the extension's value, which may be absent. So a flag can
  be absent only on a task registered through the plugin.
- Events are `Compared(original, new)`, then `MadeDirs(buildDirectory)`, then one
  `Wrote(path, result)` per report.
- Three things are parameters of the model:
  - the comparison library, as `compare`;
  - whether a report file can be opened and rendered, as `canWrite`;
  - the platform file separator, as `separator`.
- The code differs from a best-effort pipeline in three ways, and the model follows the
  code:
  - An exception while opening or rendering a report ends the action. Later reports are
    not attempted.
  - Only the first gate that fires is reported. When both gates' conditions hold, the
    change gate throws and the incompatibility gate is never reached.
  - The directory created is the build directory, not the directory of the report name.
    The result of `mkdirs` is ignored, so creating it never fails.

## Model

All paths are under `src/main/kotlin/com/x3t/gradle/plugins/openapi/`.

| member | source | states |
|---|---|---|
| KotlinText.Split | src/main/kotlin/com/x3t/gradle/plugins/openapi/OpenapiDiffPluginTask.kt:75 | `split(".")` always yields at least one part, so `[0]` exists (the whole string when it has no `.`) |
| KotlinText.JoinSplit | src/main/kotlin/com/x3t/gradle/plugins/openapi/OpenapiDiffPluginTask.kt:75 | joining the parts of a split with `.` gives back the string, and no part contains `.` |
| KotlinText.SplitJoin | src/main/kotlin/com/x3t/gradle/plugins/openapi/OpenapiDiffPluginTask.kt:75 | the converse round trip: parts without `.`, joined with `.`, split back into exactly those parts |
| KotlinText.NoDelimiterOnePart | src/main/kotlin/com/x3t/gradle/plugins/openapi/OpenapiDiffPluginTask.kt:75 | a name without `.` is split into itself alone |
| KotlinText.BeforeFirstIsPrefix | src/main/kotlin/com/x3t/gradle/plugins/openapi/OpenapiDiffPluginTask.kt:75 | `split(".")[0]` is the longest prefix without `.`: all of the name, or followed by a `.`; it is empty when the name starts with `.` |
| KotlinText.BeforeFirstAppend | src/main/kotlin/com/x3t/gradle/plugins/openapi/OpenapiDiffPluginTask.kt:75 | the cut of `a + b` is the cut of `a` when `a` has a `.`, otherwise `a` followed by the cut of `b` |
| DiffTask.FormatIndex | src/main/kotlin/com/x3t/gradle/plugins/openapi/OpenapiDiffPluginTask.kt:82-125 | each format has one position in the order html, json, txt, md, adoc |
| DiffTask.ReportBase | src/main/kotlin/com/x3t/gradle/plugins/openapi/OpenapiDiffPluginTask.kt:74-78 | with a report name, the base is the part of the name before its first `.`; without one, exactly `buildDirectory + separator + "Openapi_Diff_Report"`, with no cut applied |
| DiffTask.Enabled | src/main/kotlin/com/x3t/gradle/plugins/openapi/OpenapiDiffPluginTask.kt:82-125 | a format is chosen iff its flag has the value true |
| DiffTask.PathsOf | src/main/kotlin/com/x3t/gradle/plugins/openapi/OpenapiDiffPluginTask.kt:82-125 | each report path is the base followed by its format's extension (`%s.html` … `%s.adoc`) |
| DiffTask.RenderReport | src/main/kotlin/com/x3t/gradle/plugins/openapi/OpenapiDiffPluginTask.kt:82-89 | one report block: an absent flag throws, false writes nothing, and true writes `base + extension` once or throws naming that path |
| DiffTask.OpenapiDiffPluginTask.WriteReports | src/main/kotlin/com/x3t/gradle/plugins/openapi/OpenapiDiffPluginTask.kt:82-125 | the five report blocks, html to adoc, write exactly the reports `RenderAll` specifies for the task's flags, and stop at the first exception |
| DiffTask.TriggeredGates | src/main/kotlin/com/x3t/gradle/plugins/openapi/OpenapiDiffPluginTask.kt:127-133 | the gates whose conditions hold when both are evaluated independently: `failOnChange ∧ ¬isUnchanged`, `failOnIncompatible ∧ ¬isCompatible` |
| DiffTask.GatesInOrder | src/main/kotlin/com/x3t/gradle/plugins/openapi/OpenapiDiffPluginTask.kt:127-133 | the change gate throws iff `failOnChange` is true and the result changed; the incompatibility gate throws iff the change gate did not and `failOnIncompatible` is true and the result is incompatible; with both flags present, the outcome is the first triggered gate, or a pass when none is triggered |
| DiffTask.CheckGates | src/main/kotlin/com/x3t/gradle/plugins/openapi/OpenapiDiffPluginTask.kt:127-133 | the two gate `if`s, checked in order, end exactly as `Gates` says: an absent flag throws when its gate is reached, and the first gate that fires throws its build failure |
| DiffTask.OpenapiDiffPluginTask.constructor | src/main/kotlin/com/x3t/gradle/plugins/openapi/OpenapiDiffPluginTask.kt:136-148 | after `init`, all five report flags and both fail flags are false, and the build directory is the project's |
| DiffTask.OpenapiDiffPluginTask.DoWork | src/main/kotlin/com/x3t/gradle/plugins/openapi/OpenapiDiffPluginTask.kt:70-134 | the task action (both locations read, one comparison, the build directory made, then the report blocks and the gates) produces exactly the events and the ending of the specification `Run` |
| DiffTaskProperties.ReportOrderComplete | src/main/kotlin/com/x3t/gradle/plugins/openapi/OpenapiDiffPluginTask.kt:82-125 | every format has a block, and the blocks come in increasing format order |
| DiffTaskProperties.FileExtensionInjective | src/main/kotlin/com/x3t/gradle/plugins/openapi/OpenapiDiffPluginTask.kt:82-125 | no two formats share an extension |
| DiffTaskProperties.EnabledIncreasing | src/main/kotlin/com/x3t/gradle/plugins/openapi/OpenapiDiffPluginTask.kt:82-125 | choosing the enabled formats keeps them in block order |
| DiffTaskProperties.ReportPathsMembership | src/main/kotlin/com/x3t/gradle/plugins/openapi/OpenapiDiffPluginTask.kt:82-125 | a path is among the reports iff some format's flag is true and the path is the base followed by that format's extension |
| DiffTaskProperties.ReportPathsOrdered | src/main/kotlin/com/x3t/gradle/plugins/openapi/OpenapiDiffPluginTask.kt:82-125 | the report paths follow the order html, json, txt, md, adoc, and no path occurs twice |
| DiffTaskProperties.RenderAllWrites | src/main/kotlin/com/x3t/gradle/plugins/openapi/OpenapiDiffPluginTask.kt:82-125 | the files written are a prefix of the enabled paths, in order; every one receives the same comparison result and could be written |
| DiffTaskProperties.RenderAllComplete | src/main/kotlin/com/x3t/gradle/plugins/openapi/OpenapiDiffPluginTask.kt:82-125 | without an exception, every enabled path is written |
| DiffTaskProperties.RenderAllFailsAt | src/main/kotlin/com/x3t/gradle/plugins/openapi/OpenapiDiffPluginTask.kt:82-125 | a render exception names the first enabled path not written, that path could not be written, and later reports are not attempted |
| DiffTaskProperties.RenderAllSucceeds | src/main/kotlin/com/x3t/gradle/plugins/openapi/OpenapiDiffPluginTask.kt:82-125 | the report blocks finish without an exception iff every flag has a value and every enabled path can be written |
| DiffTaskProperties.RenderAllMissingFlag | src/main/kotlin/com/x3t/gradle/plugins/openapi/OpenapiDiffPluginTask.kt:82-125 | any other exception from the report blocks is the `get()` of a flag with no value |
| DiffTaskProperties.RunComparesOnceFirst | src/main/kotlin/com/x3t/gradle/plugins/openapi/OpenapiDiffPluginTask.kt:70-80 | the comparison runs once, as the first event, after both locations are read; a failed comparison ends the action with nothing else done; otherwise the build directory is made next, and every later event writes the one result |
| DiffTaskProperties.RunWritesReports | src/main/kotlin/com/x3t/gradle/plugins/openapi/OpenapiDiffPluginTask.kt:80-133 | after the comparison, the files written are a prefix of the enabled report paths; a pass or a gate failure comes only after all of them are written; a render failure names the next enabled path |
| DiffTaskProperties.RunPasses | src/main/kotlin/com/x3t/gradle/plugins/openapi/OpenapiDiffPluginTask.kt:70-134 | the action returns normally iff both locations are set, the comparison succeeds, all flags are present, every enabled report can be written, and the gates pass |
| DiffTaskProperties.RunGateFailure | src/main/kotlin/com/x3t/gradle/plugins/openapi/OpenapiDiffPluginTask.kt:82-133 | the action fails with a gate iff every report was written first and that gate is the one `Gates` throws, so a failing build still leaves its reports |
| DiffTaskProperties.NothingEnabled | src/main/kotlin/com/x3t/gradle/plugins/openapi/OpenapiDiffPluginTask.kt:137-141 | with no flag set to true, no format is enabled |
| DiffTaskProperties.RunDefaults | src/main/kotlin/com/x3t/gradle/plugins/openapi/OpenapiDiffPluginTask.kt:136-143 | with the `init` defaults and a successful comparison, the action writes no report and passes, whatever the comparison finds |
| DiffPlugin.Registered | src/main/kotlin/com/x3t/gradle/plugins/openapi/OpenapiDiffPlugin.kt:10-26 | every flag, both fail flags and both locations are copied unchanged from the extension; the build directory is the project's; the report name is always present: the extension's when it has one, otherwise `buildDir + separator + "Openapi_Diff_Report"` |
| DiffPlugin.Apply | src/main/kotlin/com/x3t/gradle/plugins/openapi/OpenapiDiffPlugin.kt:10-26 | the registration lambda, run on a freshly initialised task, leaves exactly the property values of `Registered` |
| DiffPlugin.RegisteredBase | src/main/kotlin/com/x3t/gradle/plugins/openapi/OpenapiDiffPlugin.kt:22-25 | on a registered task, the fallback branch at `OpenapiDiffPluginTask.kt:77` is never taken: the base is always the report name cut at its first `.`; the default name survives whole only when the build directory and separator have no `.`, and otherwise is cut inside the build directory |
| DiffPlugin.CutDefaultPath | src/main/kotlin/com/x3t/gradle/plugins/openapi/OpenapiDiffPlugin.kt:24 | where `directory + separator + name` is cut, for a name without `.` |
| DiffPlugin.DottedBuildDirectory | src/main/kotlin/com/x3t/gradle/plugins/openapi/OpenapiDiffPlugin.kt:22-25 | for a build directory like `/a/my.proj/build`, the plugin's default base is `/a/my`, while a task without a report name would use the whole default path |

## Left out

- The comparison library (`OpenApiCompare.fromLocations`) and document parsing are left out. `compare` is a parameter. Its result keeps only `isUnchanged`, `isCompatible` and an opaque list of differences. The `null` authorisation list passed to the library is not modelled.
- The renderer classes and the contents of each report are left out. A report is the event `Wrote(path, result)`. A failure to open or render the file is the single exception `RenderFailed(path)`.
- The writers are never flushed or closed, and a failed render leaves a partial file. Whether the text reaches the disk is not modelled.
- `mkdirs` is the event `MadeDirs(buildDirectory)`. Its boolean result is ignored by the code, so it never fails in the model.
- The Gradle machinery is left out:
  - lazy `Property` providers (the model reads the values when the action starts);
  - the `@Option` binding of `originalFile`/`newFile` on the command line;
  - `extensions.create`, `tasks.register` and `convention`;
  - the task description and group;
  - `logger.debug`.
- The extension class `OpenapiDiffPluginExtension` is not part of this model. Its values are optional inputs (`DiffExtension`). Any defaults it may set are not modelled.
- `File.separator` is the parameter `separator`. The plugin's `Directory.toString()` and the task's `asFile.toString()` are taken to give the same path string.
- KotlinText.Split: models Kotlin's `split` only for a one-character delimiter, which is the only delimiter the task uses (`"."`).
