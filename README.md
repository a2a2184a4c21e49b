# git-utils.gradle.kts in Dafny

A model of the workspace bootstrap script `git-utils.gradle.kts`. Gradle applies
this script before the settings are evaluated. For every module in its module
table, the script does one of two things:

- **Attach-only pass:** it attaches the module to the build at once.
- **Sync pass:** it clones or pulls the module's repository with git, echoing
  git's output through a progress-line formatter. If git exits with 0, it then
  attaches the module. Otherwise it prints the failure together with everything
  git wrote.

To attach a module, the script includes each configured sub-project and binds
it to its directory. It goes through the configurations in order and stops at
the first directory that holds no Gradle build script.

The model has one module per part of the script:

| module | file | what it covers |
|---|---|---|
| `Nullable` | `nullable.dfy` | `Option`, for Kotlin's nullable values |
| `Ansi` | `ansi.dfy` | `AnsiColor`, `colorize` and `println` text |
| `Console` | `console.dfy` | every console write as a value (`Write`) with the exact text it shows |
| `Command` | `command.dfy` | `repo_token`, `tokenAsParameter`, the `repository` template filled by `String.format`, `determineGitCommand`, and the credential carried by the clone URL |
| `Progress` | `progress.dfy` | `handleProgressUpdate` and `padEnd` |
| `Sync` | `sync.dfy` | the read loop of `cloneOrPullModule` (`ReadOutput`) and its exit-code classification (`Complete`) |
| `Attacher` | `attacher.dfy` | `hasBuildGradleKts` and the configuration walk of `attachModuleToProject` |
| `Orchestrator` | `orchestrator.dfy` | `isCIEnvironment`, the run-mode branch, and the class `Workspace` |

The class `Workspace` holds the state the script changes:

- the processes it launched;
- the console writes;
- the build-graph registrations, as an append-only log of `(":" + parentPath, modulePath)` pairs.

Its methods `AttachModuleToProject`, `CloneOrPullModule` and `FetchAllModules`
follow the Kotlin functions statement by statement. Each method is proved to
apply exactly the effect that a pure function describes, namely
`AttachModuleEffect`, `SyncModuleEffect` or `RunEffect`. Lemmas then state what
those effects mean.

The outside world is a parameter, the value `Environment`. It holds:

- the `repo_token` setting;
- the `idea.sync.active` property and the `CI` variable;
- the set of `./<module>` paths that exist (a directory or a file: `File.exists()` accepts both);
- the file tree under the root project, which `hasBuildGradleKts` inspects;
- git itself, as a function from a command line to the lines git prints and its exit code.

Three facts about the code are worth stating up front:

- **Run mode.** The condition at git-utils.gradle.kts:165 makes the attach-only
  pass when `idea.sync.active` is not `"true"` and `CI` is not true. So git
  runs exactly when `idea.sync.active` is `"true"` or `CI` is set to true
  (`SelectRunMode`).
- **Token in the log.** A clone command is echoed with the `repo_token` in
  clear, inside the clone URL (`CloneAnnouncementShowsToken`). The pull command
  carries no token.
- **Repeated logical paths.** Nothing stops a logical path from being
  registered twice (`RepeatedLogicalPath`).

## Model

| member | source | states |
|---|---|---|
| `Ansi.AnsiColor.Code` | git-utils.gradle.kts:28-36 | every colour code is an escape sequence: ESC, `[`, parameters without an `m`, and a final `m` |
| `Ansi.Colorize` | git-utils.gradle.kts:197 | the coloured text is the colour code, then the text unchanged, then the reset code |
| `Ansi.UncolorizeColorize` | git-utils.gradle.kts:197 | for every text and colour, stripping the colour code and the reset code from the coloured text gives back the text |
| `Console.LastSegmentIsSuffix` | git-utils.gradle.kts:146 | the module name shown on attachment (`split("/").last()`) is the slash-free tail of the path, preceded by `/` unless it is the whole path |
| `Command.ReadToken` | git-utils.gradle.kts:54 | a missing or non-string `repo_token` reads as the empty token, and a string reads as itself |
| `Command.TokenAsParameter` | git-utils.gradle.kts:189 | the parameter is empty exactly for a null or empty token, and otherwise it is the token followed by `@` |
| `Command.FormatSubstitutes` | git-utils.gradle.kts:8 | `String.format` puts the argument where the template's `%s` was and keeps the text around it |
| `Command.CloneUrlSpelled` | git-utils.gradle.kts:8 | the clone URL is `https://`, then the token parameter, then `github.com/SpaceBank/Android-Space-<module>.git` |
| `Command.DetermineGitCommandSpec` | git-utils.gradle.kts:91-98 | both commands are five words starting with `git` and use `--progress`. The clone, and only the clone, contains `clone`. It fetches the clone URL into `./<module>`; otherwise git pulls with `-C ./<module>` |
| `Command.CloneUrlCredential` | git-utils.gradle.kts:95-96 | for a token without `/`, the credential read back from the clone URL is absent when the token is null or empty and is the token otherwise |
| `Command.JoinShowsPart` | git-utils.gradle.kts:56 | every word of a command appears in its `joinToString` text |
| `Command.CloneCommandShowsToken` | git-utils.gradle.kts:55-56 | the echoed text of a clone command contains the token |
| `Progress.PadEnd` | git-utils.gradle.kts:110 | the padded text has the greater of the two lengths, starts with the text and continues with spaces only |
| `Progress.HandleProgressUpdateSpec` | git-utils.gradle.kts:107-117 | a progress line is redrawn after carriage return and erase-line, padded with spaces to the previous length, and its length is carried on. Any other line is printed with a newline and carries 0 |
| `Progress.RedrawPadding` | git-utils.gradle.kts:110 | a progress line not longer than the previous one is followed by exactly the missing number of spaces |
| `Progress.RedrawNoPadding` | git-utils.gradle.kts:110 | a progress line at least as long as the previous one is written without padding |
| `Progress.ClassificationExamples` | git-utils.gradle.kts:108-109 | `Receiving objects:  50% (5/10)` is a progress line and `Cloning into 'x'...` is not |
| `Progress.PaddingExample` | git-utils.gradle.kts:110 | with 40 characters carried, a 25-character progress line gets 15 trailing spaces |
| `Sync.PumpTranscript` | git-utils.gradle.kts:59-70 | after any number of lines the `output` builder holds those lines, each followed by a newline |
| `Sync.PumpCarried` | git-utils.gradle.kts:60-67 | the carried length starts at 0 and afterwards depends on the last line alone: its length if it is a progress line, 0 otherwise |
| `Sync.PumpShown` | git-utils.gradle.kts:64-66 | the i-th console write is the formatter's output for the i-th line, given the length carried out of the lines before it |
| `Sync.TranscriptLines` | git-utils.gradle.kts:62-64 | reading the transcript back line by line gives git's lines |
| `Sync.ReadOutput` | git-utils.gradle.kts:59-70 | the read loop returns the transcript of all lines, the final carried length and one formatter write per line |
| `Sync.Complete` | git-utils.gradle.kts:76-80 | the outcome is success exactly for exit code 0, with the success message. A failure message is the header naming the module followed by the whole transcript |
| `Attacher.AnyMarkerMeaning` | git-utils.gradle.kts:127 | `any` finds a marker exactly when some name in the listing is `build.gradle.kts` or `settings.gradle.kts` |
| `Attacher.HasBuildGradleKtsMeaning` | git-utils.gradle.kts:125-128 | a path passes exactly when it is a directory whose listing succeeds and names one of the two build scripts |
| `Attacher.AttachedCount` | git-utils.gradle.kts:137-141 | the configurations before the count all pass the check, and the one at the count, if any, fails it |
| `Attacher.AttachSpec` | git-utils.gradle.kts:136-148 | a null configuration list gives only the default notice. Otherwise the longest passing prefix is registered and announced in order; the first failing entry gives the failure notice and nothing after it is registered |
| `Attacher.AttachStopsAt` | git-utils.gradle.kts:138-141 | when the check first fails at entry i, exactly the entries before i are registered and announced, followed by the failure notice |
| `Attacher.AttachEmptyList` | git-utils.gradle.kts:137-147 | an empty list registers nothing and prints nothing, not even the default notice |
| `Attacher.RepeatedLogicalPath` | git-utils.gradle.kts:143-144 | two passing configurations with the same parent path are both registered, under the same logical path |
| `Orchestrator.IsCIEnvironment` | git-utils.gradle.kts:155-158 | CI is detected exactly when `CI` is set and reads `true` in any mix of case |
| `Orchestrator.SelectRunMode` | git-utils.gradle.kts:165 | git runs exactly when `idea.sync.active` is `"true"` or CI is detected |
| `Orchestrator.SyncModuleSpec` | git-utils.gradle.kts:53-82 | a synced module launches exactly its git command. The console shows the echoed command, the formatter's write for each of git's lines, and a blank line after a clone. On exit code 0 it then shows the green success notice and the attachment's notices, and registers what the attachment registers. On any other exit code it shows the failure header with the whole transcript in red, shows no attachment notice and registers nothing. A blank line closes both |
| `Orchestrator.SyncTerminalBegins` | git-utils.gradle.kts:56-70 | the terminal text of a synced module begins with the echoed command line, followed by everything the progress formatter wrote for git's lines, in order |
| `Orchestrator.ModuleLaunches` | git-utils.gradle.kts:165-176 | one iteration launches nothing in the attach-only pass and exactly the module's git command in the sync pass |
| `Orchestrator.AfterSequence` | git-utils.gradle.kts:164-177 | applying the iterations one after another appends, field by field, what they do together |
| `Orchestrator.AttachOnlyLaunchesNothing` | git-utils.gradle.kts:163-167 | in the attach-only pass no process is launched for any module |
| `Orchestrator.SyncLaunchesEachModule` | git-utils.gradle.kts:163-177 | in the sync pass the launched commands are the visited names' git commands, one per name, in visiting order |
| `Orchestrator.GitCommandInjective` | git-utils.gradle.kts:91-98 | two modules with the same git command are the same module, because the command names the checkout `./<module>` |
| `Orchestrator.SyncRunsEachTableModuleOnce` | git-utils.gradle.kts:163-177 | when the loop visits each name of the module table once, the sync pass launches the git command of every module in the table exactly once and launches no other command |
| `Orchestrator.ModuleRegistered` | git-utils.gradle.kts:136-148 | a module registers only its own configurations, and only those whose directory holds a build script |
| `Orchestrator.RunRegistered` | git-utils.gradle.kts:163-177 | after the whole run, every registration comes from a module's configuration and points at a directory with a build script |
| `Orchestrator.CloneAnnouncementShowsToken` | git-utils.gradle.kts:54-56 | when a module is cloned, the `repo_token` appears in clear in the echoed command line |
| `Orchestrator.Workspace.constructor` | git-utils.gradle.kts:13-18 | a workspace starts with the module table, no launched process, an empty console and no registration |
| `Orchestrator.Workspace.AttachModuleToProject` | git-utils.gradle.kts:136-148 | the console and the registrations grow by exactly the attachment effect, and nothing is launched |
| `Orchestrator.Workspace.AttachConfigs` | git-utils.gradle.kts:137-146 | the `forEach` with its early `return` registers and announces exactly what `Attach` describes |
| `Orchestrator.Workspace.CloneOrPullModule` | git-utils.gradle.kts:53-82 | launching, echoing, reading, the clone spacer line, the outcome notice, the attachment and the closing blank line happen exactly as `SyncModuleEffect` describes |
| `Orchestrator.Workspace.FetchModule` | git-utils.gradle.kts:165-176 | one loop iteration applies the effect of the selected pass for that module |
| `Orchestrator.Workspace.FetchAllModules` | git-utils.gradle.kts:163-178 | given the names of the module table, each once, the loop applies the iteration of every module, in visiting order |

## Left out

- Process launch and I/O are left out. `ProcessBuilder.start`, reading the merged output stream and `waitFor` become the `git` function of the environment. An `IOException` from `start` is not modelled.
- Cloning does not change the modelled filesystem. The set of existing `./<module>` directories is the one seen when the command is chosen. The file tree is the one seen when attachment checks it.
- Paths are resolved as in `File("${rootProject.projectDir}/$directoryPath")` only in the sense that the tree is keyed by the configured path. Path normalisation is not modelled.
- The Gradle calls `include(...)`, `project(...).projectDir = file(...)` and `settings.extra` are left out. Registration is the append-only log; the token is the `Setting` value.
- The terminal's handling of `\r`, ESC sequences and `System.out.flush()` is left out. The model keeps the characters written, in order.
- `println` is modelled as appending `\n`. Kotlin's `println` writes the platform line separator, which is `\r\n` on Windows.
- `BufferedReader.readLine` ends a line at `\n`, `\r` or `\r\n`. The environment hands git's output to the model already split into lines, and `SplitLines`, which reads the transcript back, splits at `\n` only.
- Lengths count Dafny characters. Kotlin's `String.length` counts UTF-16 units, so the two differ for characters outside the Basic Multilingual Plane.
- `String.format` is modelled for templates whose only conversion is `%s`, which is the one template the script uses. Other conversions are not modelled.
- `equals("true", ignoreCase = true)` is modelled with ASCII case mapping. No non-ASCII character maps to a letter of `true`, so the result for this comparison is the same.
- The iteration order of the `HashMap` `modules` is not modelled. The run visits the names in a given order `keys` that lists each name of the table once (`Enumerates`), and every run-level lemma holds for any such order.
- The module table is a parameter of `Workspace`. The script's own table holds one entry, `build-logic` with no configuration. The commented-out `UI` entry is not part of the model.
- `Int` overflow of `previousLineLength` is not modelled; lengths are unbounded.
