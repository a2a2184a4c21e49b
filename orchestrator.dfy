/**
 * The orchestration of the bootstrap script (git-utils.gradle.kts,
 * `isCIEnvironment`, `cloneOrPullModule`, `attachModuleToProject`,
 * `fetchAllModules`): per configured module, either attach it directly or
 * run git and attach it when git succeeds.
 */
module Orchestrator {
  import opened Nullable
  import opened Ansi
  import opened Console
  import opened Command
  import opened Progress
  import opened Sync
  import opened Attacher

  /** ASCII upper case; other characters are left alone. */
  function AsciiUpper(c: char): char {
    if 'a' <= c <= 'z' then (c as int - 32) as char else c
  }

  /** ASCII lower case; other characters are left alone. */
  function AsciiLower(c: char): char {
    if 'A' <= c <= 'Z' then (c as int + 32) as char else c
  }

  /** The character comparison of `equals(other, ignoreCase = true)`. */
  predicate CharEqualsIgnoreCase(a: char, b: char) {
    a == b || AsciiUpper(a) == AsciiUpper(b) || AsciiLower(AsciiUpper(a)) == AsciiLower(AsciiUpper(b))
  }

  /** `a.equals(b, ignoreCase = true)`. */
  predicate EqualsIgnoreCase(a: string, b: string) {
    |a| == |b| && forall i :: 0 <= i < |a| ==> CharEqualsIgnoreCase(a[i], b[i])
  }

  /** The string in ASCII lower case. */
  function LowerCase(s: string): string {
    seq(|s|, i requires 0 <= i < |s| => AsciiLower(s[i]))
  }

  /**
   * `isCIEnvironment()` given `System.getenv("CI")`: the variable is set and
   * reads "true" in any mix of upper and lower case.
   */
  function IsCIEnvironment(ci: Option<string>): (b: bool)
    ensures b <==> ci.Some? && LowerCase(ci.value) == "true"
  {
    var b := ci.Some? && EqualsIgnoreCase(ci.value, "true");
    assert ci.Some? && LowerCase(ci.value) == "true" ==> b by {
      if ci.Some? && LowerCase(ci.value) == "true" {
        forall i | 0 <= i < 4 ensures CharEqualsIgnoreCase(ci.value[i], "true"[i]) {
          assert AsciiLower(ci.value[i]) == "true"[i];
        }
      }
    }
    assert b ==> LowerCase(ci.value) == "true" by {
      if b {
        forall i | 0 <= i < 4 ensures LowerCase(ci.value)[i] == "true"[i] {
          assert CharEqualsIgnoreCase(ci.value[i], "true"[i]);
        }
      }
    }
    b
  }

  /** Which of the two passes `fetchAllModules` makes over the modules. */
  datatype RunMode = AttachOnly | SyncAndAttach

  /**
   * The branch of `fetchAllModules` given `System.getProperty("idea.sync.active")`
   * and `System.getenv("CI")`: git runs when the IDE sync property is "true"
   * or the build runs under CI, and otherwise the modules are only attached.
   */
  function SelectRunMode(ideaSyncActive: Option<string>, ci: Option<string>): (m: RunMode)
    ensures m == SyncAndAttach <==> ideaSyncActive == Some("true") || IsCIEnvironment(ci)
  {
    if ideaSyncActive != Some("true") && !IsCIEnvironment(ci) then AttachOnly else SyncAndAttach
  }

  /** What git prints (standard error merged into standard output) and its exit code. */
  datatype ProcessRun = ProcessRun(lines: seq<string>, exitCode: int)

  /**
   * Everything the script reads from outside: the `repo_token` setting, the
   * IDE sync property, the CI variable, which `./<module>` directories exist,
   * the files under the root project directory, and how git behaves for a
   * given command line.
   */
  datatype Environment = Environment(
    repoToken: Setting,
    ideaSyncActive: Option<string>,
    ci: Option<string>,
    existing: set<string>,
    tree: Tree,
    git: seq<string> -> ProcessRun)

  /** The module table: module name to its configurations, `None` for `null`. */
  type Modules = map<string, Option<seq<ModuleConfig>>>

  /** `modules[name]`: `null` both for a `null` entry and for a missing key. */
  function Lookup(modules: Modules, name: string): Option<seq<ModuleConfig>> {
    if name in modules then modules[name] else None
  }

  /** The command `cloneOrPullModule` runs for `name`. */
  function GitCommand(name: string, env: Environment): seq<string> {
    var token := ReadToken(env.repoToken);
    DetermineGitCommand(name, TokenAsParameter(Some(token)), LocalPath(name) in env.existing)
  }

  /** The `onInfo` write announcing the command. */
  function InfoWrite(command: seq<string>): Write {
    Notice("Executing command: " + JoinToString(command, " "), Blue)
  }

  /** What one step of the orchestration launches, writes and registers. */
  datatype Effect = Effect(launched: seq<seq<string>>, console: seq<Write>, registered: seq<Registration>)

  /** The effect of `attachModuleToProject(name)`. */
  function AttachModuleEffect(name: string, env: Environment, modules: Modules): Effect {
    var a := Attach(name, Lookup(modules, name), env.tree);
    Effect([], a.notices, a.registered)
  }

  /**
   * The effect of `cloneOrPullModule` once `command` is chosen and git has
   * ended with `run`, where `attach` is what `attachModuleToProject` does:
   * announce and launch the command, echo git's output through the progress
   * formatter, then report and attach on exit code 0, or report the failure
   * with the transcript.
   */
  function SyncRunEffect(name: string, command: seq<string>, run: ProcessRun, attach: Effect): Effect {
    var pump := Pump(run.lines, |run.lines|);
    var afterInfo := [InfoWrite(command)] + pump.shown;
    var afterRead := if "clone" in command then afterInfo + [Line("")] else afterInfo;
    match Complete(name, pump.transcript, run.exitCode)
    case Success(message) =>
      Effect([command], afterRead + [Notice(message, Green)] + attach.console + [Line("")], attach.registered)
    case Failure(message) =>
      Effect([command], afterRead + [Notice(message, Red)] + [Line("")], [])
  }

  /** The effect of `cloneOrPullModule(name, callback)` with the callback of `fetchAllModules`. */
  function SyncModuleEffect(name: string, env: Environment, modules: Modules): Effect {
    var command := GitCommand(name, env);
    SyncRunEffect(name, command, env.git(command), AttachModuleEffect(name, env, modules))
  }

  /** Whether a write is one of the notices `attachModuleToProject` prints. */
  predicate IsAttachNotice(w: Write) {
    w.Attached? || w.AttachFailed? || w.DefaultAttached?
  }

  /**
   * One git run per synced module. The console first shows the echoed
   * command, then the formatter's write for each line git printed, then a
   * blank line after a clone. On exit code 0 it shows the green success
   * notice and the notices of `attachModuleToProject`, and the module is
   * registered as that attachment registers it. On any other exit code it
   * shows the failure header followed by the whole transcript in red, prints
   * no attachment notice and registers nothing. A blank line closes both.
   */
  lemma SyncModuleSpec(name: string, env: Environment, modules: Modules)
    ensures var e, command := SyncModuleEffect(name, env, modules), GitCommand(name, env);
      var run := env.git(command);
      var echo := [InfoWrite(command)] + Pump(run.lines, |run.lines|).shown
                  + (if "clone" in command then [Line("")] else []);
      var a := Attach(name, Lookup(modules, name), env.tree);
      && e.launched == [command]
      && (run.exitCode == 0 ==>
            && e.console == echo + [Notice(SuccessMessage(name), Green)] + a.notices + [Line("")]
            && e.registered == a.registered)
      && (run.exitCode != 0 ==>
            && e.console == echo + [Notice(FailureHeader(name) + Transcript(run.lines), Red), Line("")]
            && e.registered == []
            && forall i :: 0 <= i < |e.console| ==> !IsAttachNotice(e.console[i]))
  {
    var command := GitCommand(name, env);
    SyncRunSpec(name, command, env.git(command), AttachModuleEffect(name, env, modules));
  }

  /** `SyncModuleSpec` for any command, any run of git and any attachment effect. */
  lemma SyncRunSpec(name: string, command: seq<string>, run: ProcessRun, attach: Effect)
    ensures var e := SyncRunEffect(name, command, run, attach);
      var echo := [InfoWrite(command)] + Pump(run.lines, |run.lines|).shown
                  + (if "clone" in command then [Line("")] else []);
      && e.launched == [command]
      && (run.exitCode == 0 ==>
            && e.console == echo + [Notice(SuccessMessage(name), Green)] + attach.console + [Line("")]
            && e.registered == attach.registered)
      && (run.exitCode != 0 ==>
            && e.console == echo + [Notice(FailureHeader(name) + Transcript(run.lines), Red), Line("")]
            && e.registered == []
            && forall i :: 0 <= i < |e.console| ==> !IsAttachNotice(e.console[i]))
  {
    var pump := Pump(run.lines, |run.lines|);
    PumpTranscript(run.lines, |run.lines|);
    assert run.lines[..|run.lines|] == run.lines;
    var afterInfo := [InfoWrite(command)] + pump.shown;
    var spacer: seq<Write> := if "clone" in command then [Line("")] else [];
    var afterRead := if "clone" in command then afterInfo + [Line("")] else afterInfo;
    assert afterRead == afterInfo + spacer;
    if run.exitCode != 0 {
      var console := afterRead + [Notice(FailureHeader(name) + pump.transcript, Red)] + [Line("")];
      assert console == afterRead + [Notice(FailureHeader(name) + pump.transcript, Red), Line("")];
      PumpShownLength(run.lines, |run.lines|);
      forall i | 0 <= i < |console| ensures !IsAttachNotice(console[i]) {
        if 1 <= i <= |pump.shown| {
          PumpShown(run.lines, |run.lines|, i - 1);
        }
      }
    }
  }

  /**
   * The terminal text of a synced module begins with the echoed command line,
   * followed by everything the progress formatter wrote for git's lines.
   */
  lemma SyncTerminalBegins(name: string, env: Environment, modules: Modules)
    ensures var command := GitCommand(name, env);
      var run := env.git(command);
      InfoWrite(command).Text() + Rendered(Pump(run.lines, |run.lines|).shown)
        <= Rendered(SyncModuleEffect(name, env, modules).console)
  {
    var command := GitCommand(name, env);
    var run := env.git(command);
    var shown := Pump(run.lines, |run.lines|).shown;
    SyncConsoleBegins(name, env, modules);
    RenderedPrefix([InfoWrite(command)] + shown, SyncModuleEffect(name, env, modules).console);
    RenderedAppend([InfoWrite(command)], shown);
    assert [InfoWrite(command)][1..] == [];
  }

  /** The console writes of a synced module begin with the echoed command and the formatter's writes. */
  lemma SyncConsoleBegins(name: string, env: Environment, modules: Modules)
    ensures var command := GitCommand(name, env);
      var run := env.git(command);
      [InfoWrite(command)] + Pump(run.lines, |run.lines|).shown <= SyncModuleEffect(name, env, modules).console
  {
    var command := GitCommand(name, env);
    SyncRunSpec(name, command, env.git(command), AttachModuleEffect(name, env, modules));
  }

  /** The effect of one iteration of the loop in `fetchAllModules`. */
  function ModuleEffect(name: string, env: Environment, modules: Modules): Effect {
    if SelectRunMode(env.ideaSyncActive, env.ci) == AttachOnly then AttachModuleEffect(name, env, modules)
    else SyncModuleEffect(name, env, modules)
  }

  /** The effects `es[0]`, ..., `es[n - 1]` one after the other. */
  function Sequence(es: seq<Effect>, n: nat): Effect
    requires n <= |es|
  {
    if n == 0 then Effect([], [], [])
    else
      var before := Sequence(es, n - 1);
      Effect(before.launched + es[n - 1].launched, before.console + es[n - 1].console,
             before.registered + es[n - 1].registered)
  }

  /** The state `base` (as launched, console, registrations) after the effects `es[0]`, ..., `es[n - 1]`. */
  function After(base: Effect, es: seq<Effect>, n: nat): Effect
    requires n <= |es|
  {
    if n == 0 then base
    else
      var before := After(base, es, n - 1);
      Effect(before.launched + es[n - 1].launched, before.console + es[n - 1].console,
             before.registered + es[n - 1].registered)
  }

  /** Applying effects one by one appends, field by field, what they do together. */
  lemma {:induction false} AfterSequence(base: Effect, es: seq<Effect>, n: nat)
    requires n <= |es|
    ensures After(base, es, n) == Effect(base.launched + Sequence(es, n).launched, base.console + Sequence(es, n).console,
                                         base.registered + Sequence(es, n).registered)
  {
    if n == 0 {
      assert base.launched + [] == base.launched;
      assert base.console + [] == base.console;
      assert base.registered + [] == base.registered;
    } else {
      AfterSequence(base, es, n - 1);
      var before := Sequence(es, n - 1);
      Associate(base.launched, before.launched, es[n - 1].launched);
      Associate(base.console, before.console, es[n - 1].console);
      Associate(base.registered, before.registered, es[n - 1].registered);
    }
  }

  /** The iterations of the loop over `keys`, one per module name. */
  function Iterations(keys: seq<string>, env: Environment, modules: Modules): (es: seq<Effect>)
    ensures |es| == |keys|
    decreases |keys|
  {
    if keys == [] then [] else [ModuleEffect(keys[0], env, modules)] + Iterations(keys[1..], env, modules)
  }

  /** Iteration `i` is the effect for the `i`-th name. */
  lemma {:induction false} IterationsAt(keys: seq<string>, env: Environment, modules: Modules, i: nat)
    requires i < |keys|
    ensures Iterations(keys, env, modules)[i] == ModuleEffect(keys[i], env, modules)
    decreases |keys|
  {
    if i > 0 {
      IterationsAt(keys[1..], env, modules, i - 1);
    }
  }

  /** The effect of the first `n` iterations of the loop over `keys`. */
  function RunEffect(keys: seq<string>, env: Environment, modules: Modules, n: nat): Effect
    requires n <= |keys|
  {
    Sequence(Iterations(keys, env, modules), n)
  }

  /** An iteration launches git exactly when the pass is the sync pass. */
  lemma ModuleLaunches(name: string, env: Environment, modules: Modules)
    ensures ModuleEffect(name, env, modules).launched
         == if SelectRunMode(env.ideaSyncActive, env.ci) == AttachOnly then [] else [GitCommand(name, env)]
  {
  }

  /** Effects that launch one process each launch, in sequence, those processes in order. */
  lemma {:induction false} SequenceLaunches(es: seq<Effect>, n: nat, single: bool)
    requires n <= |es|
    requires forall i :: 0 <= i < n ==> |es[i].launched| == if single then 1 else 0
    ensures Sequence(es, n).launched == if single then seq(n, i requires 0 <= i < n => es[i].launched[0]) else []
  {
    if n > 0 {
      SequenceLaunches(es, n - 1, single);
    }
  }

  /** In the attach-only pass no git process is launched at all. */
  lemma AttachOnlyLaunchesNothing(keys: seq<string>, env: Environment, modules: Modules)
    requires SelectRunMode(env.ideaSyncActive, env.ci) == AttachOnly
    ensures RunEffect(keys, env, modules, |keys|).launched == []
  {
    var es := Iterations(keys, env, modules);
    forall i | 0 <= i < |keys| ensures |es[i].launched| == 0 {
      IterationsAt(keys, env, modules, i);
      ModuleLaunches(keys[i], env, modules);
    }
    SequenceLaunches(es, |keys|, false);
  }

  /** In the sync pass every module gets exactly one git run, in the order of the keys. */
  lemma SyncLaunchesEachModule(keys: seq<string>, env: Environment, modules: Modules)
    requires SelectRunMode(env.ideaSyncActive, env.ci) == SyncAndAttach
    ensures RunEffect(keys, env, modules, |keys|).launched
         == seq(|keys|, i requires 0 <= i < |keys| => GitCommand(keys[i], env))
  {
    var es := Iterations(keys, env, modules);
    forall i | 0 <= i < |keys| ensures es[i].launched == [GitCommand(keys[i], env)] {
      IterationsAt(keys, env, modules, i);
      ModuleLaunches(keys[i], env, modules);
    }
    SequenceLaunches(es, |keys|, true);
  }

  /** `keys` lists every name of the module table exactly once, as `modules.keys` does. */
  predicate Enumerates(keys: seq<string>, modules: Modules) {
    && (forall k :: k in keys ==> k in modules)
    && (forall k :: k in modules ==> k in keys)
    && (forall i, j :: 0 <= i < j < |keys| ==> keys[i] != keys[j])
  }

  /** Different modules are fetched with different git commands: the checkout directory tells them apart. */
  lemma GitCommandInjective(a: string, b: string, env: Environment)
    ensures GitCommand(a, env) == GitCommand(b, env) ==> a == b
  {
    if GitCommand(a, env) == GitCommand(b, env) {
      var tokenParam := TokenAsParameter(Some(ReadToken(env.repoToken)));
      DetermineGitCommandSpec(a, tokenParam, LocalPath(a) in env.existing);
      DetermineGitCommandSpec(b, tokenParam, LocalPath(b) in env.existing);
      assert (LocalPath(a) in env.existing) == (LocalPath(b) in env.existing) by {
        assert GitCommand(a, env)[1] == GitCommand(b, env)[1];
      }
      assert LocalPath(a) == LocalPath(b);
      assert a == LocalPath(a)[2..] && b == LocalPath(b)[2..];
    }
  }

  /** A sequence without repetitions holds each of its elements exactly once. */
  lemma {:induction false} DistinctOnce<T>(s: seq<T>, x: T)
    requires forall i, j :: 0 <= i < j < |s| ==> s[i] != s[j]
    ensures multiset(s)[x] == if x in s then 1 else 0
    decreases |s|
  {
    if s != [] {
      var init, last := s[..|s| - 1], s[|s| - 1];
      assert s == init + [last];
      DistinctOnce(init, x);
      assert last !in init;
    }
  }

  /**
   * In the sync pass over the module table, the git command of every module
   * in the table is launched exactly once, and no other command is launched.
   */
  lemma SyncRunsEachTableModuleOnce(keys: seq<string>, env: Environment, modules: Modules)
    requires Enumerates(keys, modules)
    requires SelectRunMode(env.ideaSyncActive, env.ci) == SyncAndAttach
    ensures var launched := RunEffect(keys, env, modules, |keys|).launched;
      && (forall name :: name in modules ==> multiset(launched)[GitCommand(name, env)] == 1)
      && (forall cmd :: cmd in launched ==> exists name :: name in modules && cmd == GitCommand(name, env))
  {
    var launched := RunEffect(keys, env, modules, |keys|).launched;
    SyncLaunchesEachModule(keys, env, modules);
    forall i, j | 0 <= i < j < |launched| ensures launched[i] != launched[j] {
      GitCommandInjective(keys[i], keys[j], env);
    }
    forall name | name in modules ensures multiset(launched)[GitCommand(name, env)] == 1 {
      assert name in keys;
      var i :| 0 <= i < |keys| && keys[i] == name;
      assert launched[i] == GitCommand(name, env);
      DistinctOnce(launched, GitCommand(name, env));
    }
    forall cmd | cmd in launched ensures exists name :: name in modules && cmd == GitCommand(name, env) {
      var i :| 0 <= i < |launched| && launched[i] == cmd;
      assert keys[i] in modules;
    }
  }

  /** Appending in two steps is appending the two parts at once. */
  lemma Associate<T>(a: seq<T>, b: seq<T>, c: seq<T>)
    ensures a + b + c == a + (b + c)
  {
  }

  /** Something registered by a sequence of effects was registered by one of them. */
  lemma {:induction false} SequenceRegistered(es: seq<Effect>, n: nat, r: Registration)
    requires n <= |es| && r in Sequence(es, n).registered
    ensures exists j :: 0 <= j < n && r in es[j].registered
  {
    if r !in Sequence(es, n - 1).registered {
      assert r in es[n - 1].registered;
    } else {
      SequenceRegistered(es, n - 1, r);
    }
  }

  /**
   * A module registers only its own configurations, and only those whose
   * directory holds a build script, whichever pass the run makes.
   */
  lemma ModuleRegistered(name: string, env: Environment, modules: Modules, r: Registration)
    requires r in ModuleEffect(name, env, modules).registered
    ensures Lookup(modules, name).Some?
    ensures exists c :: c in Lookup(modules, name).value && r == Register(c) && HasBuildGradleKts(env.tree, c.modulePath)
  {
    var a := Attach(name, Lookup(modules, name), env.tree);
    AttachSpec(name, Lookup(modules, name), env.tree);
    if SelectRunMode(env.ideaSyncActive, env.ci) == SyncAndAttach {
      SyncModuleSpec(name, env, modules);
    }
    assert r in a.registered;
    var cs := Lookup(modules, name).value;
    var i :| 0 <= i < |a.registered| && a.registered[i] == r;
    assert cs[i] in cs;
  }

  /**
   * After the whole run, every registered project comes from the
   * configuration of one of the modules and its directory holds a build script.
   */
  lemma RunRegistered(keys: seq<string>, env: Environment, modules: Modules, r: Registration)
    requires r in RunEffect(keys, env, modules, |keys|).registered
    ensures HasBuildGradleKts(env.tree, r.dir)
    ensures exists j, c :: 0 <= j < |keys| && Lookup(modules, keys[j]).Some? && c in Lookup(modules, keys[j]).value
                        && r == Register(c)
  {
    var es := Iterations(keys, env, modules);
    SequenceRegistered(es, |keys|, r);
    var j :| 0 <= j < |keys| && r in es[j].registered;
    IterationsAt(keys, env, modules, j);
    ModuleRegistered(keys[j], env, modules, r);
    var c :| c in Lookup(modules, keys[j]).value && r == Register(c) && HasBuildGradleKts(env.tree, c.modulePath);
  }

  /** Whatever occurs in the body of a coloured line occurs in the line printed. */
  lemma ColouredLineShows(x: string, prefix: string, body: string, c: AnsiColor)
    requires Occurs(x, body)
    ensures Occurs(x, Println(Colorize(prefix + body, c)))
  {
    var message := prefix + body;
    OccursInMiddle(prefix, body, "");
    assert prefix + body + "" == message;
    OccursTransitive(x, body, message);
    OccursInMiddle(c.Code(), message, Reset.Code());
    OccursTransitive(x, message, Colorize(message, c));
    OccursInMiddle("", Colorize(message, c), "\n");
    assert "" + Colorize(message, c) + "\n" == Println(Colorize(message, c));
    OccursTransitive(x, Colorize(message, c), Println(Colorize(message, c)));
  }

  /**
   * The announcement of a clone prints the `repo_token` setting in clear: the
   * token is spelled out inside the URL of the command echoed to the console.
   */
  lemma CloneAnnouncementShowsToken(name: string, env: Environment)
    requires env.repoToken.Text? && LocalPath(name) !in env.existing
    ensures Occurs(env.repoToken.value, InfoWrite(GitCommand(name, env)).Text())
  {
    var joined := JoinToString(GitCommand(name, env), " ");
    CloneCommandShowsToken(name, env.repoToken.value);
    ColouredLineShows(env.repoToken.value, "Executing command: ", joined, Blue);
  }

  /** The state the script changes: launched processes, the console, and the build-graph registrations. */
  class Workspace {
    const modules: Modules
    var launched: seq<seq<string>>
    var console: seq<Write>
    var registry: seq<Registration>

    constructor (modules: Modules)
      ensures this.modules == modules
      ensures launched == [] && console == [] && registry == []
    {
      this.modules := modules;
      launched, console, registry := [], [], [];
    }

    /** Appends an effect to the state. */
    twostate predicate Applied(e: Effect)
      reads this
    {
      && launched == old(launched) + e.launched
      && console == old(console) + e.console
      && registry == old(registry) + e.registered
    }

    /** `attachModuleToProject(name)`. */
    method AttachModuleToProject(name: string, env: Environment)
      modifies this
      ensures Applied(AttachModuleEffect(name, env, modules))
    {
      match Lookup(modules, name)
      case None =>
        console := console + [DefaultAttached(name)];
      case Some(cs) =>
        AttachConfigs(name, cs, env.tree);
    }

    /** The `forEach` of `attachModuleToProject`, with its early `return` at the first failing configuration. */
    method AttachConfigs(name: string, cs: seq<ModuleConfig>, tree: Tree)
      modifies this
      ensures Applied(var a := Attach(name, Some(cs), tree); Effect([], a.notices, a.registered))
    {
      var i := 0;
      while i < |cs|
        invariant 0 <= i <= AttachedCount(cs, tree)
        invariant launched == old(launched)
        invariant registry == old(registry) + Registrations(cs, i)
        invariant console == old(console) + SuccessNotices(cs, i)
      {
        if !HasBuildGradleKts(tree, cs[i].modulePath) {
          console := console + [AttachFailed(name)];
          AttachStopsAt(name, cs, tree, i);
          return;
        }
        Associate(old(registry), Registrations(cs, i), [Register(cs[i])]);
        Associate(old(console), SuccessNotices(cs, i), [SuccessNotice(cs[i])]);
        registry := registry + [Register(cs[i])];
        console := console + [SuccessNotice(cs[i])];
        i := i + 1;
      }
    }

    /** `cloneOrPullModule(name, callback)` with the callback of `fetchAllModules`. */
    method CloneOrPullModule(name: string, env: Environment)
      modifies this
      ensures Applied(SyncModuleEffect(name, env, modules))
    {
      ghost var console0, registry0 := console, registry;
      var token := ReadToken(env.repoToken);
      var command := DetermineGitCommand(name, TokenAsParameter(Some(token)), LocalPath(name) in env.existing);
      assert command == GitCommand(name, env);
      console := console + [InfoWrite(command)];
      launched := launched + [command];
      var run := env.git(command);
      var transcript, carried, shown := ReadOutput(run.lines);
      Associate(console0, [InfoWrite(command)], shown);
      console := console + shown;
      ghost var written := [InfoWrite(command)] + shown;
      if "clone" in command {
        Associate(console0, written, [Line("")]);
        console := console + [Line("")];
        written := written + [Line("")];
      }
      match Complete(name, transcript, run.exitCode) {
        case Success(message) =>
          Associate(console0, written, [Notice(message, Green)]);
          console := console + [Notice(message, Green)];
          written := written + [Notice(message, Green)];
          ghost var a := AttachModuleEffect(name, env, modules);
          AttachModuleToProject(name, env);
          Associate(console0, written, a.console);
          written := written + a.console;
        case Failure(message) =>
          Associate(console0, written, [Notice(message, Red)]);
          console := console + [Notice(message, Red)];
          written := written + [Notice(message, Red)];
      }
      Associate(console0, written, [Line("")]);
      console := console + [Line("")];
    }

    /** Iteration `i` of the loop in `fetchAllModules()`. */
    method FetchModule(keys: seq<string>, i: nat, env: Environment)
      requires i < |keys|
      modifies this
      ensures Applied(Iterations(keys, env, modules)[i])
    {
      var name := keys[i];
      IterationsAt(keys, env, modules, i);
      if env.ideaSyncActive != Some("true") && !IsCIEnvironment(env.ci) {
        AttachModuleToProject(name, env);
      } else {
        CloneOrPullModule(name, env);
      }
    }

    /** `fetchAllModules()`, visiting each name of the module table once, in the order `keys`. */
    method FetchAllModules(keys: seq<string>, env: Environment)
      requires Enumerates(keys, modules)
      modifies this
      ensures Applied(RunEffect(keys, env, modules, |keys|))
    {
      ghost var es := Iterations(keys, env, modules);
      ghost var start := Effect(launched, console, registry);
      var i := 0;
      while i < |keys|
        invariant 0 <= i <= |keys|
        invariant Effect(launched, console, registry) == After(start, es, i)
      {
        FetchModule(keys, i, env);
        i := i + 1;
      }
      AfterSequence(start, es, |keys|);
    }
  }
}
