/**
 * Attaching a synced module to the build (git-utils.gradle.kts,
 * `hasBuildGradleKts` and `attachModuleToProject`): each configured
 * directory must hold a Gradle build script; the configurations are
 * registered in order until the first one that does not.
 */
module Attacher {
  import opened Nullable
  import opened Console

  /** `ModuleConfig(parentPath, modulePath)`. */
  datatype ModuleConfig = ModuleConfig(parentPath: string, modulePath: string)

  /**
   * What `File(path)` finds: a file, or a directory whose `listFiles()` gives
   * the names in it (`None` when the listing fails).
   */
  datatype Entry = RegularFile | Directory(listing: Option<seq<string>>)

  /** The files under the root project directory, by path relative to it; absent paths do not exist. */
  type Tree = map<string, Entry>

  /** The names of the build scripts that mark a directory as a Gradle project. */
  predicate IsMarker(fileName: string) {
    fileName == "build.gradle.kts" || fileName == "settings.gradle.kts"
  }

  /** `listing.any { it.name == "build.gradle.kts" || it.name == "settings.gradle.kts" }`. */
  function AnyMarker(listing: seq<string>): bool
    decreases |listing|
  {
    if listing == [] then false
    else IsMarker(listing[0]) || AnyMarker(listing[1..])
  }

  /** `any` finds a marker exactly when some name in the listing is one. */
  lemma {:induction false} AnyMarkerMeaning(listing: seq<string>)
    ensures AnyMarker(listing) <==> exists name :: name in listing && IsMarker(name)
    decreases |listing|
  {
    if listing != [] {
      AnyMarkerMeaning(listing[1..]);
      assert forall name :: name in listing <==> name == listing[0] || name in listing[1..];
    }
  }

  /** `hasBuildGradleKts(path)`. */
  function HasBuildGradleKts(tree: Tree, path: string): bool {
    path in tree && tree[path].Directory? && tree[path].listing.Some? && AnyMarker(tree[path].listing.value)
  }

  /**
   * A path passes the check exactly when it is a directory whose listing
   * succeeds and names one of the two build scripts.
   */
  lemma HasBuildGradleKtsMeaning(tree: Tree, path: string)
    ensures HasBuildGradleKts(tree, path)
        <==> path in tree && tree[path].Directory? && tree[path].listing.Some?
             && (exists name :: name in tree[path].listing.value && IsMarker(name))
  {
    if path in tree && tree[path].Directory? && tree[path].listing.Some? {
      AnyMarkerMeaning(tree[path].listing.value);
    }
  }

  /** One build-graph registration: `include(logicalPath)` bound to `projectDir = file(dir)`. */
  datatype Registration = Registration(logicalPath: string, dir: string)

  /** The registration a configuration asks for. */
  function Register(c: ModuleConfig): Registration {
    Registration(":" + c.parentPath, c.modulePath)
  }

  /** The registrations of the first `n` configurations, in order. */
  function Registrations(cs: seq<ModuleConfig>, n: nat): seq<Registration>
    requires n <= |cs|
  {
    if n == 0 then [] else Registrations(cs, n - 1) + [Register(cs[n - 1])]
  }

  /** The notice announcing that `c` was attached. */
  function SuccessNotice(c: ModuleConfig): Write {
    Attached(c.parentPath, c.modulePath)
  }

  /** The success notices of the first `n` configurations, in order. */
  function SuccessNotices(cs: seq<ModuleConfig>, n: nat): seq<Write>
    requires n <= |cs|
  {
    if n == 0 then [] else SuccessNotices(cs, n - 1) + [SuccessNotice(cs[n - 1])]
  }

  /** The first `n` registrations are those of the first `n` configurations, one each. */
  lemma {:induction false} RegistrationsAt(cs: seq<ModuleConfig>, n: nat)
    requires n <= |cs|
    ensures |Registrations(cs, n)| == n
    ensures forall i :: 0 <= i < n ==> Registrations(cs, n)[i] == Register(cs[i])
  {
    if n > 0 {
      RegistrationsAt(cs, n - 1);
    }
  }

  /** The first `n` success notices name the first `n` configurations, one each. */
  lemma {:induction false} SuccessNoticesAt(cs: seq<ModuleConfig>, n: nat)
    requires n <= |cs|
    ensures |SuccessNotices(cs, n)| == n
    ensures forall i :: 0 <= i < n ==> SuccessNotices(cs, n)[i] == SuccessNotice(cs[i])
  {
    if n > 0 {
      SuccessNoticesAt(cs, n - 1);
    }
  }

  /** How many configurations, from the first, pass the build-script check. */
  function AttachedCount(cs: seq<ModuleConfig>, tree: Tree): (n: nat)
    ensures n <= |cs|
    ensures forall i :: 0 <= i < n ==> HasBuildGradleKts(tree, cs[i].modulePath)
    ensures n < |cs| ==> !HasBuildGradleKts(tree, cs[n].modulePath)
    decreases |cs|
  {
    if cs == [] || !HasBuildGradleKts(tree, cs[0].modulePath) then 0
    else 1 + AttachedCount(cs[1..], tree)
  }

  /** What `attachModuleToProject` registers and prints. */
  datatype AttachEffect = AttachEffect(registered: seq<Registration>, notices: seq<Write>)

  /** `attachModuleToProject(name)` given the module's configuration list. */
  function Attach(name: string, configs: Option<seq<ModuleConfig>>, tree: Tree): AttachEffect {
    match configs
    case None => AttachEffect([], [DefaultAttached(name)])
    case Some(cs) =>
      var n := AttachedCount(cs, tree);
      AttachEffect(Registrations(cs, n),
                   SuccessNotices(cs, n) + if n < |cs| then [AttachFailed(name)] else [])
  }

  /**
   * Without a configuration list only the default notice is printed. With
   * one, every configuration up to the first whose directory lacks a build
   * script is registered and announced in order; that first failing one ends
   * the attachment with a failure notice and nothing after it is registered.
   */
  lemma AttachSpec(name: string, configs: Option<seq<ModuleConfig>>, tree: Tree)
    ensures var e := Attach(name, configs, tree);
      && (configs.None? ==> e.registered == [] && e.notices == [DefaultAttached(name)])
      && (configs.Some? ==>
          var cs, n := configs.value, |e.registered|;
          && n <= |cs|
          && |e.notices| == (if n < |cs| then n + 1 else n)
          && (forall i :: 0 <= i < n ==>
                && e.registered[i] == Register(cs[i])
                && HasBuildGradleKts(tree, cs[i].modulePath)
                && e.notices[i] == SuccessNotice(cs[i]))
          && (n < |cs| ==> !HasBuildGradleKts(tree, cs[n].modulePath) && e.notices[n] == AttachFailed(name)))
  {
    if configs.Some? {
      var cs := configs.value;
      var n := AttachedCount(cs, tree);
      RegistrationsAt(cs, n);
      SuccessNoticesAt(cs, n);
    }
  }

  /** The attachment when the check first fails at configuration `i`. */
  lemma AttachStopsAt(name: string, cs: seq<ModuleConfig>, tree: Tree, i: nat)
    requires i < |cs| && i <= AttachedCount(cs, tree) && !HasBuildGradleKts(tree, cs[i].modulePath)
    ensures Attach(name, Some(cs), tree)
         == AttachEffect(Registrations(cs, i), SuccessNotices(cs, i) + [AttachFailed(name)])
  {
  }

  /** An empty configuration list attaches nothing and prints nothing. */
  lemma AttachEmptyList(name: string, tree: Tree)
    ensures Attach(name, Some([]), tree) == AttachEffect([], [])
  {
  }

  /**
   * Nothing keeps a logical path from being registered twice: two
   * configurations with the same parent path both get registered.
   */
  lemma RepeatedLogicalPath(name: string, c: ModuleConfig, tree: Tree)
    requires HasBuildGradleKts(tree, c.modulePath)
    ensures Attach(name, Some([c, c]), tree).registered == [Register(c), Register(c)]
  {
    assert [c, c][1..] == [c] && [c][1..] == [];
    assert AttachedCount([c], tree) == 1;
    assert AttachedCount([c, c], tree) == 2;
    assert Registrations([c, c], 1) == [Register(c)];
  }
}
