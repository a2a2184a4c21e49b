/**
 * Building the git command for one module: the repository token, the URL
 * template filled by `String.format`, and the choice between `pull` and
 * `clone` (git-utils.gradle.kts, `repository`, `tokenAsParameter`,
 * `determineGitCommand`).
 */
module Command {
  import opened Nullable

  /** What `settings.extra.properties["repo_token"]` holds. */
  datatype Setting = Absent | Text(value: string) | NonText

  /** `properties["repo_token"] as? String ?: ""`. */
  function ReadToken(s: Setting): (token: string)
    ensures s.Text? ==> token == s.value
    ensures !s.Text? ==> token == ""
  {
    match s
    case Text(v) => v
    case _ => ""
  }

  /** `String?.tokenAsParameter()`: the token followed by `@`, or nothing. */
  function TokenAsParameter(token: Option<string>): (r: string)
    ensures r == "" <==> token == None || token.value == ""
    ensures r != "" ==> r == token.value + "@"
  {
    if token.Some? && token.value != "" then token.value + "@" else ""
  }

  /** The pieces of the URL template. */
  const Scheme := "https://"
  const Host := "github.com"
  const Organisation := "SpaceBank/Android-Space"

  /** The URL template, "https://%sgithub.com/SpaceBank/Android-Space"; `%s` is where the token parameter goes. */
  const Repository := Scheme + "%s" + Host + "/" + Organisation

  /** `String.format(template, arg)` for templates whose one conversion is `%s`. */
  function Format(template: string, arg: string): (r: string)
    decreases |template|
  {
    if |template| < 2 then template
    else if template[0] == '%' && template[1] == 's' then arg + template[2..]
    else [template[0]] + Format(template[1..], arg)
  }

  /** Text free of `%` passes through `String.format` untouched up to the `%s`. */
  lemma {:induction false} FormatSubstitutes(p: string, q: string, arg: string)
    requires '%' !in p
    ensures Format(p + "%s" + q, arg) == p + arg + q
    decreases |p|
  {
    var t := p + "%s" + q;
    if p == [] {
      assert t == "%s" + q;
    } else {
      assert t[0] == p[0] != '%' && t[1..] == p[1..] + "%s" + q;
      FormatSubstitutes(p[1..], q, arg);
      calc {
        Format(t, arg);
        [p[0]] + Format(p[1..] + "%s" + q, arg);
        [p[0]] + (p[1..] + arg + q);
        { assert [p[0]] + p[1..] == p; }
        p + arg + q;
      }
    }
  }

  /** The remote URL of module `name`'s repository for a given token parameter. */
  function CloneUrl(name: string, tokenParam: string): string {
    Format(Repository, tokenParam) + "-" + name + ".git"
  }

  /** The repository path of module `name` on `Host`. */
  function RepoPath(name: string): string {
    Organisation + "-" + name + ".git"
  }

  /** The URL spelled out: the token parameter sits right after the scheme, before the host. */
  lemma CloneUrlSpelled(name: string, tokenParam: string)
    ensures CloneUrl(name, tokenParam) == Scheme + (tokenParam + Host) + "/" + RepoPath(name)
  {
    assert Repository == Scheme + "%s" + (Host + "/" + Organisation);
    FormatSubstitutes(Scheme, Host + "/" + Organisation, tokenParam);
    assert RepoPath(name) == Organisation + ("-" + name + ".git");
    Regroup(Scheme, tokenParam, Host, "/", Organisation, "-" + name + ".git");
  }

  lemma Regroup(a: string, b: string, c: string, d: string, e: string, f: string)
    ensures a + b + (c + d + e) + f == a + (b + c) + d + (e + f)
  {
  }

  /** The directory a module is checked out to, relative to the working directory. */
  function LocalPath(name: string): string {
    "./" + name
  }

  /**
   * `determineGitCommand(module, tokenParam)` where `present` is whether
   * `./<module>` exists: pull into the checkout, or clone into it.
   */
  function DetermineGitCommand(name: string, tokenParam: string, present: bool): seq<string> {
    var repoPath := LocalPath(name);
    if present then ["git", "-C", repoPath, "pull", "--progress"]
    else ["git", "clone", "--progress", CloneUrl(name, tokenParam), repoPath]
  }

  /**
   * Both commands run `git` on the checkout `./<name>`; the clone (and only
   * the clone) names the `clone` subcommand, fetches from the repository URL
   * carrying the token parameter, and targets the checkout directory, while the
   * pull runs inside the checkout.
   */
  lemma DetermineGitCommandSpec(name: string, tokenParam: string, present: bool)
    ensures var cmd := DetermineGitCommand(name, tokenParam, present);
      && |cmd| == 5 && cmd[0] == "git"
      && ("clone" in cmd <==> !present)
      && (present ==> cmd[1..3] == ["-C", LocalPath(name)] && cmd[3] == "pull")
      && (!present ==> cmd[1] == "clone" && cmd[3] == CloneUrl(name, tokenParam) && cmd[4] == LocalPath(name))
      && "--progress" in cmd
  {
    var repoPath := LocalPath(name);
    assert repoPath != "clone" by { assert repoPath[0] == '.'; }
  }

  /** `joinToString(sep)`. */
  function JoinToString(parts: seq<string>, sep: string): string {
    if parts == [] then ""
    else if |parts| == 1 then parts[0]
    else parts[0] + sep + JoinToString(parts[1..], sep)
  }

  /** The text up to (not including) the first `/`. */
  function TakeUntilSlash(s: string): (r: string)
    ensures r <= s && '/' !in r
  {
    if s == [] || s[0] == '/' then [] else [s[0]] + TakeUntilSlash(s[1..])
  }

  /** The user-information part of an authority: what precedes its last `@`. */
  function UserInfo(authority: string): Option<string>
    decreases |authority|
  {
    if authority == [] then None
    else if authority[|authority| - 1] == '@' then Some(authority[..|authority| - 1])
    else UserInfo(authority[..|authority| - 1])
  }

  /** The credential embedded in an `https://` URL, if any. */
  function Credential(url: string): Option<string> {
    if |url| >= |Scheme| && url[..|Scheme|] == Scheme then UserInfo(TakeUntilSlash(url[|Scheme|..])) else None
  }

  lemma {:induction false} TakeUntilSlashPrefix(p: string, q: string)
    requires '/' !in p
    ensures TakeUntilSlash(p + "/" + q) == p
    decreases |p|
  {
    if p != [] {
      assert (p + "/" + q)[1..] == p[1..] + "/" + q;
      TakeUntilSlashPrefix(p[1..], q);
    }
  }

  lemma {:induction false} UserInfoLastAt(a: string, b: string)
    requires '@' !in b
    ensures UserInfo(a + "@" + b) == Some(a)
    decreases |b|
  {
    var s := a + "@" + b;
    if b == [] {
      assert s[..|s| - 1] == a;
    } else {
      assert s[..|s| - 1] == a + "@" + b[..|b| - 1];
      UserInfoLastAt(a, b[..|b| - 1]);
    }
  }

  lemma {:induction false} UserInfoNoAt(s: string)
    requires '@' !in s
    ensures UserInfo(s) == None
    decreases |s|
  {
    if s != [] {
      UserInfoNoAt(s[..|s| - 1]);
    }
  }

  /** The credential of `https://<authority>/<path>` is read from the authority alone. */
  lemma CredentialOfAuthority(authority: string, path: string)
    requires '/' !in authority
    ensures Credential(Scheme + authority + "/" + path) == UserInfo(authority)
  {
    var url := Scheme + authority + "/" + path;
    assert url[..|Scheme|] == Scheme;
    assert url[|Scheme|..] == authority + "/" + path;
    TakeUntilSlashPrefix(authority, path);
  }

  /**
   * The clone URL carries the token as its credential exactly when the token
   * is present and non-empty, and the credential read back is that token.
   */
  lemma CloneUrlCredential(name: string, token: Option<string>)
    requires token.Some? ==> '/' !in token.value
    ensures Credential(CloneUrl(name, TokenAsParameter(token)))
         == if token == None || token.value == "" then None else Some(token.value)
  {
    var tp := TokenAsParameter(token);
    CloneUrlSpelled(name, tp);
    var host := Host;
    CredentialOfAuthority(tp + host, RepoPath(name));
    if tp == "" {
      assert tp + host == host;
      UserInfoNoAt(host);
    } else {
      assert tp + host == token.value + "@" + host;
      UserInfoLastAt(token.value, host);
    }
  }

  /** `needle` appears in `hay` as a contiguous piece. */
  predicate Occurs(needle: string, hay: string) {
    exists i :: 0 <= i <= |hay| - |needle| && hay[i..][..|needle|] == needle
  }

  /** A piece of a concatenation occurs in it. */
  lemma OccursInMiddle(a: string, b: string, c: string)
    ensures Occurs(b, a + b + c)
  {
    var hay := a + b + c;
    assert hay[|a|..][..|b|] == b;
  }

  /** Occurring is transitive. */
  lemma OccursTransitive(a: string, b: string, c: string)
    requires Occurs(a, b) && Occurs(b, c)
    ensures Occurs(a, c)
  {
    var i :| 0 <= i <= |b| - |a| && b[i..][..|a|] == a;
    var j :| 0 <= j <= |c| - |b| && c[j..][..|b|] == b;
    forall k | 0 <= k < |a| ensures c[j + i..][k] == a[k] {
      assert c[j + i..][k] == c[j..][..|b|][i + k] == b[i + k];
    }
    assert c[j + i..][..|a|] == a;
  }

  /** Every part of a joined list is spelled out in the joined text. */
  lemma {:induction false} JoinShowsPart(parts: seq<string>, sep: string, k: nat)
    requires k < |parts|
    ensures Occurs(parts[k], JoinToString(parts, sep))
    decreases |parts|
  {
    if |parts| == 1 {
      OccursInMiddle("", parts[0], "");
      assert "" + parts[0] + "" == parts[0];
    } else if k == 0 {
      OccursInMiddle("", parts[0], sep + JoinToString(parts[1..], sep));
      assert "" + parts[0] + (sep + JoinToString(parts[1..], sep)) == JoinToString(parts, sep);
    } else {
      JoinShowsPart(parts[1..], sep, k - 1);
      OccursInMiddle(parts[0] + sep, JoinToString(parts[1..], sep), "");
      assert parts[0] + sep + JoinToString(parts[1..], sep) + "" == JoinToString(parts, sep);
      OccursTransitive(parts[k], JoinToString(parts[1..], sep), JoinToString(parts, sep));
    }
  }

  /** A clone command spells out the token it was given. */
  lemma CloneCommandShowsToken(name: string, token: string)
    ensures Occurs(token, JoinToString(DetermineGitCommand(name, TokenAsParameter(Some(token)), false), " "))
  {
    var tp := TokenAsParameter(Some(token));
    var cmd := DetermineGitCommand(name, tp, false);
    CloneUrlSpelled(name, tp);
    if token == "" {
      assert token == cmd[0][..0];
      JoinShowsPart(cmd, " ", 0);
      OccursInMiddle("", token, cmd[0]);
      assert "" + token + cmd[0] == cmd[0];
      OccursTransitive(token, cmd[0], JoinToString(cmd, " "));
    } else {
      OccursInMiddle(Scheme, token, "@" + Host + "/" + RepoPath(name));
      assert Scheme + token + ("@" + Host + "/" + RepoPath(name)) == cmd[3];
      JoinShowsPart(cmd, " ", 3);
      OccursTransitive(token, cmd[3], JoinToString(cmd, " "));
    }
  }
}
