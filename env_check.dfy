/** The deployment's environment checks: which of the required Appwrite variables are
    missing, reading a variable with a default, and whether the Appwrite client can be
    configured. The process environment is a map from names to values. */
module EnvCheck {
  import opened Common

  type Env = map<string, string>

  const Endpoint: string := "NEXT_PUBLIC_APPWRITE_ENDPOINT"
  const Project: string := "NEXT_PUBLIC_APPWRITE_PROJECT"
  const DatabaseId: string := "NEXT_PUBLIC_APPWRITE_DATABASE_ID"

  const Required: seq<string> := [Endpoint, Project, DatabaseId]

  /** Only whitespace, or nothing at all. */
  predicate Blank(s: string) {
    forall i :: 0 <= i < |s| ==> IsSpace(s[i])
  }

  /** `!value || value.trim() === ''`. */
  predicate IsMissing(env: Env, name: string) {
    name !in env || env[name] == "" || Trim(env[name]) == ""
  }

  /** The missing names among `names`, in order. */
  function MissingOf(names: seq<string>, env: Env): (r: seq<string>)
    ensures |r| <= |names|
  {
    if names == [] then []
    else
      var last := names[|names| - 1];
      MissingOf(names[..|names| - 1], env) + (if IsMissing(env, last) then [last] else [])
  }

  /** `validateEnvironmentVariables`: collect the missing names, and warn when there are
      any. It only warns: there is no failing outcome. */
  method ValidateEnvironmentVariables(env: Env) returns (missing: seq<string>, warned: bool)
    ensures missing == MissingOf(Required, env)
    ensures warned <==> missing != []
  {
    missing := [];
    for i := 0 to |Required|
      invariant missing == MissingOf(Required[..i], env)
    {
      var name := Required[i];
      assert Required[..i + 1][..i] == Required[..i];
      if name !in env || env[name] == "" || Trim(env[name]) == "" {
        missing := missing + [name];
      }
    }
    assert Required[..|Required|] == Required;
    warned := |missing| > 0;
  }

  lemma {:induction false} TrimStartBlank(s: string)
    ensures TrimStart(s) == "" <==> Blank(s)
  {
    if s != [] && IsSpace(s[0]) {
      TrimStartBlank(s[1..]);
      assert Blank(s) <==> Blank(s[1..]) by {
        if Blank(s[1..]) {
          forall i | 0 <= i < |s| ensures IsSpace(s[i]) {
            if i > 0 {
              assert s[i] == s[1..][i - 1];
            }
          }
        }
      }
    }
  }

  lemma {:induction false} TrimEndBlank(s: string)
    ensures TrimEnd(s) == "" <==> Blank(s)
  {
    if s != [] && IsSpace(s[|s| - 1]) {
      var init := s[..|s| - 1];
      TrimEndBlank(init);
      assert Blank(s) <==> Blank(init) by {
        if Blank(init) {
          forall i | 0 <= i < |s| ensures IsSpace(s[i]) {
            if i < |s| - 1 {
              assert s[i] == init[i];
            }
          }
        }
      }
    }
  }

  /** A value trims to nothing exactly when it is only whitespace. */
  lemma TrimBlank(s: string)
    ensures Trim(s) == "" <==> Blank(s)
  {
    var t := TrimStart(s);
    TrimStartBlank(s);
    TrimEndBlank(t);
    if t != "" {
      assert !IsSpace(t[0]);
    }
  }

  /** The missing names are exactly the required ones that are unset or only
      whitespace. */
  lemma {:induction false} MissingMembers(names: seq<string>, env: Env, x: string)
    ensures x in MissingOf(names, env) <==> x in names && (x !in env || Blank(env[x]))
  {
    if names != [] {
      var init := names[..|names| - 1];
      var last := names[|names| - 1];
      MissingMembers(init, env, x);
      assert names == init + [last];
      if x in env {
        TrimBlank(env[x]);
      }
    }
  }

  /** Missing names keep their order: checking a list in two parts gives the two
      results joined. */
  lemma {:induction false} MissingAppend(a: seq<string>, b: seq<string>, env: Env)
    ensures MissingOf(a + b, env) == MissingOf(a, env) + MissingOf(b, env)
    decreases |b|
  {
    if b == [] {
      assert a + b == a;
      AppendEmpty(MissingOf(a, env));
    } else {
      var init := b[..|b| - 1];
      var last := b[|b| - 1];
      assert (a + b)[..|a + b| - 1] == a + init;
      MissingAppend(a, init, env);
      AppendAssoc(MissingOf(a, env), MissingOf(init, env), if IsMissing(env, last) then [last] else []);
    }
  }

  /** `getEnvVar`: the value when it is set and non-empty, the default otherwise. */
  function GetEnvVar(env: Env, name: string, defaultValue: string): (r: string)
    ensures name in env && env[name] != "" ==> r == env[name]
    ensures name !in env || env[name] == "" ==> r == defaultValue
  {
    if name in env && env[name] != "" then env[name] else defaultValue
  }

  /** `isAppwriteConfigured`. */
  function IsAppwriteConfigured(env: Env): (ok: bool)
    ensures ok <==> Endpoint in env && env[Endpoint] != "" && Project in env && env[Project] != ""
  {
    var endpoint := GetEnvVar(env, Endpoint, "");
    var project := GetEnvVar(env, Project, "");
    endpoint != "" && project != ""
  }

  /** The database id plays no part in being configured. */
  lemma ConfiguredIgnoresDatabase(env: Env, v: string)
    ensures IsAppwriteConfigured(env[DatabaseId := v]) == IsAppwriteConfigured(env)
  {
    var e := env[DatabaseId := v];
    assert Endpoint in e <==> Endpoint in env;
    assert Project in e <==> Project in env;
  }

  /** When nothing is missing the client is configured. */
  lemma NothingMissingConfigured(env: Env)
    requires MissingOf(Required, env) == []
    ensures IsAppwriteConfigured(env)
  {
    MissingMembers(Required, env, Endpoint);
    MissingMembers(Required, env, Project);
    assert Endpoint in Required && Project in Required;
  }

  /** The converse fails: whitespace-only values count as configured and as missing. */
  lemma WhitespaceConfiguredYetMissing()
    ensures var env := map[Endpoint := " ", Project := " "];
      IsAppwriteConfigured(env) && MissingOf(Required, env) == Required
  {
    var env := map[Endpoint := " ", Project := " "];
    assert Trim(" ") == "";
    assert Required[..2][..1] == [Endpoint];
    assert Required[..1][..0] == [];
    assert Required[..|Required| - 1] == Required[..2];
    assert Required[..2][..|Required[..2]| - 1] == Required[..1];
    assert MissingOf(Required[..1], env) == [Endpoint];
    assert MissingOf(Required[..2], env) == [Endpoint, Project];
  }
}
