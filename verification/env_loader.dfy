/** The loader as a whole: pick the first existing env file, parse it, then
    let two fixed keys be overridden from the process environment, and
    derive the two manifest placeholders from the result.

    The filesystem and the environment are explicit inputs: `Files` maps
    the path of every existing file to its lines, and `Environment` maps
    each set variable to its value. */
module EnvLoader {
  import opened Wrappers
  import opened Text
  import opened EnvFile

  /** Existing files by path, each given as its lines in order. */
  type Files = map<string, seq<string>>

  /** Process environment variables that are set, by name. */
  type Environment = map<string, string>

  const LocalEnvPath: string := "../.env.local"
  const BaseEnvPath: string := "../.env"

  /** Candidate env files, in priority order. */
  const EnvFilePaths: seq<string> := [LocalEnvPath, BaseEnvPath]

  const Auth0DomainKey: string := "AUTH0_DOMAIN"
  const AppSchemeKey: string := "APP_SCHEME"

  /** The only keys the environment may override, in the order applied. */
  const OverrideKeys: seq<string> := [Auth0DomainKey, AppSchemeKey]

  /** The application identifier, which is also the default URL scheme. */
  const ApplicationId: string := "com.kin.kin"

  /** The lines of the first path in `paths` that exists; later paths are
      not looked at once one exists, however little it contains. */
  function FirstExisting(files: Files, paths: seq<string>): (r: Option<seq<string>>)
    ensures r.None? <==> forall i | 0 <= i < |paths| :: paths[i] !in files
    ensures r.Some? ==>
      exists i :: 0 <= i < |paths| && paths[i] in files && r.value == files[paths[i]]
                  && forall j | 0 <= j < i :: paths[j] !in files
  {
    if |paths| == 0 then None
    else if paths[0] in files then Some(files[paths[0]])
    else
      var r := FirstExisting(files, paths[1..]);
      assert forall i | 1 <= i < |paths| :: paths[i] == paths[1..][i - 1];
      r
  }

  /** The properties of the env file: the local file when it exists, else
      the base file when that exists, else nothing. */
  function ReadEnvFile(files: Files): (props: map<string, string>)
    ensures LocalEnvPath in files ==> props == ParseLines(files[LocalEnvPath])
    ensures LocalEnvPath !in files && BaseEnvPath in files ==> props == ParseLines(files[BaseEnvPath])
    ensures LocalEnvPath !in files && BaseEnvPath !in files ==> props == map[]
  {
    assert EnvFilePaths[0] == LocalEnvPath && EnvFilePaths[1..] == [BaseEnvPath];
    assert FirstExisting(files, [BaseEnvPath]) ==
      if BaseEnvPath in files then Some(files[BaseEnvPath]) else FirstExisting(files, []);
    match FirstExisting(files, EnvFilePaths)
    case None => map[]
    case Some(lines) => ParseLines(lines)
  }

  /** The environment's value for `key` when the variable is set and not
      blank; the value is kept as it is, surrounding whitespace included. */
  function EnvValue(env: Environment, key: string): Option<string> {
    if key in env && !IsBlank(env[key]) then Some(env[key]) else None
  }

  /** Applies the environment to each of `keys` in turn. A key in `keys`
      with a usable environment value takes that value; every other key,
      present or absent, is left as it was. */
  function Override(props: map<string, string>, env: Environment, keys: seq<string>): (r: map<string, string>)
    ensures forall k :: (Lookup(r, k) ==
      if k in keys && EnvValue(env, k).Some? then EnvValue(env, k) else Lookup(props, k))
    decreases |keys|
  {
    if |keys| == 0 then props
    else
      var key := keys[0];
      var next := match EnvValue(env, key)
                  case None => props
                  case Some(v) => props[key := v];
      var r := Override(next, env, keys[1..]);
      assert forall k :: k in keys <==> k == key || k in keys[1..];
      r
  }

  /** The properties the build sees. For the two override keys a usable
      environment value wins; every other key is exactly as parsed from the
      chosen env file. */
  function LoadEnv(files: Files, env: Environment): (props: map<string, string>)
    ensures forall k :: (Lookup(props, k) ==
      if (k == Auth0DomainKey || k == AppSchemeKey) && EnvValue(env, k).Some? then EnvValue(env, k)
      else Lookup(ReadEnvFile(files), k))
  {
    Override(ReadEnvFile(files), env, OverrideKeys)
  }

  /** A set, non-blank environment value for an override key is stored
      verbatim and replaces whatever the file said. */
  lemma EnvOverrideWins(files: Files, env: Environment, k: string)
    requires k == Auth0DomainKey || k == AppSchemeKey
    requires k in env && !IsBlank(env[k])
    ensures k in LoadEnv(files, env) && LoadEnv(files, env)[k] == env[k]
  {
    assert Lookup(LoadEnv(files, env), k) == Some(env[k]);
  }

  /** An unset or blank environment variable leaves the key's entry, or its
      absence, as the file had it. */
  lemma UnusableEnvKeepsFile(files: Files, env: Environment, k: string)
    requires k !in env || IsBlank(env[k])
    ensures k in LoadEnv(files, env) <==> k in ReadEnvFile(files)
    ensures k in ReadEnvFile(files) ==> LoadEnv(files, env)[k] == ReadEnvFile(files)[k]
  {
    assert Lookup(LoadEnv(files, env), k) == Lookup(ReadEnvFile(files), k);
  }

  /** Keys other than the two override keys are exactly as parsed. */
  lemma OtherKeysAsParsed(files: Files, env: Environment, k: string)
    requires k != Auth0DomainKey && k != AppSchemeKey
    ensures k in LoadEnv(files, env) <==> k in ReadEnvFile(files)
    ensures k in ReadEnvFile(files) ==> LoadEnv(files, env)[k] == ReadEnvFile(files)[k]
  {
    assert Lookup(LoadEnv(files, env), k) == Lookup(ReadEnvFile(files), k);
  }

  /** With no environment variables set, the result is the env file's
      properties as parsed. */
  lemma EmptyEnvironmentKeepsFile(files: Files)
    ensures LoadEnv(files, map[]) == ReadEnvFile(files)
  {
    forall k ensures Lookup(LoadEnv(files, map[]), k) == Lookup(ReadEnvFile(files), k) { }
    MapsAgreeEverywhere(LoadEnv(files, map[]), ReadEnvFile(files));
  }

  /** With no env file at all, the properties hold only override keys, and
      exactly those with a usable environment value. */
  lemma NoFileOnlyOverrides(files: Files, env: Environment)
    requires LocalEnvPath !in files && BaseEnvPath !in files
    ensures LoadEnv(files, env).Keys <= {Auth0DomainKey, AppSchemeKey}
    ensures forall k | k in LoadEnv(files, env) :: EnvValue(env, k).Some?
  {
    forall k | k in LoadEnv(files, env)
      ensures (k == Auth0DomainKey || k == AppSchemeKey) && EnvValue(env, k).Some?
    {
      assert Lookup(LoadEnv(files, env), k).Some?;
    }
  }

  /** Once the local env file exists, the base env file never influences
      the result: not its contents, not even whether it exists. This holds
      even when the local file is empty or has no property lines. */
  lemma LocalFileShadowsBase(files: Files, env: Environment, other: seq<string>)
    requires LocalEnvPath in files
    ensures LoadEnv(files[BaseEnvPath := other], env) == LoadEnv(files, env)
    ensures LoadEnv(files - {BaseEnvPath}, env) == LoadEnv(files, env)
  {
    var replaced, removed := files[BaseEnvPath := other], files - {BaseEnvPath};
    assert LocalEnvPath != BaseEnvPath;
    assert ReadEnvFile(replaced) == ReadEnvFile(files);
    assert ReadEnvFile(removed) == ReadEnvFile(files);
    forall k ensures Lookup(LoadEnv(replaced, env), k) == Lookup(LoadEnv(files, env), k) { }
    forall k ensures Lookup(LoadEnv(removed, env), k) == Lookup(LoadEnv(files, env), k) { }
    MapsAgreeEverywhere(LoadEnv(replaced, env), LoadEnv(files, env));
    MapsAgreeEverywhere(LoadEnv(removed, env), LoadEnv(files, env));
  }

  /** Two maps that answer every lookup alike are equal. */
  lemma MapsAgreeEverywhere(a: map<string, string>, b: map<string, string>)
    requires forall k :: Lookup(a, k) == Lookup(b, k)
    ensures a == b
  {
    assert forall k :: k in a <==> Lookup(a, k).Some?;
    assert forall k :: k in b <==> Lookup(b, k).Some?;
  }

  /** Reads a file's lines one by one into a mutable mapping, as the build
      script does; the result is what `ParseLines` describes. */
  method ReadProperties(lines: seq<string>) returns (props: map<string, string>)
    ensures props == ParseLines(lines)
  {
    props := map[];
    var n := 0;
    while n < |lines|
      invariant 0 <= n <= |lines|
      invariant props == Collect(ParseEach(lines)[..n])
    {
      ghost var entries := ParseEach(lines);
      assert entries[..n + 1][..n] == entries[..n];
      assert Collect(entries[..n + 1]) == Store(Collect(entries[..n]), entries[n]);
      var entry := ParseLine(lines[n]);
      assert entry == entries[n];
      match entry {
        case Some(e) => props := props[e.key := e.value];
        case None =>
      }
      n := n + 1;
    }
    assert ParseEach(lines)[..n] == ParseEach(lines);
  }

  /** Walks the candidate files in order, reads the first one that exists
      and stops there. */
  method ReadEnvFileSteps(files: Files) returns (props: map<string, string>)
    ensures props == ReadEnvFile(files)
  {
    props := map[];
    var i := 0;
    while i < |EnvFilePaths|
      invariant 0 <= i <= |EnvFilePaths|
      invariant forall j | 0 <= j < i :: EnvFilePaths[j] !in files
      invariant props == map[]
    {
      var path := EnvFilePaths[i];
      if path in files {
        props := ReadProperties(files[path]);
        break;
      }
      i := i + 1;
    }
  }

  /** Applies each override key in turn to the properties. */
  method OverrideSteps(props0: map<string, string>, env: Environment) returns (props: map<string, string>)
    ensures props == Override(props0, env, OverrideKeys)
  {
    props := props0;
    var n := 0;
    while n < |OverrideKeys|
      invariant 0 <= n <= |OverrideKeys|
      invariant Override(props, env, OverrideKeys[n..]) == Override(props0, env, OverrideKeys)
    {
      var key := OverrideKeys[n];
      assert OverrideKeys[n..][0] == key && OverrideKeys[n..][1..] == OverrideKeys[n + 1..];
      match EnvValue(env, key) {
        case Some(v) => props := props[key := v];
        case None =>
      }
      n := n + 1;
    }
  }

  /** The loader step by step, in the build script's order: read the env
      file, then apply the overrides. */
  method LoadEnvSteps(files: Files, env: Environment) returns (props: map<string, string>)
    ensures props == LoadEnv(files, env)
  {
    props := ReadEnvFileSteps(files);
    props := OverrideSteps(props, env);
  }

  /** The two values written into the manifest. */
  datatype Placeholders = Placeholders(auth0Domain: string, auth0Scheme: string)

  /** Reads the domain (default empty) and the scheme (default the
      application identifier) from the loaded properties. */
  function ManifestPlaceholders(props: map<string, string>): (p: Placeholders)
    ensures Auth0DomainKey in props ==> p.auth0Domain == props[Auth0DomainKey]
    ensures Auth0DomainKey !in props ==> p.auth0Domain == ""
    ensures AppSchemeKey in props ==> p.auth0Scheme == props[AppSchemeKey]
    ensures AppSchemeKey !in props ==> p.auth0Scheme == ApplicationId
  {
    Placeholders(Lookup(props, Auth0DomainKey).ValueOr(""), Lookup(props, AppSchemeKey).ValueOr(ApplicationId))
  }

  /** Where each placeholder comes from, end to end: a usable environment
      value first, then the chosen env file, then the default. */
  lemma PlaceholderSources(files: Files, env: Environment)
    ensures ManifestPlaceholders(LoadEnv(files, env)).auth0Domain ==
      EnvValue(env, Auth0DomainKey).ValueOr(Lookup(ReadEnvFile(files), Auth0DomainKey).ValueOr(""))
    ensures ManifestPlaceholders(LoadEnv(files, env)).auth0Scheme ==
      EnvValue(env, AppSchemeKey).ValueOr(Lookup(ReadEnvFile(files), AppSchemeKey).ValueOr(ApplicationId))
  {
    var props := LoadEnv(files, env);
    assert Lookup(props, Auth0DomainKey) ==
      if EnvValue(env, Auth0DomainKey).Some? then EnvValue(env, Auth0DomainKey)
      else Lookup(ReadEnvFile(files), Auth0DomainKey);
    assert Lookup(props, AppSchemeKey) ==
      if EnvValue(env, AppSchemeKey).Some? then EnvValue(env, AppSchemeKey)
      else Lookup(ReadEnvFile(files), AppSchemeKey);
  }
}
