/** Concrete cases of the loader's behaviour, proved on literal inputs. Each
    line is settled by its own small lemma and the results are assembled
    afterwards, which keeps every proof obligation small. */
module Scenarios {
  import opened Wrappers
  import opened Text
  import opened EnvFile
  import opened EnvLoader

  /** A representative env file: two override keys, a comment, a blank
      line, and a value that itself contains `=`. */
  const SampleLines: seq<string> :=
    ["AUTH0_DOMAIN=example.auth0.com", "APP_SCHEME=myapp", "# comment", "", "FOO=bar=baz"]

  /** What the sample file yields as a whole. */
  const SampleProperties: map<string, string> :=
    map["AUTH0_DOMAIN" := "example.auth0.com", "APP_SCHEME" := "myapp", "FOO" := "bar=baz"]

  /** A line whose first `=` sits at `n`, which does not start with `#`,
      and whose two sides carry no surrounding whitespace yields exactly
      those two sides. */
  lemma ParsesAt(line: string, n: nat)
    requires n < |line| && line[n] == '=' && '=' !in line[..n] && line[0] != '#'
    requires Unpadded(line[..n]) && Unpadded(line[n + 1..])
    ensures ParseLine(line) == Some(Entry(line[..n], line[n + 1..]))
  {
    var k, v := line[..n], line[n + 1..];
    assert line == k + "=" + v;
    SplitAtFirstSeparator(k, v);
    TrimUnpadded(k);
    TrimUnpadded(v);
  }

  lemma SampleDomainLine(line: string)
    requires line == "AUTH0_DOMAIN=example.auth0.com"
    ensures ParseLine(line) == Some(Entry("AUTH0_DOMAIN", "example.auth0.com"))
  {
    assert line[..12] == "AUTH0_DOMAIN" && line[13..] == "example.auth0.com";
    ParsesAt(line, 12);
  }

  lemma SampleSchemeLine(line: string)
    requires line == "APP_SCHEME=myapp"
    ensures ParseLine(line) == Some(Entry("APP_SCHEME", "myapp"))
  {
    assert line[..10] == "APP_SCHEME" && line[11..] == "myapp";
    ParsesAt(line, 10);
  }

  /** The value keeps the second `=`. */
  lemma SampleFooLine(line: string)
    requires line == "FOO=bar=baz"
    ensures ParseLine(line) == Some(Entry("FOO", "bar=baz"))
  {
    assert line[..3] == "FOO" && line[4..] == "bar=baz";
    ParsesAt(line, 3);
  }

  lemma SampleCommentSkipped(line: string)
    requires line == "# comment"
    ensures ParseLine(line) == None
  {
    assert IsComment(line);
  }

  lemma SampleBlankSkipped(line: string)
    requires line == ""
    ensures ParseLine(line) == None
  {
    assert IsBlank(line);
  }

  /** Each sample line applied on top of any earlier lines. */
  lemma DomainStep(before: seq<string>, line: string)
    requires line == "AUTH0_DOMAIN=example.auth0.com"
    ensures ParseLines(before + [line]) == ParseLines(before)["AUTH0_DOMAIN" := "example.auth0.com"]
  {
    SampleDomainLine(line);
    ParseLinesSnoc(before, line);
  }

  lemma SchemeStep(before: seq<string>, line: string)
    requires line == "APP_SCHEME=myapp"
    ensures ParseLines(before + [line]) == ParseLines(before)["APP_SCHEME" := "myapp"]
  {
    SampleSchemeLine(line);
    ParseLinesSnoc(before, line);
  }

  lemma FooStep(before: seq<string>, line: string)
    requires line == "FOO=bar=baz"
    ensures ParseLines(before + [line]) == ParseLines(before)["FOO" := "bar=baz"]
  {
    SampleFooLine(line);
    ParseLinesSnoc(before, line);
  }

  lemma SkipStep(before: seq<string>, line: string)
    requires line == "# comment" || line == ""
    ensures ParseLines(before + [line]) == ParseLines(before)
  {
    if line == "" { SampleBlankSkipped(line); } else { SampleCommentSkipped(line); }
    ParseLinesSnoc(before, line);
  }

  /** The sample file parses to its expected properties. */
  lemma SampleFileParses(lines: seq<string>)
    requires |lines| == 5
    requires lines[0] == "AUTH0_DOMAIN=example.auth0.com" && lines[1] == "APP_SCHEME=myapp"
    requires lines[2] == "# comment" && lines[3] == "" && lines[4] == "FOO=bar=baz"
    ensures ParseLines(lines) == SampleProperties
  {
    var p1, p2, p3, p4 := lines[..1], lines[..2], lines[..3], lines[..4];
    assert p1 == [] + [lines[0]] && p2 == p1 + [lines[1]] && p3 == p2 + [lines[2]];
    assert p4 == p3 + [lines[3]] && lines == p4 + [lines[4]];
    assert ParseLines([]) == map[];
    DomainStep([], lines[0]);
    SchemeStep(p1, lines[1]);
    SkipStep(p2, lines[2]);
    SkipStep(p3, lines[3]);
    FooStep(p4, lines[4]);
  }

  /** The local file is missing and the base file holds the sample lines. */
  lemma SampleFileRead(files: Files)
    requires LocalEnvPath !in files && BaseEnvPath in files && files[BaseEnvPath] == SampleLines
    ensures ReadEnvFile(files) == SampleProperties
  {
    SampleFileParses(files[BaseEnvPath]);
  }

  /** With only the base file present and no overrides set, every property
      line of the file shows up, comment and blank lines do not, and the
      value after the first `=` keeps its second `=`. */
  lemma SampleFileWithoutOverrides(files: Files)
    requires LocalEnvPath !in files && BaseEnvPath in files && files[BaseEnvPath] == SampleLines
    ensures LoadEnv(files, map[]) == SampleProperties
  {
    SampleFileRead(files);
    EmptyEnvironmentKeepsFile(files);
  }

  /** Setting the domain variable replaces the file's domain and leaves the
      other properties alone. */
  lemma SampleFileWithDomainOverride(files: Files, env: Environment)
    requires LocalEnvPath !in files && BaseEnvPath in files && files[BaseEnvPath] == SampleLines
    requires env == map["AUTH0_DOMAIN" := "override.auth0.com"]
    ensures LoadEnv(files, env) == SampleProperties["AUTH0_DOMAIN" := "override.auth0.com"]
  {
    SampleFileRead(files);
    DomainVariableUsable(env);
    DomainOverrideOnSample(files, env);
  }

  lemma DomainVariableUsable(env: Environment)
    requires env == map["AUTH0_DOMAIN" := "override.auth0.com"]
    ensures Auth0DomainKey in env && !IsBlank(env[Auth0DomainKey]) && AppSchemeKey !in env
  {
    assert !IsWhitespace(env[Auth0DomainKey][0]);
  }

  lemma DomainOverrideOnSample(files: Files, env: Environment)
    requires ReadEnvFile(files) == SampleProperties
    requires Auth0DomainKey in env && !IsBlank(env[Auth0DomainKey]) && AppSchemeKey !in env
    ensures LoadEnv(files, env) == SampleProperties[Auth0DomainKey := env[Auth0DomainKey]]
  {
    var expected := SampleProperties[Auth0DomainKey := env[Auth0DomainKey]];
    forall k ensures Lookup(LoadEnv(files, env), k) == Lookup(expected, k) { }
    MapsAgreeEverywhere(LoadEnv(files, env), expected);
  }

  /** A whitespace-only override is ignored: the file's value stays. */
  lemma BlankOverrideIgnored(files: Files, env: Environment)
    requires LocalEnvPath !in files && BaseEnvPath in files && files[BaseEnvPath] == SampleLines
    requires env == map["APP_SCHEME" := "  "]
    ensures Lookup(LoadEnv(files, env), "APP_SCHEME") == Some("myapp")
  {
    SampleFileRead(files);
    SchemeVariableBlank(env);
    SchemeFromSample(files, env);
  }

  lemma SchemeVariableBlank(env: Environment)
    requires env == map["APP_SCHEME" := "  "]
    ensures AppSchemeKey in env && IsBlank(env[AppSchemeKey])
  {
  }

  lemma SchemeFromSample(files: Files, env: Environment)
    requires ReadEnvFile(files) == SampleProperties
    requires AppSchemeKey in env && IsBlank(env[AppSchemeKey])
    ensures Lookup(LoadEnv(files, env), AppSchemeKey) == Some("myapp")
  {
    UnusableEnvKeepsFile(files, env, AppSchemeKey);
  }

  /** An override value is stored verbatim, surrounding spaces included. */
  lemma OverrideNotTrimmed()
    ensures LoadEnv(map[], map["APP_SCHEME" := " app "]) == map["APP_SCHEME" := " app "]
  {
    var env := map["APP_SCHEME" := " app "];
    var expected := map["APP_SCHEME" := " app "];
    assert !IsBlank(" app ") by { assert !IsWhitespace(" app "[1]); }
    forall k ensures Lookup(LoadEnv(map[], env), k) == Lookup(expected, k) { }
    MapsAgreeEverywhere(LoadEnv(map[], env), expected);
  }

  /** With no env file and no overrides the properties are empty, and the
      manifest gets an empty domain and the application identifier as its
      scheme. */
  lemma NothingConfigured()
    ensures LoadEnv(map[], map[]) == map[]
    ensures ManifestPlaceholders(LoadEnv(map[], map[])) == Placeholders("", "com.kin.kin")
  {
    forall k ensures Lookup(LoadEnv(map[], map[]), k) == Lookup(map[], k) { }
    MapsAgreeEverywhere(LoadEnv(map[], map[]), map[]);
  }

  /** A `#` after leading spaces does not make a comment: the line is a
      property whose key starts with `#`. */
  lemma IndentedHashIsNotComment(line: string)
    requires line == "  #a=b"
    ensures ParseLine(line) == Some(Entry("#a", "b"))
  {
    var k, v := line[..4], line[5..];
    IndentedLineShape(line, k, v);
    SplitAtFirstSeparator(k, v);
    IndentedKeyTrims(k);
    TrimUnpadded(v);
  }

  lemma IndentedLineShape(line: string, k: string, v: string)
    requires line == "  #a=b" && k == line[..4] && v == line[5..]
    ensures line == k + "=" + v && !IsComment(line) && '=' !in k
    ensures k == "  #a" && v == "b" && Unpadded(v)
  {
  }

  lemma IndentedKeyTrims(k: string)
    requires k == "  #a"
    ensures Trim(k) == "#a"
  {
    assert k[1..] == " #a";
    assert k[1..][1..] == "#a";
    assert TrimStart(k[1..][1..]) == "#a";
    assert TrimStart(k[1..]) == "#a";
    assert TrimStart(k) == "#a";
    TrimUnpadded("#a");
  }

  /** A line starting with `=` yields the empty key. */
  lemma EmptyKeyAccepted(line: string)
    requires line == "=v"
    ensures ParseLine(line) == Some(Entry("", "v"))
  {
    assert line[..0] == "" && line[1..] == "v";
    ParsesAt(line, 0);
  }

  /** The information separator U+001F counts as whitespace, so trimming
      strips it from the key. */
  lemma SeparatorControlIsTrimmed(line: string)
    requires line == "\U{001F}K=v"
    ensures ParseLine(line) == Some(Entry("K", "v"))
  {
    var k, v := line[..2], line[3..];
    SeparatorLineShape(line, k, v);
    SplitAtFirstSeparator(k, v);
    SeparatorKeyTrims(k);
    TrimUnpadded(v);
  }

  lemma SeparatorLineShape(line: string, k: string, v: string)
    requires line == "\U{001F}K=v" && k == line[..2] && v == line[3..]
    ensures line == k + "=" + v && !IsComment(line) && '=' !in k
    ensures k == "\U{001F}K" && v == "v" && Unpadded(v)
  {
  }

  lemma SeparatorKeyTrims(k: string)
    requires k == "\U{001F}K"
    ensures Trim(k) == "K"
  {
    assert k[1..] == "K";
    assert TrimStart(k[1..]) == "K";
    assert TrimStart(k) == "K";
    TrimUnpadded("K");
  }
}
