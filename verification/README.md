# Env-file loader of the Android build script

A Dafny model of how the Android build script of the app finds its Auth0
settings. `loadEnv()` reads the first env file that exists, trying
`../.env.local` first and then `../.env`. It keeps every `KEY=VALUE` line of
that file and skips blank lines, `#` comments and lines without `=`. A line
is split at its first `=`, and both sides are trimmed. A later line overwrites
an earlier one with the same key. Next, the process environment overrides
`AUTH0_DOMAIN` and `APP_SCHEME` when a variable is set and not blank. Its
value is stored exactly as given. Finally, the Android configuration turns
the result into two manifest placeholders. The domain defaults to the empty
string and the scheme defaults to the application id `com.kin.kin`.

Modules:

- `Wrappers`: `Option` and a map lookup `Lookup` that returns an `Option`.
- `Text`: whitespace as the JVM defines it for Kotlin's `isBlank` and
  `trim`, blankness, trimming and the search for the first occurrence of a
  character.
- `EnvFile`: one line becomes an optional `Entry`, and a file's lines are
  applied in order into a `map<string, string>`.
- `EnvLoader`: the choice of file, the environment overrides, the whole
  `LoadEnv`, step-by-step methods that mirror the script's loops, and the
  manifest placeholders.
- `Scenarios`: concrete inputs. These include a sample file, a blank
  override, an indented `#`, an empty key, a key padded with the ASCII
  separator U+001F, and the case where nothing is configured.

Inputs that are I/O in the script are parameters of the model:

- The filesystem is `Files`, a map from each existing path to its lines. A
  path is in the map exactly when `exists()` would be true.
- The environment is `Environment`, a map from each set variable to its
  value. An unset variable is absent from the map, just as `System.getenv`
  returns null for it.

Where the script's doc comment reads less precisely than its code, the model
follows the code. A comment line is one whose very first character is `#`;
after leading whitespace, `#` is part of the key (`IndentedHashIsNotComment`).
A line whose text before `=` is empty or blank is accepted with the empty key
(`EmptyKeyAccepted`). Environment values are not trimmed
(`OverrideNotTrimmed`).

## Model

| member | source | states |
|---|---|---|
| Text.Trim | android/app/build.gradle.kts:34 | The result has no whitespace at either end and is no longer than the input. |
| Text.TrimKeepsInnerText | android/app/build.gradle.kts:34 | Trimming removes only whitespace from the two ends. The result is a contiguous slice of the input, and everything cut off on either side is blank. |
| Text.TrimEmptyIffBlank | android/app/build.gradle.kts:32 | A string trims to empty exactly when it is blank. Both directions are proved. |
| Text.TrimUnpadded | android/app/build.gradle.kts:34 | A string with no whitespace at either end is unchanged by trimming. |
| Text.TrimIdempotent | android/app/build.gradle.kts:34 | Trimming twice is the same as trimming once. |
| Text.IndexOf | android/app/build.gradle.kts:33 | Finds nothing exactly when the character does not occur. Otherwise it finds a position that holds the character, with no earlier occurrence. |
| Text.IndexOfFirst | android/app/build.gradle.kts:33 | Any occurrence with no earlier one is the position found, so the split point is unique. |
| EnvFile.ParseLine | android/app/build.gradle.kts:32 | A line yields an entry exactly when it is not blank, does not start with `#` at its first character, and contains `=`. |
| EnvFile.ParseLineSplitsAtFirst | android/app/build.gradle.kts:32-34 | An accepted line is split at its first `=`. The entry's key is the trimmed text before it and its value is the trimmed text after it, including any later `=`. |
| EnvFile.SplitAtFirstSeparator | android/app/build.gradle.kts:33-34 | A line `k=v`, where `k` has no `=` and the line does not start with `#`, yields `(trim k, trim v)` whatever `v` contains. |
| EnvFile.RenderParseRoundTrip | android/app/build.gradle.kts:32-34 | Writing an entry as `KEY=VALUE` and parsing it back gives the same entry. This holds whenever the key has no `=` and does not start with `#`, and neither side has surrounding whitespace. The empty key is included. |
| EnvFile.Store | android/app/build.gradle.kts:34 | Storing an entry sets its key to its value and leaves every other key as it was. A skipped line changes nothing. |
| EnvFile.CollectKeys | android/app/build.gradle.kts:31-36 | A key ends up in the collected map exactly when some entry carries it. |
| EnvFile.LastEntryWins | android/app/build.gradle.kts:31-36 | When entries are applied in order, the last entry with a key decides that key's value. |
| EnvFile.AbsentEntryIsInert | android/app/build.gradle.kts:31-36 | Removing an absent entry from the sequence does not change the result. |
| EnvFile.ParseEachConcat | android/app/build.gradle.kts:31-32 | Each line is judged on its own, so parsing two parts of a file and joining the results equals parsing the whole file. |
| EnvFile.ParseLinesSnoc | android/app/build.gradle.kts:31-36 | Appending a line to a file stores that line's entry on top of what the earlier lines yield. |
| EnvFile.ParseLinesKeys | android/app/build.gradle.kts:31-36 | A file yields a key exactly when one of its lines defines it. |
| EnvFile.LastDefinitionWins | android/app/build.gradle.kts:31-36 | The last line defining a key decides its value, and earlier definitions are overwritten. |
| EnvFile.SkippedLineIsInert | android/app/build.gradle.kts:32 | A blank line, a comment line or a line without `=` can be removed from a file without changing what it yields. |
| EnvLoader.FirstExisting | android/app/build.gradle.kts:28-40 | Finds nothing exactly when no candidate exists. Otherwise it returns the lines of an existing candidate with no existing candidate before it. |
| EnvLoader.ReadEnvFile | android/app/build.gradle.kts:23-40 | Uses the local file's properties when that file exists, else the base file's properties when it exists, else no properties. |
| EnvLoader.Override | android/app/build.gradle.kts:42-48 | Each listed key with a set, non-blank environment value takes that value. Every other key is left exactly as it was, including absent keys. |
| EnvLoader.LoadEnv | android/app/build.gradle.kts:20-51 | For the two override keys, a usable environment value wins. Every other lookup answers exactly as the chosen env file does. |
| EnvLoader.EnvOverrideWins | android/app/build.gradle.kts:43-45 | A set, non-blank variable for an override key is stored verbatim, whatever the file says. |
| EnvLoader.UnusableEnvKeepsFile | android/app/build.gradle.kts:43-44 | An unset or blank variable leaves the key as the file had it, whether present or absent. |
| EnvLoader.OtherKeysAsParsed | android/app/build.gradle.kts:42 | Keys other than `AUTH0_DOMAIN` and `APP_SCHEME` are exactly as parsed from the file. |
| EnvLoader.EmptyEnvironmentKeepsFile | android/app/build.gradle.kts:42-48 | With no variables set, the result equals the file's properties. |
| EnvLoader.NoFileOnlyOverrides | android/app/build.gradle.kts:28-48 | With neither file present, the result holds only override keys, and only those with a usable value. |
| EnvLoader.LocalFileShadowsBase | android/app/build.gradle.kts:28-39 | Once the local file exists, the base file's contents and even its existence have no effect, however little the local file defines. |
| EnvLoader.ReadProperties | android/app/build.gradle.kts:31-36 | Reading the lines one at a time into a mutable map gives exactly the file's parsed properties. |
| EnvLoader.ReadEnvFileSteps | android/app/build.gradle.kts:28-40 | Walking the candidates and stopping at the first existing file gives the chosen file's properties. |
| EnvLoader.OverrideSteps | android/app/build.gradle.kts:42-48 | Applying the two keys one after another agrees with the override function. |
| EnvLoader.LoadEnvSteps | android/app/build.gradle.kts:20-51 | The stepwise loader returns the same map as `LoadEnv`. |
| EnvLoader.ManifestPlaceholders | android/app/build.gradle.kts:77-81 | The domain is the loaded `AUTH0_DOMAIN`, or empty when it is absent. The scheme is the loaded `APP_SCHEME`, or `com.kin.kin` when it is absent. |
| EnvLoader.PlaceholderSources | android/app/build.gradle.kts:70-81 | Each placeholder comes first from a usable environment value, then from the chosen file, then from its default. |
| Scenarios.SampleFileParses | android/app/build.gradle.kts:31-36 | A file with two settings, a comment, a blank line and `FOO=bar=baz` yields exactly those three keys, and `FOO` keeps `bar=baz`. |
| Scenarios.SampleFileRead | android/app/build.gradle.kts:23-40 | With only the base file present, its properties are the ones read. |
| Scenarios.SampleFileWithoutOverrides | android/app/build.gradle.kts:20-51 | With no variables set, the sample file's properties are the result. |
| Scenarios.SampleFileWithDomainOverride | android/app/build.gradle.kts:42-48 | Setting `AUTH0_DOMAIN` replaces only the domain. |
| Scenarios.BlankOverrideIgnored | android/app/build.gradle.kts:44 | A whitespace-only `APP_SCHEME` keeps the file's `myapp`. |
| Scenarios.OverrideNotTrimmed | android/app/build.gradle.kts:45 | An environment value with surrounding spaces is stored with its spaces. |
| Scenarios.NothingConfigured | android/app/build.gradle.kts:77-78 | With no file and no variables, the properties are empty, the domain is empty and the scheme is `com.kin.kin`. |
| Scenarios.IndentedHashIsNotComment | android/app/build.gradle.kts:32 | `  #a=b` is a property with key `#a`, not a comment. |
| Scenarios.EmptyKeyAccepted | android/app/build.gradle.kts:32-34 | `=v` yields the empty key with value `v`. |
| Scenarios.SeparatorControlIsTrimmed | android/app/build.gradle.kts:34 | The ASCII separator U+001F counts as whitespace, so `\u001FK=v` yields key `K`. |

## Left out

- Reading files is not modelled. Opening the stream, splitting it into lines (`\n`, `\r\n`, `\r`) and closing it afterwards are replaced by the given sequence of lines. The error the script raises when an existing file cannot be opened is not modelled either.
- Resolving `rootProject.file` against the project directory is left out. Paths are compared as the literal strings `../.env.local` and `../.env`.
- Insertion order is left out. The script's mutable map iterates in insertion order, and nothing in the build depends on that order, so the model uses an unordered `map`.
- The rest of the build script is left out: the plugin, SDK, compile-option, build-type and Flutter blocks configure Gradle and compute nothing from the env file.
