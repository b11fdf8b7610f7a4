/** Parsing an env file: each line of the form `KEY=VALUE` contributes one
    property, applied in file order into a mapping from key to value. */
module EnvFile {
  import opened Wrappers
  import opened Text

  /** One property read from a line: the trimmed text before the first `=`
      and the trimmed text after it. */
  datatype Entry = Entry(key: string, value: string)

  /** A comment line starts with `#` at its very first character; leading
      whitespace is not skipped. */
  predicate IsComment(line: string) {
    |line| > 0 && line[0] == '#'
  }

  /** A line contributes a property exactly when it is not blank, is not a
      comment and contains a `=` separator. */
  predicate IsPropertyLine(line: string) {
    !IsBlank(line) && !IsComment(line) && '=' in line
  }

  /** The property a line contributes, if any: one exactly for property
      lines. How the line is split is stated by `ParseLineSplitsAtFirst`. */
  function ParseLine(line: string): (r: Option<Entry>)
    ensures r.Some? <==> IsPropertyLine(line)
  {
    if IsBlank(line) || IsComment(line) then None
    else
      match IndexOf(line, '=')
      case None => None
      case Some(i) => Some(Entry(Trim(line[..i]), Trim(line[i + 1..])))
  }

  /** A property line is split at its first `=`, so the value keeps every
      later `=`; key and value are both trimmed, and the key may come out
      empty. */
  lemma ParseLineSplitsAtFirst(line: string, i: nat)
    requires IsPropertyLine(line)
    requires i < |line| && line[i] == '=' && '=' !in line[..i]
    ensures ParseLine(line) == Some(Entry(Trim(line[..i]), Trim(line[i + 1..])))
  {
    IndexOfFirst(line, '=', i);
  }

  /** Line `line` is a property line whose key is `k`. */
  predicate DefinesKey(line: string, k: string) {
    ParseLine(line).Some? && ParseLine(line).value.key == k
  }

  /** Entry `i` of `entries` is present and has key `k`. */
  predicate EntryAt(entries: seq<Option<Entry>>, k: string, i: int) {
    0 <= i < |entries| && entries[i].Some? && entries[i].value.key == k
  }

  /** Stores one parsed line into the properties: an entry inserts or
      overwrites its own key, and every other key, like every key when
      the line yielded nothing, keeps what it had. */
  function Store(props: map<string, string>, entry: Option<Entry>): (r: map<string, string>)
    ensures forall k :: (Lookup(r, k) ==
      if entry.Some? && entry.value.key == k then Some(entry.value.value) else Lookup(props, k))
  {
    match entry
    case None => props
    case Some(e) => props[e.key := e.value]
  }

  /** Stores parsed lines in order, starting from an empty mapping. */
  function Collect(entries: seq<Option<Entry>>): map<string, string>
    decreases |entries|
  {
    if |entries| == 0 then map[]
    else Store(Collect(entries[..|entries| - 1]), entries[|entries| - 1])
  }

  /** A key is collected exactly when some entry carries it. */
  lemma {:induction false} CollectKeys(entries: seq<Option<Entry>>)
    ensures forall k :: k in Collect(entries) <==> exists i :: EntryAt(entries, k, i)
    decreases |entries|
  {
    if |entries| > 0 {
      var init := entries[..|entries| - 1];
      var last := entries[|entries| - 1];
      CollectKeys(init);
      assert forall k, i :: EntryAt(init, k, i) ==> EntryAt(entries, k, i);
      assert forall k, i :: EntryAt(entries, k, i) && i < |init| ==> EntryAt(init, k, i);
      forall k ensures k in Collect(entries) <==> exists i :: EntryAt(entries, k, i) {
        assert Lookup(Collect(entries), k).Some? <==> (last.Some? && last.value.key == k) || k in Collect(init);
        if last.Some? && last.value.key == k { assert EntryAt(entries, k, |entries| - 1); }
      }
    }
  }

  /** The last entry carrying a key decides its value: earlier entries with
      the same key are overwritten. */
  lemma {:induction false} LastEntryWins(entries: seq<Option<Entry>>, k: string, i: nat)
    requires EntryAt(entries, k, i)
    requires forall j | i < j < |entries| :: !EntryAt(entries, k, j)
    ensures k in Collect(entries)
    ensures Collect(entries)[k] == entries[i].value.value
    decreases |entries|
  {
    var init := entries[..|entries| - 1];
    if i < |entries| - 1 {
      assert !EntryAt(entries, k, |entries| - 1);
      assert EntryAt(init, k, i);
      forall j | i < j < |init| ensures !EntryAt(init, k, j) {
        assert !EntryAt(entries, k, j);
      }
      LastEntryWins(init, k, i);
    }
  }

  /** An absent entry can be removed without changing the result. */
  lemma {:induction false} AbsentEntryIsInert(before: seq<Option<Entry>>, after: seq<Option<Entry>>)
    ensures Collect(before + [None] + after) == Collect(before + after)
    decreases |after|
  {
    var with := before + [None] + after;
    var without := before + after;
    if |after| == 0 {
      assert with[..|with| - 1] == before;
      assert without == before;
    } else {
      var rest := after[..|after| - 1];
      var last := after[|after| - 1];
      assert with[..|with| - 1] == before + [None] + rest && with[|with| - 1] == last;
      assert without[..|without| - 1] == before + rest && without[|without| - 1] == last;
      assert Collect(with) == Store(Collect(before + [None] + rest), last);
      assert Collect(without) == Store(Collect(before + rest), last);
      AbsentEntryIsInert(before, rest);
    }
  }

  /** The lines of a file, each parsed on its own, in file order. */
  function ParseEach(lines: seq<string>): seq<Option<Entry>> {
    seq(|lines|, i requires 0 <= i < |lines| => ParseLine(lines[i]))
  }

  /** The properties read from a whole file: its lines applied in order to
      an empty mapping. */
  function ParseLines(lines: seq<string>): map<string, string> {
    Collect(ParseEach(lines))
  }

  /** Appending a line to a file stores that line's entry on top of what
      the rest of the file yields. */
  lemma ParseLinesSnoc(lines: seq<string>, line: string)
    ensures ParseLines(lines + [line]) == Store(ParseLines(lines), ParseLine(line))
  {
    var all := lines + [line];
    assert ParseEach(all)[..|all| - 1] == ParseEach(lines);
  }

  /** A key is present exactly when some line of the file defines it:
      blank lines, comment lines and lines without `=` never add one. */
  lemma ParseLinesKeys(lines: seq<string>)
    ensures forall k :: k in ParseLines(lines) <==> exists i :: DefinesAt(lines, k, i)
  {
    var entries := ParseEach(lines);
    CollectKeys(entries);
    assert forall k, i :: EntryAt(entries, k, i) <==> DefinesAt(lines, k, i);
  }

  /** Line `i` of `lines` is a property line whose key is `k`. */
  predicate DefinesAt(lines: seq<string>, k: string, i: int) {
    0 <= i < |lines| && DefinesKey(lines[i], k)
  }

  /** The last line that defines a key decides its value: earlier lines
      with the same key are overwritten. */
  lemma LastDefinitionWins(lines: seq<string>, k: string, i: nat)
    requires DefinesAt(lines, k, i)
    requires forall j | i < j < |lines| :: !DefinesAt(lines, k, j)
    ensures k in ParseLines(lines)
    ensures ParseLines(lines)[k] == ParseLine(lines[i]).value.value
  {
    var entries := ParseEach(lines);
    forall j | i < j < |entries| ensures !EntryAt(entries, k, j) {
      assert !DefinesAt(lines, k, j);
    }
    LastEntryWins(entries, k, i);
  }

  /** A line that is not a property line can be removed from a file without
      changing what the file yields. */
  lemma SkippedLineIsInert(before: seq<string>, line: string, after: seq<string>)
    requires !IsPropertyLine(line)
    ensures ParseLines(before + [line] + after) == ParseLines(before + after)
  {
    ParseEachConcat(before, [line]);
    ParseEachConcat(before + [line], after);
    ParseEachConcat(before, after);
    assert ParseEach([line]) == [None];
    AbsentEntryIsInert(ParseEach(before), ParseEach(after));
  }

  /** Parsing two pieces of a file separately and joining the results is
      parsing the joined file. */
  lemma ParseEachConcat(a: seq<string>, b: seq<string>)
    ensures ParseEach(a + b) == ParseEach(a) + ParseEach(b)
  {
    var lhs, rhs := ParseEach(a + b), ParseEach(a) + ParseEach(b);
    forall i | 0 <= i < |a + b| ensures lhs[i] == rhs[i] {
      if i < |a| {
        assert (a + b)[i] == a[i];
      } else {
        assert (a + b)[i] == b[i - |a|];
      }
    }
  }

  /** Serialises an entry as `KEY=VALUE`. */
  function Render(e: Entry): string {
    e.key + "=" + e.value
  }

  /** A line `k=v` whose key part has no `=` and does not start with `#`
      yields the trimmed key and the trimmed value, wherever further `=`
      characters sit in `v`. */
  lemma SplitAtFirstSeparator(k: string, v: string)
    requires '=' !in k
    requires !IsComment(k + "=" + v)
    ensures ParseLine(k + "=" + v) == Some(Entry(Trim(k), Trim(v)))
  {
    var line := k + "=" + v;
    assert line[|k|] == '=';
    assert !IsBlank(line);
    assert line[..|k|] == k;
    assert line[|k| + 1..] == v;
    ParseLineSplitsAtFirst(line, |k|);
  }

  /** Rendering a well-formed entry and parsing it back gives the entry:
      the key is free of `=`, does not start with `#`, and neither key nor
      value carries surrounding whitespace. The empty key qualifies. */
  lemma RenderParseRoundTrip(e: Entry)
    requires '=' !in e.key && (e.key == [] || e.key[0] != '#')
    requires Unpadded(e.key) && Unpadded(e.value)
    ensures ParseLine(Render(e)) == Some(e)
  {
    if e.key != [] {
      assert Render(e)[0] == e.key[0];
    }
    SplitAtFirstSeparator(e.key, e.value);
    TrimUnpadded(e.key);
    TrimUnpadded(e.value);
  }
}
