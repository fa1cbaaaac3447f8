/** `load_env_file`: reads `KEY=VALUE` lines of a `.env` file into the
    process environment, which is modelled as a map from names to values. */
module EnvFile {

  import opened Options
  import opened Text

  /** Python's `line.split("=", 1)` on a line holding `=`: the text before
      the first `=` and everything after it. */
  function SplitAtFirstEquals(line: string): (kv: (string, string))
    requires '=' in line
    ensures '=' !in kv.0 && line == kv.0 + "=" + kv.1
  {
    var parts := Split(line, '=');
    JoinSplit(line, '=');
    SplitPieces(line, '=');
    assert |parts| >= 2;
    assert parts[0] in parts;
    (parts[0], Join(parts[1..], '='))
  }

  /** What one line of the file sets: nothing for a blank line, a comment or
      a line without `=`; otherwise the trimmed text before the first `=`
      as the name and the trimmed rest (which may hold more `=`) as the value. */
  function ParseEnvLine(raw: string): (entry: Option<(string, string)>)
    ensures entry.None? <==> var line := Trim(raw); line == [] || line[0] == '#' || '=' !in line
    ensures entry.Some? ==> '=' !in entry.value.0 && Trimmed(entry.value.0) && Trimmed(entry.value.1)
  {
    var line := Trim(raw);
    if line == [] || line[0] == '#' then None
    else if '=' !in line then None
    else
      var kv := SplitAtFirstEquals(line);
      Some((Trim(kv.0), Trim(kv.1)))
  }

  /** A line that sets something sets the trimmed text before its first `=`
      to the trimmed text after it. */
  lemma ParsedLineSplit(raw: string)
    ensures var entry := ParseEnvLine(raw);
            entry.Some? ==> exists a, b :: '=' !in a && Trim(raw) == a + "=" + b
                                           && entry.value == (Trim(a), Trim(b))
  {
    var entry := ParseEnvLine(raw);
    if entry.Some? {
      var kv := SplitAtFirstEquals(Trim(raw));
      assert entry.value == (Trim(kv.0), Trim(kv.1));
    }
  }

  /** Two ways of writing a string as `a=b` with no `=` in `a` agree. */
  lemma SplitFirstUnique(a: string, b: string, a': string, b': string)
    requires '=' !in a && '=' !in a'
    requires a + "=" + b == a' + "=" + b'
    ensures a == a' && b == b'
  {
    var s := a + "=" + b;
    assert forall i :: 0 <= i < |a| ==> s[i] == a[i] != '=';
    assert forall i :: 0 <= i < |a'| ==> s[i] == a'[i] != '=';
    assert s[|a|] == '=' && s[|a'|] == '=';
    assert |a| == |a'|;
    assert a == s[..|a|] == a';
    assert b == s[|a| + 1..] == b';
  }

  /** A line written as `name=value` is read back as that pair, whatever
      the value holds (including further `=`). */
  lemma ParseWrittenLine(name: string, value: string)
    requires name != [] && Trimmed(name) && '=' !in name && name[0] != '#'
    requires Trimmed(value)
    ensures ParseEnvLine(name + "=" + value) == Some((name, value))
  {
    var line := name + "=" + value;
    assert line[0] == name[0];
    assert line[|line| - 1] == if value == [] then '=' else value[|value| - 1];
    assert Trim(line) == line;
    var kv := SplitAtFirstEquals(line);
    SplitFirstUnique(kv.0, kv.1, name, value);
  }

  /** `os.environ[key] = value` for one line, if the line sets anything. */
  function ApplyEnvLine(env: map<string, string>, raw: string): map<string, string> {
    var entry := ParseEnvLine(raw);
    if entry.None? then env else env[entry.value.0 := entry.value.1]
  }

  /** The environment after the lines have been applied in order. */
  function ApplyEnvLines(env: map<string, string>, lines: seq<string>): map<string, string>
    decreases |lines|
  {
    if lines == [] then env
    else ApplyEnvLines(ApplyEnvLine(env, lines[0]), lines[1..])
  }

  /** An independent reading of the file: the value of the LAST line that
      sets `key`, if any. */
  function LastValue(lines: seq<string>, key: string): Option<string> {
    if lines == [] then None
    else
      var entry := ParseEnvLine(lines[|lines| - 1]);
      if entry.Some? && entry.value.0 == key then Some(entry.value.1)
      else LastValue(lines[..|lines| - 1], key)
  }

  lemma {:induction false} ApplyEnvLinesSnoc(env: map<string, string>, lines: seq<string>, raw: string)
    ensures ApplyEnvLines(env, lines + [raw]) == ApplyEnvLine(ApplyEnvLines(env, lines), raw)
    decreases |lines|
  {
    if lines == [] {
      assert [] + [raw] == [raw];
    } else {
      assert (lines + [raw])[1..] == lines[1..] + [raw];
      ApplyEnvLinesSnoc(ApplyEnvLine(env, lines[0]), lines[1..], raw);
    }
  }

  /** After loading, a name has the value of the last line that sets it;
      names no line sets keep their previous value, or stay unset. */
  lemma {:induction false} LastLineWins(env: map<string, string>, lines: seq<string>, key: string)
    ensures var result := ApplyEnvLines(env, lines);
            match LastValue(lines, key)
            case Some(v) => key in result && result[key] == v
            case None => (key in result <==> key in env) && (key in env ==> result[key] == env[key])
    decreases |lines|
  {
    if lines != [] {
      var init, last := lines[..|lines| - 1], lines[|lines| - 1];
      assert lines == init + [last];
      ApplyEnvLinesSnoc(env, init, last);
      LastLineWins(env, init, key);
    }
  }

  /** No line would set an empty name, which the host environment refuses. */
  predicate NoEmptyName(lines: seq<string>) {
    forall raw :: raw in lines && ParseEnvLine(raw).Some? ==> ParseEnvLine(raw).value.0 != []
  }

  /** `load_env_file(path)` with the file's text (`None` when it does not
      exist) and the environment before the call. */
  method LoadEnvFile(file: Option<string>, env: map<string, string>) returns (result: map<string, string>)
    requires file.Some? ==> NoEmptyName(Split(file.value, '\n'))
    ensures file.None? ==> result == env
    ensures file.Some? ==> result == ApplyEnvLines(env, Split(file.value, '\n'))
  {
    result := env;
    if file.None? {
      return;
    }
    var lines := Split(file.value, '\n');
    var i := 0;
    while i < |lines|
      invariant 0 <= i <= |lines|
      invariant ApplyEnvLines(result, lines[i..]) == ApplyEnvLines(env, lines)
    {
      assert lines[i..][1..] == lines[i + 1..];
      var line := Trim(lines[i]);
      if line == [] || line[0] == '#' {
        i := i + 1;
        continue;
      }
      if '=' !in line {
        i := i + 1;
        continue;
      }
      var kv := SplitAtFirstEquals(line);
      result := result[Trim(kv.0) := Trim(kv.1)];
      i := i + 1;
    }
  }
}
