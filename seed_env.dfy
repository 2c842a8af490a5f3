/**
 * scripts/seedFirestore.ts, lines 6-26: loading `.env.local` into the process
 * environment before the seed runs. Each line of the form `KEY=VALUE` sets
 * `KEY` unless the environment already holds a non-empty value for it.
 *
 * Reading the file is a parameter: `None` when the file does not exist,
 * otherwise its text.
 */
module SeedEnv {
  import opened Wrappers
  import JsString

  datatype Assignment = Assignment(key: string, value: string)

  /** `value.startsWith('"') && value.endsWith('"') ? value.slice(1, -1) : value`. */
  function Unquote(v: string): (r: string)
    ensures |v| >= 2 && v[0] == '"' && v[|v| - 1] == '"' ==> r == v[1..|v| - 1]
    ensures v == "\"" ==> r == ""
    ensures !(JsString.StartsWith(v, "\"") && JsString.EndsWith(v, "\"")) ==> r == v
  {
    if JsString.StartsWith(v, "\"") && JsString.EndsWith(v, "\"") then JsString.Slice(v, 1, -1) else v
  }

  /** The line matches `/^([^=]+)=(.*)$/`: something before its first `=`, and no line terminator after it. */
  predicate Matches(line: string) {
    var k := JsString.IndexOf(line, '=');
    && 1 <= k < |line|
    && forall j :: k < j < |line| ==> !JsString.IsLineTerminator(line[j])
  }

  /** The assignment a line holds: the trimmed key before the first `=`, and the trimmed, unquoted value after it. */
  function ParseLine(line: string): (r: Option<Assignment>)
    ensures r.Some? <==> Matches(line)
    ensures r.Some? ==>
      var k := JsString.IndexOf(line, '=');
      r.value == Assignment(JsString.Trim(line[..k]), Unquote(JsString.Trim(line[k + 1..])))
  {
    var k := JsString.IndexOf(line, '=');
    if 1 <= k < |line| && forall j :: k < j < |line| ==> !JsString.IsLineTerminator(line[j]) then
      Some(Assignment(JsString.Trim(line[..k]), Unquote(JsString.Trim(line[k + 1..]))))
    else None
  }

  /** A line that ends in a carriage return (a Windows line ending) never matches, since `.` does not match it. */
  lemma CarriageReturnLineSkipped(line: string)
    ensures ParseLine(line + "\r") == None
  {
    var l := line + "\r";
    var k := JsString.IndexOf(l, '=');
    if 1 <= k < |l| {
      assert k < |l| - 1 && JsString.IsLineTerminator(l[|l| - 1]);
    }
  }

  /** Setting a key only when its value is unset or empty. */
  function ApplyLine(env: map<string, string>, line: string): (r: map<string, string>)
    ensures ParseLine(line).None? ==> r == env
    ensures ParseLine(line).Some? ==>
      var a := ParseLine(line).value;
      r == if a.key in env && env[a.key] != "" then env else env[a.key := a.value]
  {
    match ParseLine(line)
    case None => env
    case Some(a) => if a.key in env && env[a.key] != "" then env else env[a.key := a.value]
  }

  /** The environment after the lines, processed in order. */
  function ApplyLines(env: map<string, string>, lines: seq<string>): map<string, string>
    decreases |lines|
  {
    if lines == [] then env else ApplyLine(ApplyLines(env, lines[..|lines| - 1]), lines[|lines| - 1])
  }

  /** A non-empty value, whether preset or loaded, is never overwritten; no key is ever removed. */
  lemma {:induction false} NonEmptySurvives(env: map<string, string>, lines: seq<string>, key: string)
    ensures env.Keys <= ApplyLines(env, lines).Keys
    ensures key in env && env[key] != "" ==> ApplyLines(env, lines)[key] == env[key]
    decreases |lines|
  {
    if lines != [] {
      NonEmptySurvives(env, lines[..|lines| - 1], key);
    }
  }

  /** The first line to give a key a non-empty value, when the environment has none for it, decides that key. */
  lemma FirstNonEmptyWins(env: map<string, string>, first: string, rest: seq<string>)
    requires ParseLine(first).Some? && ParseLine(first).value.value != ""
    requires var key := ParseLine(first).value.key; key !in env || env[key] == ""
    ensures var a := ParseLine(first).value;
      a.key in ApplyLines(env, [first] + rest) && ApplyLines(env, [first] + rest)[a.key] == a.value
  {
    var a := ParseLine(first).value;
    var after := ApplyLine(env, first);
    assert after[a.key] == a.value;
    ApplyLinesFrom(env, first, rest);
    NonEmptySurvives(after, rest, a.key);
  }

  /** Processing one line, then the rest, is processing them all. */
  lemma {:induction false} ApplyLinesFrom(env: map<string, string>, first: string, rest: seq<string>)
    ensures ApplyLines(env, [first] + rest) == ApplyLines(ApplyLine(env, first), rest)
    decreases |rest|
  {
    if rest == [] {
      assert ([first] + rest)[..0] == [];
    } else {
      var all := [first] + rest;
      assert all[..|all| - 1] == [first] + rest[..|rest| - 1];
      ApplyLinesFrom(env, first, rest[..|rest| - 1]);
    }
  }

  class ProcessEnv {
    var vars: map<string, string>

    constructor (initial: map<string, string>)
      ensures vars == initial
    {
      vars := initial;
    }

    /** Lines 6-26 of the seed script: split the file on `\n` and apply each line in order. */
    method LoadEnvLocal(file: Option<string>)
      modifies this
      ensures file.None? ==> vars == old(vars)
      ensures file.Some? ==> vars == ApplyLines(old(vars), JsString.Split(file.value, '\n'))
    {
      if file.None? {
        return;
      }
      var lines := JsString.Split(file.value, '\n');
      ghost var initial := vars;
      var i := 0;
      while i < |lines|
        invariant 0 <= i <= |lines|
        invariant vars == ApplyLines(initial, lines[..i])
      {
        assert lines[..i + 1][..i] == lines[..i];
        assert ApplyLines(initial, lines[..i + 1]) == ApplyLine(vars, lines[i]);
        var m := ParseLine(lines[i]);
        if m.Some? {
          var key := m.value.key;
          if !(key in vars && vars[key] != "") {
            vars := vars[key := m.value.value];
          }
        }
        i := i + 1;
      }
      assert lines[..i] == lines;
    }
  }
}
