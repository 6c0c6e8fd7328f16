/**
 * Reading the generated texts back: the lines of a text, the value of the
 * first line that starts with a given key, and the resource ids of a
 * CloudFormation template. These are the consumers' view of the scaffold
 * that the lemmas of module Layla relate to the parameters.
 */
module Readers {
  import opened Strings

  /** The lines of a text (`text.split('\n')`). */
  function Lines(text: string): seq<string> {
    Split(text, '\n')
  }

  /** What follows `prefix` on the first line that starts with it. */
  function ValueAfter(lines: seq<string>, prefix: string): Option<string> {
    if lines == [] then None
    else if prefix <= lines[0] then Some(lines[0][|prefix|..])
    else ValueAfter(lines[1..], prefix)
  }

  /** The right-hand side of the setting `key = value` of a TOML text. */
  function Setting(text: string, key: string): Option<string> {
    ValueAfter(Lines(text), key + " = ")
  }

  /** The lines after the first line equal to `header` (none when it is
      missing). */
  function After(lines: seq<string>, header: string): seq<string> {
    if lines == [] then []
    else if lines[0] == header then lines[1..]
    else After(lines[1..], header)
  }

  /** A YAML mapping key one level (four spaces) deep: `    <key>:`. */
  predicate IsNestedKey(line: string) {
    |line| > 5 && line[..4] == "    " && line[4] != ' ' && line[|line| - 1] == ':'
  }

  /** The one-level-deep keys among `lines`, in order. */
  function NestedKeys(lines: seq<string>): seq<string> {
    if lines == [] then []
    else (if IsNestedKey(lines[0]) then [lines[0][4..|lines[0]| - 1]] else []) + NestedKeys(lines[1..])
  }

  /** The logical ids of a template's resources: the keys one level under
      `Resources:`. */
  function ResourceIds(template: string): seq<string> {
    NestedKeys(After(Lines(template), "Resources:"))
  }

  // ---------------------------------------------------------------------------
  // How the readers walk a text made of known runs of lines
  // ---------------------------------------------------------------------------

  /** Line `i` of `lines` differs from `prefix` at position `at[i]` (or is
      too short to reach it), so no line starts with `prefix`. */
  predicate DifferAt(lines: seq<string>, prefix: string, at: seq<nat>) {
    |at| == |lines| &&
    forall i :: 0 <= i < |lines| ==> at[i] < |prefix| && (|lines[i]| <= at[i] || lines[i][at[i]] != prefix[at[i]])
  }

  lemma {:induction false} ValueAfterSkip(a: seq<string>, b: seq<string>, prefix: string, at: seq<nat>)
    requires DifferAt(a, prefix, at)
    ensures ValueAfter(a + b, prefix) == ValueAfter(b, prefix)
  {
    if a != [] {
      assert !(prefix <= a[0]) by {
        if |a[0]| > at[0] { assert a[0][at[0]] != prefix[at[0]]; }
      }
      assert (a + b)[1..] == a[1..] + b;
      ValueAfterSkip(a[1..], b, prefix, at[1..]);
    } else {
      assert a + b == b;
    }
  }

  lemma DifferAtAppend(a: seq<string>, b: seq<string>, prefix: string, atA: seq<nat>, atB: seq<nat>)
    requires DifferAt(a, prefix, atA) && DifferAt(b, prefix, atB)
    ensures DifferAt(a + b, prefix, atA + atB)
  {
    forall i | |a| <= i < |a + b| ensures (a + b)[i] == b[i - |a|] && (atA + atB)[i] == atB[i - |a|] { }
  }

  lemma ValueAfterFirst(line: string, rest: seq<string>, prefix: string, value: string)
    requires line == prefix + value
    ensures ValueAfter([line] + rest, prefix) == Some(value)
  {
    assert ([line] + rest)[0] == line;
    assert line[|prefix|..] == value;
  }

  lemma {:induction false} AfterSkip(a: seq<string>, b: seq<string>, header: string, at: seq<nat>)
    requires DifferAt(a, header, at)
    ensures After(a + b, header) == After(b, header)
  {
    if a != [] {
      assert a[0] != header by {
        if |a[0]| > at[0] { assert a[0][at[0]] != header[at[0]]; }
      }
      assert (a + b)[1..] == a[1..] + b;
      AfterSkip(a[1..], b, header, at[1..]);
    } else {
      assert a + b == b;
    }
  }

  lemma AfterFirst(rest: seq<string>, header: string)
    ensures After([header] + rest, header) == rest
  {
    assert ([header] + rest)[1..] == rest;
  }

  lemma {:induction false} NestedKeysAppend(a: seq<string>, b: seq<string>)
    ensures NestedKeys(a + b) == NestedKeys(a) + NestedKeys(b)
  {
    if a != [] {
      assert (a + b)[1..] == a[1..] + b;
      NestedKeysAppend(a[1..], b);
    } else {
      assert a + b == b;
    }
  }

  /** Lines indented deeper than one level hold no one-level keys. */
  lemma {:induction false} NestedKeysDeeper(lines: seq<string>)
    requires forall i :: 0 <= i < |lines| ==> |lines[i]| > 4 && lines[i][4] == ' '
    ensures NestedKeys(lines) == []
  {
    if lines != [] {
      NestedKeysDeeper(lines[1..]);
    }
  }

  lemma NestedKeyOf(key: string)
    requires |key| > 0 && key[0] != ' '
    ensures IsNestedKey("    " + key + ":")
    ensures ("    " + key + ":")[4..|"    " + key + ":"| - 1] == key
  {
    var line := "    " + key + ":";
    assert line[..4] == "    ";
    assert line[4] == key[0];
  }
}
