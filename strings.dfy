/**
 * The Python `str` operations that LayLa relies on, over `seq<char>`:
 * `strip()`, `sep.join(parts)`, `s.split(sep)`, `title()` and
 * `replace(c, '')`. Each is defined the way CPython computes it, except that
 * `title()` cases ASCII letters only, and each is paired
 * with the lemmas that say what it means (strip removes exactly the
 * surrounding whitespace, split and join are inverse, title decides case from
 * the previous character).
 */
module Strings {

  datatype Option<T> = None | Some(value: T)

  // ---------------------------------------------------------------------------
  // Whitespace and strip()
  // ---------------------------------------------------------------------------

  /** Python's `str.isspace()` on one character: the ASCII controls TAB..CR and
      FS..US, SPACE, and the Unicode space separators and line separators. */
  predicate IsSpace(c: char) {
    c == ' ' || '\t' <= c <= '\r' || '\U{1c}' <= c <= '\U{1f}' ||
    c == '\U{85}' || c == '\U{a0}' || c == '\U{1680}' || '\U{2000}' <= c <= '\U{200a}' ||
    c == '\U{2028}' || c == '\U{2029}' || c == '\U{202f}' || c == '\U{205f}' || c == '\U{3000}'
  }

  predicate AllSpace(s: string) {
    forall i :: 0 <= i < |s| ==> IsSpace(s[i])
  }

  /** Neither end of `s` is whitespace (what `strip()` returns). */
  predicate Trimmed(s: string) {
    s == [] || (!IsSpace(s[0]) && !IsSpace(s[|s| - 1]))
  }

  /** `lstrip()`: drops the leading whitespace, keeps a suffix of `s`. */
  function TrimStart(s: string): (r: string)
    ensures |r| <= |s| && r == s[|s| - |r|..]
    ensures r == [] || !IsSpace(r[0])
    ensures AllSpace(s[..|s| - |r|])
  {
    if s != [] && IsSpace(s[0]) then
      var r := TrimStart(s[1..]);
      SuffixOfTail(s, r);
      SpaceCons(s, |s| - |r|);
      r
    else s
  }

  /** `rstrip()`: drops the trailing whitespace, keeps a prefix of `s`. */
  function TrimEnd(s: string): (r: string)
    ensures |r| <= |s| && r == s[..|r|]
    ensures r == [] || !IsSpace(r[|r| - 1])
    ensures AllSpace(s[|r|..])
  {
    if s != [] && IsSpace(s[|s| - 1]) then
      var r := TrimEnd(s[..|s| - 1]);
      SpaceSnoc(s, |r|);
      r
    else s
  }

  lemma SuffixOfTail<T>(s: seq<T>, r: seq<T>)
    requires s != [] && |r| < |s| && r == s[1..][|s| - 1 - |r|..]
    ensures r == s[|s| - |r|..]
  {
  }

  lemma SpaceCons(s: string, k: nat)
    requires 0 < k <= |s| && IsSpace(s[0]) && AllSpace(s[1..][..k - 1])
    ensures AllSpace(s[..k])
  {
    forall i | 0 < i < k ensures IsSpace(s[..k][i]) {
      assert s[..k][i] == s[1..][..k - 1][i - 1];
    }
  }

  lemma SpaceSnoc(s: string, k: nat)
    requires k < |s| && IsSpace(s[|s| - 1]) && AllSpace(s[..|s| - 1][k..])
    ensures AllSpace(s[k..])
  {
    forall i | 0 <= i < |s| - 1 - k ensures IsSpace(s[k..][i]) {
      assert s[k..][i] == s[..|s| - 1][k..][i];
    }
  }

  /** Python's `str.strip()` with no argument. */
  function Strip(s: string): (r: string)
    ensures |r| <= |s|
    ensures Trimmed(r)
    ensures r == [] <==> AllSpace(s)
  {
    var t := TrimStart(s);
    var r := TrimEnd(t);
    assert r != [] ==> r[0] == t[0];
    assert r == [] ==> t[|r|..] == t;
    assert t != [] ==> t[0] == s[|s| - |t|];
    assert t == [] ==> s[..|s| - |t|] == s;
    r
  }

  lemma {:induction false} TrimStartPadded(lead: string, t: string)
    requires AllSpace(lead)
    requires t == [] || !IsSpace(t[0])
    ensures TrimStart(lead + t) == t
  {
    if lead != [] {
      assert (lead + t)[1..] == lead[1..] + t;
      TrimStartPadded(lead[1..], t);
    } else {
      assert lead + t == t;
    }
  }

  lemma {:induction false} TrimEndPadded(t: string, trail: string)
    requires AllSpace(trail)
    requires t == [] || !IsSpace(t[|t| - 1])
    ensures TrimEnd(t + trail) == t
  {
    if trail != [] {
      assert (t + trail)[..|t + trail| - 1] == t + trail[..|trail| - 1];
      TrimEndPadded(t, trail[..|trail| - 1]);
    } else {
      assert t + trail == t;
    }
  }

  /** A text that neither starts nor ends with whitespace is its own strip. */
  lemma StripTrimmed(s: string)
    requires Trimmed(s)
    ensures Strip(s) == s
  {
    StripUnique([], s, []);
    assert [] + s + [] == s;
  }

  /** `strip()` returns exactly the trimmed core of a text that is that core
      surrounded by whitespace: the result does not depend on how much
      whitespace there was. */
  lemma {:induction false} StripUnique(lead: string, core: string, trail: string)
    requires AllSpace(lead) && AllSpace(trail) && Trimmed(core)
    ensures Strip(lead + core + trail) == core
  {
    var s := lead + core + trail;
    if core == [] {
      assert s == lead + trail;
      assert AllSpace(s) by {
        forall i | 0 <= i < |s| ensures IsSpace(s[i]) {
          if i < |lead| { assert s[i] == lead[i]; } else { assert s[i] == trail[i - |lead|]; }
        }
      }
    } else {
      assert s == lead + (core + trail);
      TrimStartPadded(lead, core + trail);
      TrimEndPadded(core, trail);
    }
  }

  /** Every text is its `strip()` surrounded by whitespace. */
  lemma StripParts(s: string) returns (lead: string, trail: string)
    ensures AllSpace(lead) && AllSpace(trail)
    ensures s == lead + Strip(s) + trail
  {
    var t := TrimStart(s);
    var r := TrimEnd(t);
    lead, trail := s[..|s| - |t|], t[|r|..];
    Pieces(s, t, r);
  }

  /** Appending to a non-empty sequence keeps its head and appends to its tail. */
  lemma ConsAppend<T>(m: seq<T>, x: seq<T>)
    requires m != []
    ensures (m + x)[0] == m[0] && (m + x)[1..] == m[1..] + x
    ensures [m[0]] + (m[1..] + x) == m + x
  {
  }

  /** A prefix and what follows it make up the whole. */
  lemma PrefixRest<T>(p: seq<T>, s: seq<T>)
    requires p <= s
    ensures s == p + s[|p|..]
  {
    assert p == s[..|p|];
  }

  lemma PrefixTrans<T>(a: seq<T>, b: seq<T>, c: seq<T>)
    requires a <= b && b <= c
    ensures a <= c
  {
    assert forall j :: 0 <= j < |a| ==> a[j] == b[j];
  }

  /** A suffix `t` of `s` and a prefix `r` of `t` cut `s` in three. */
  lemma Pieces<T>(s: seq<T>, t: seq<T>, r: seq<T>)
    requires |t| <= |s| && t == s[|s| - |t|..]
    requires |r| <= |t| && r == t[..|r|]
    ensures s == s[..|s| - |t|] + r + t[|r|..]
  {
    assert s == s[..|s| - |t|] + t;
    assert t == r + t[|r|..];
  }

  lemma Regroup<T>(a: seq<T>, b: seq<T>, c: seq<T>, d: seq<T>, e: seq<T>)
    ensures a + (b + c + d) + e == (a + b) + c + (d + e)
  {
  }

  lemma AllSpaceAppend(a: string, b: string)
    requires AllSpace(a) && AllSpace(b)
    ensures AllSpace(a + b)
  {
    assert forall i :: |a| <= i < |a + b| ==> (a + b)[i] == b[i - |a|];
  }

  /** Whitespace added around a text never changes its `strip()`. */
  lemma StripPadded(lead: string, s: string, trail: string)
    requires AllSpace(lead) && AllSpace(trail)
    ensures Strip(lead + s + trail) == Strip(s)
  {
    var l, t := StripParts(s);
    var core := Strip(s);
    AllSpaceAppend(lead, l);
    AllSpaceAppend(t, trail);
    Regroup(lead, l, core, t, trail);
    StripUnique(lead + l, core, t + trail);
  }

  // ---------------------------------------------------------------------------
  // join() and split()
  // ---------------------------------------------------------------------------

  /** Number of occurrences of `c` in `s`. */
  function Count(s: string, c: char): (n: nat)
    ensures n <= |s|
    ensures n == 0 <==> c !in s
  {
    if s == [] then 0 else (if s[0] == c then 1 else 0) + Count(s[1..], c)
  }

  /** Python's `sep.join(parts)` for a one-character separator. */
  function Join(parts: seq<string>, sep: char): (r: string)
    ensures parts != [] ==> parts[0] <= r
  {
    if parts == [] then []
    else if |parts| == 1 then parts[0]
    else parts[0] + [sep] + Join(parts[1..], sep)
  }

  /** Python's `s.split(sep)` for a one-character separator: the pieces between
      the separators, always at least one (the empty text gives `[""]`). */
  function Split(s: string, sep: char): (r: seq<string>)
    ensures |r| == Count(s, sep) + 1
    ensures forall i :: 0 <= i < |r| ==> sep !in r[i]
  {
    if s == [] then [[]]
    else
      var rest := Split(s[1..], sep);
      if s[0] == sep then [[]] + rest
      else
        assert forall i :: 1 <= i < |rest| ==> ([[s[0]] + rest[0]] + rest[1..])[i] == rest[i];
        [[s[0]] + rest[0]] + rest[1..]
  }

  /** Joining the pieces of a split gives back the text. */
  lemma {:induction false} JoinSplit(s: string, sep: char)
    ensures Join(Split(s, sep), sep) == s
  {
    if s != [] {
      var rest := Split(s[1..], sep);
      JoinSplit(s[1..], sep);
      if s[0] == sep {
        assert Split(s, sep) == [[]] + rest;
        assert ([[]] + rest)[1..] == rest;
      } else {
        var parts := [[s[0]] + rest[0]] + rest[1..];
        assert Split(s, sep) == parts;
        if |rest| == 1 {
          assert Join(rest, sep) == rest[0];
        } else {
          assert parts[1..] == rest[1..];
          assert Join(rest, sep) == rest[0] + [sep] + Join(rest[1..], sep);
        }
      }
    }
  }

  /** How `split` treats the first character. */
  lemma SplitCons(c: char, t: string, sep: char)
    ensures Split([c] + t, sep) ==
      if c == sep then [[]] + Split(t, sep) else [[c] + Split(t, sep)[0]] + Split(t, sep)[1..]
  {
    assert ([c] + t)[1..] == t;
  }

  /** Splitting at a separator splits the two sides independently. */
  lemma {:induction false} SplitAppend(a: string, b: string, sep: char)
    ensures Split(a + [sep] + b, sep) == Split(a, sep) + Split(b, sep)
  {
    if a == [] {
      assert a + [sep] + b == [sep] + b;
      SplitCons(sep, b, sep);
    } else {
      var c, a' := a[0], a[1..];
      assert a == [c] + a';
      assert a + [sep] + b == [c] + (a' + [sep] + b);
      SplitAppend(a', b, sep);
      SplitCons(c, a' + [sep] + b, sep);
      SplitCons(c, a', sep);
      var ra, rb := Split(a', sep), Split(b, sep);
      if c == sep {
        Regroup2([[]], ra, rb);
      } else {
        HeadTail([c] + ra[0], ra, rb);
      }
    }
  }

  lemma Regroup2<T>(x: seq<T>, y: seq<T>, z: seq<T>)
    ensures x + (y + z) == (x + y) + z
  {
  }

  lemma HeadTail<T>(h: T, x: seq<T>, y: seq<T>)
    requires x != []
    ensures (x + y)[0] == x[0]
    ensures [h] + (x + y)[1..] == ([h] + x[1..]) + y
  {
    assert (x + y)[1..] == x[1..] + y;
  }

  /** A text without the separator splits into itself alone. */
  lemma {:induction false} SplitWhole(a: string, sep: char)
    requires sep !in a
    ensures Split(a, sep) == [a]
  {
    if a != [] {
      assert a[1..] == a[1..];
      assert sep !in a[1..] by { assert forall i :: 0 <= i < |a| - 1 ==> a[1..][i] == a[i + 1]; }
      SplitWhole(a[1..], sep);
      assert [a[0]] + a[1..] == a;
    }
  }

  /** Splitting a join gives back the parts, in order and with repetitions,
      when no part holds the separator. */
  lemma {:induction false} SplitJoin(parts: seq<string>, sep: char)
    requires parts != []
    requires forall i :: 0 <= i < |parts| ==> sep !in parts[i]
    ensures Split(Join(parts, sep), sep) == parts
  {
    if |parts| == 1 {
      SplitWhole(parts[0], sep);
    } else {
      SplitJoin(parts[1..], sep);
      SplitAppend(parts[0], Join(parts[1..], sep), sep);
      SplitWhole(parts[0], sep);
      assert [parts[0]] + parts[1..] == parts;
    }
  }

  /** Joining two non-empty runs of parts puts one separator between them. */
  lemma {:induction false} JoinAppend(a: seq<string>, b: seq<string>, sep: char)
    requires a != [] && b != []
    ensures Join(a + b, sep) == Join(a, sep) + [sep] + Join(b, sep)
  {
    if |a| == 1 {
      assert (a + b)[1..] == b;
    } else {
      assert (a + b)[1..] == a[1..] + b;
      JoinAppend(a[1..], b, sep);
    }
  }

  /** A part put in front of a non-empty join is followed by one separator. */
  lemma JoinCons(x: string, parts: seq<string>, sep: char)
    requires parts != []
    ensures Join([x] + parts, sep) == x + [sep] + Join(parts, sep)
  {
    assert ([x] + parts)[1..] == parts;
  }

  /** Parts put around a non-empty join are each set off by one separator. */
  lemma JoinThree(x: string, parts: seq<string>, y: string, sep: char)
    requires parts != []
    ensures Join([x] + parts + [y], sep) == x + [sep] + Join(parts, sep) + [sep] + y
  {
    JoinAppend([x] + parts, [y], sep);
    JoinCons(x, parts, sep);
  }

  /** An empty part at either end of a join becomes a lone separator. */
  lemma JoinBlankEnds(parts: seq<string>, sep: char)
    requires parts != []
    ensures Join([""] + parts + [""], sep) == [sep] + Join(parts, sep) + [sep]
  {
    var j := Join(parts, sep);
    JoinThree("", parts, "", sep);
    assert "" + [sep] + j + [sep] + "" == [sep] + j + [sep];
  }

  /** Text put before the first part of a join stands before the whole join. */
  lemma {:induction false} JoinPrefixed(p: string, parts: seq<string>, sep: char)
    requires parts != []
    ensures Join([p + parts[0]] + parts[1..], sep) == p + Join(parts, sep)
  {
    var q := [p + parts[0]] + parts[1..];
    if |parts| > 1 {
      assert q[1..] == parts[1..];
    }
  }

  /** The first character of a join is that of its first part, when non-empty. */
  lemma {:induction false} JoinFirst(parts: seq<string>, sep: char)
    requires parts != [] && parts[0] != []
    ensures Join(parts, sep) != [] && Join(parts, sep)[0] == parts[0][0]
  {
  }

  /** The last character of a join is that of its last part, when non-empty. */
  lemma {:induction false} JoinLast(parts: seq<string>, sep: char)
    requires parts != [] && parts[|parts| - 1] != []
    ensures var j := Join(parts, sep); j != [] && j[|j| - 1] == parts[|parts| - 1][|parts[|parts| - 1]| - 1]
  {
    if |parts| > 1 {
      assert parts[1..][|parts| - 2] == parts[|parts| - 1];
      JoinLast(parts[1..], sep);
    }
  }

  // ---------------------------------------------------------------------------
  // replace(c, '')
  // ---------------------------------------------------------------------------

  /** Python's `s.replace(c, '')` for one character `c`: every `c` removed. */
  function Remove(s: string, c: char): (r: string)
    ensures c !in r
    ensures |r| == |s| - Count(s, c)
  {
    if s == [] then [] else (if s[0] == c then [] else [s[0]]) + Remove(s[1..], c)
  }

  /** Counting in a non-empty prefix counts its first character, then the
      rest of the prefix. */
  lemma CountPrefix(s: string, c: char, i: nat)
    requires 0 < i <= |s|
    ensures Count(s[..i], c) == (if s[0] == c then 1 else 0) + Count(s[1..][..i - 1], c)
  {
    assert s[..i][1..] == s[1..][..i - 1];
  }

  lemma {:induction false} RemoveAt(s: string, c: char, i: nat)
    requires i < |s| && s[i] != c
    ensures Count(s[..i], c) <= i
    ensures i - Count(s[..i], c) < |Remove(s, c)|
    ensures Remove(s, c)[i - Count(s[..i], c)] == s[i]
  {
    var h := if s[0] == c then [] else [s[0]];
    var t := s[1..];
    var rest := Remove(t, c);
    assert Remove(s, c) == h + rest;
    if i == 0 {
      assert s[..i] == [];
    } else {
      var n := Count(t[..i - 1], c);
      CountPrefix(s, c, i);
      RemoveAt(t, c, i - 1);
      assert i - Count(s[..i], c) == |h| + (i - 1 - n);
      calc {
        Remove(s, c)[i - Count(s[..i], c)];
        (h + rest)[|h| + (i - 1 - n)];
        { IndexAfter(h, rest, i - 1 - n); }
        rest[i - 1 - n];
        t[i - 1];
      }
    }
  }

  lemma IndexAfter<T>(h: seq<T>, rest: seq<T>, j: nat)
    requires j < |rest|
    ensures (h + rest)[|h| + j] == rest[j]
  {
  }

  /** A text without `c` is left alone. */
  lemma {:induction false} RemoveAbsent(s: string, c: char)
    requires c !in s
    ensures Remove(s, c) == s
  {
    if s != [] {
      RemoveAbsent(s[1..], c);
    }
  }

  /** Removal works piece by piece. */
  lemma {:induction false} RemoveAppend(a: string, b: string, c: char)
    ensures Remove(a + b, c) == Remove(a, c) + Remove(b, c)
  {
    if a != [] {
      assert (a + b)[1..] == a[1..] + b;
      RemoveAppend(a[1..], b, c);
    } else {
      assert a + b == b;
    }
  }

  /** Every character of the result was a character of `s`. */
  lemma {:induction false} RemoveFrom(s: string, c: char, k: nat)
    requires k < |Remove(s, c)|
    ensures Remove(s, c)[k] in s
  {
    if s[0] == c {
      RemoveFrom(s[1..], c, k);
    } else if k > 0 {
      RemoveFrom(s[1..], c, k - 1);
    }
  }

  /** Texts with `c` at the same positions hold it equally often. */
  lemma {:induction false} CountAgree(a: string, b: string, c: char)
    requires |a| == |b|
    requires forall i :: 0 <= i < |a| ==> (a[i] == c <==> b[i] == c)
    ensures Count(a, c) == Count(b, c)
  {
    if a != [] {
      CountAgree(a[1..], b[1..], c);
    }
  }

  // ---------------------------------------------------------------------------
  // Case and title()
  // ---------------------------------------------------------------------------

  predicate IsUpper(c: char) { 'A' <= c <= 'Z' }
  predicate IsLower(c: char) { 'a' <= c <= 'z' }

  /** A cased character in the sense of `str.title()`, restricted to ASCII. */
  predicate IsCased(c: char) { IsUpper(c) || IsLower(c) }

  function ToUpper(c: char): (r: char)
    ensures IsCased(c) ==> IsUpper(r)
    ensures !IsCased(c) ==> r == c
  {
    if IsLower(c) then (c as int - 'a' as int + 'A' as int) as char else c
  }

  function ToLower(c: char): (r: char)
    ensures IsCased(c) ==> IsLower(r)
    ensures !IsCased(c) ==> r == c
  {
    if IsUpper(c) then (c as int - 'A' as int + 'a' as int) as char else c
  }

  /** Lower-cases every character (used to compare names ignoring case). */
  function LowerAll(s: string): (r: string)
    ensures |r| == |s|
    ensures forall i :: 0 <= i < |s| ==> r[i] == ToLower(s[i])
  {
    if s == [] then [] else [ToLower(s[0])] + LowerAll(s[1..])
  }

  /** `str.title()` from a given state: `previousIsCased` says whether the
      character before `s` was cased. */
  function TitleAfter(s: string, previousIsCased: bool): (r: string)
    ensures |r| == |s|
  {
    if s == [] then []
    else [if previousIsCased then ToLower(s[0]) else ToUpper(s[0])] + TitleAfter(s[1..], IsCased(s[0]))
  }

  /** Python's `str.title()` on ASCII case: a cased character is upper-cased
      when it starts the text or follows an uncased character, and lower-cased
      otherwise; uncased characters (digits, `-`, `_`, ...) are kept. */
  function Title(s: string): (r: string)
    ensures |r| == |s|
  {
    TitleAfter(s, false)
  }

  lemma {:induction false} TitleAfterAt(s: string, previousIsCased: bool, i: nat)
    requires i < |s|
    ensures TitleAfter(s, previousIsCased)[i] ==
      if (if i == 0 then previousIsCased else IsCased(s[i - 1])) then ToLower(s[i]) else ToUpper(s[i])
  {
    if i > 0 {
      TitleAfterAt(s[1..], IsCased(s[0]), i - 1);
      if i > 1 { assert s[1..][i - 2] == s[i - 1]; }
    }
  }

  /** What `title()` does to the character at position `i`: the case depends
      only on whether the character before it is a letter. */
  lemma TitleAt(s: string, i: nat)
    requires i < |s|
    ensures Title(s)[i] == if i > 0 && IsCased(s[i - 1]) then ToLower(s[i]) else ToUpper(s[i])
    ensures IsUpper(Title(s)[i]) <==> IsCased(s[i]) && (i == 0 || !IsCased(s[i - 1]))
    ensures IsLower(Title(s)[i]) <==> IsCased(s[i]) && i > 0 && IsCased(s[i - 1])
    ensures !IsCased(s[i]) ==> Title(s)[i] == s[i]
    ensures ToLower(Title(s)[i]) == ToLower(s[i])
  {
    TitleAfterAt(s, false, i);
  }

  /** `title()` works piece by piece, each piece continuing from the case of
      the character before it. */
  lemma {:induction false} TitleAfterAppend(a: string, b: string, previousIsCased: bool)
    ensures TitleAfter(a + b, previousIsCased) ==
      TitleAfter(a, previousIsCased) + TitleAfter(b, if a == [] then previousIsCased else IsCased(a[|a| - 1]))
  {
    if a != [] {
      assert (a + b)[1..] == a[1..] + b;
      TitleAfterAppend(a[1..], b, IsCased(a[0]));
    } else {
      assert a + b == b;
    }
  }

  /** Title-casing changes only case: both sides lower-case alike. */
  lemma LowerAllTitle(s: string)
    ensures LowerAll(Title(s)) == LowerAll(s)
  {
    forall i | 0 <= i < |s| ensures LowerAll(Title(s))[i] == LowerAll(s)[i] {
      TitleAt(s, i);
    }
  }

  /** Removing an uncased character commutes with lower-casing. */
  lemma {:induction false} LowerAllRemove(s: string, c: char)
    requires !IsCased(c)
    ensures LowerAll(Remove(s, c)) == Remove(LowerAll(s), c)
  {
    if s != [] {
      LowerAllRemove(s[1..], c);
      assert LowerAll(s)[1..] == LowerAll(s[1..]);
      var head := if s[0] == c then [] else [s[0]];
      LowerAllAppend(head, Remove(s[1..], c));
    }
  }

  lemma LowerAllAppend(a: string, b: string)
    ensures LowerAll(a + b) == LowerAll(a) + LowerAll(b)
  {
  }

  /** `title()` is idempotent: title-casing twice changes nothing more. */
  lemma TitleIdempotent(s: string)
    ensures Title(Title(s)) == Title(s)
  {
    var t := Title(s);
    forall i | 0 <= i < |s| ensures Title(t)[i] == t[i] {
      TitleAt(s, i);
      TitleAt(t, i);
      if i > 0 { TitleAt(s, i - 1); }
    }
  }
}
