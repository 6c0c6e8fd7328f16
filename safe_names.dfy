/**
 * `safe_name` (layla.py:100): the layer name title-cased, with every `_`
 * removed. It names the template's resources.
 */
module SafeNames {
  import opened Strings

  /** `safe_name` (layla.py:100): the title-cased layer name without `_`. */
  function SafeName(layerName: string): (r: string)
    ensures '_' !in r
    ensures |r| == |layerName| - Count(layerName, '_')
  {
    TitleKeepsUnderscores(layerName);
    Remove(Title(layerName), '_')
  }

  lemma {:induction false} TitleKeepsUnderscoresAfter(s: string, previousIsCased: bool)
    ensures Count(TitleAfter(s, previousIsCased), '_') == Count(s, '_')
    ensures forall i :: 0 <= i < |s| ==> (TitleAfter(s, previousIsCased)[i] == '_' <==> s[i] == '_')
  {
    if s != [] {
      TitleKeepsUnderscoresAfter(s[1..], IsCased(s[0]));
      var t := TitleAfter(s, previousIsCased);
      assert t[1..] == TitleAfter(s[1..], IsCased(s[0]));
    }
  }

  /** Title-casing neither creates nor removes `_`. */
  lemma TitleKeepsUnderscores(s: string)
    ensures Count(Title(s), '_') == Count(s, '_')
    ensures forall i :: 0 <= i < |s| ==> (Title(s)[i] == '_' <==> s[i] == '_')
  {
    TitleKeepsUnderscoresAfter(s, false);
  }

  /** Ignoring case, the safe name is the layer name without `_`. */
  lemma SafeNameCaseless(layerName: string)
    ensures LowerAll(SafeName(layerName)) == Remove(LowerAll(layerName), '_')
  {
    LowerAllRemove(Title(layerName), '_');
    LowerAllTitle(layerName);
  }

  /** Character `i` of the layer name, unless it is `_`, lands at position
      `i` minus the `_` before it, title-cased: upper-case exactly when it is
      a letter that starts the name or follows a non-letter of the layer name
      (a dropped `_` included). */
  lemma SafeNameAt(layerName: string, i: nat)
    requires i < |layerName| && layerName[i] != '_'
    ensures var k := i - Count(layerName[..i], '_');
      && 0 <= k < |SafeName(layerName)|
      && SafeName(layerName)[k] == Title(layerName)[i]
      && ToLower(SafeName(layerName)[k]) == ToLower(layerName[i])
      && (IsUpper(SafeName(layerName)[k]) <==> IsCased(layerName[i]) && (i == 0 || !IsCased(layerName[i - 1])))
  {
    var t := Title(layerName);
    assert SafeName(layerName) == Remove(t, '_');
    assert t[i] != '_' && Count(t[..i], '_') == Count(layerName[..i], '_') by {
      TitleKeepsUnderscores(layerName);
      CountAgree(t[..i], layerName[..i], '_');
    }
    RemoveAt(t, '_', i);
    TitleAt(layerName, i);
  }

  /** The name used when none is given (layla.py:168): `-` is kept and
      starts a new word. */
  lemma SafeNameDefault()
    ensures SafeName("hello-world") == "Hello-World"
  {
    TitleOf("hello-world", "Hello-World");
    RemoveAbsent("Hello-World", '_');
  }

  /** `_` ends a word: the words on either side are title-cased on their
      own and joined without it. */
  lemma SafeNameWords(a: string, b: string)
    ensures SafeName(a + "_" + b) == SafeName(a) + SafeName(b)
  {
    TitleWords(a, b);
    RemoveWords(Title(a), Title(b));
  }

  /** title() treats `_` as a word boundary. */
  lemma TitleWords(a: string, b: string)
    ensures Title(a + "_" + b) == Title(a) + "_" + Title(b)
  {
    var u := "_";
    assert a + u + b == a + (u + b);
    TitleAfterAppend(a, u + b, false);
    var p := if a == [] then false else IsCased(a[|a| - 1]);
    TitleAfterAppend(u, b, p);
    assert TitleAfter(u, p) == u;
  }

  lemma RemoveWords(x: string, y: string)
    ensures Remove(x + "_" + y, '_') == Remove(x, '_') + Remove(y, '_')
  {
    RemoveSeparator(x, y, '_');
  }

  lemma RemoveSeparator(x: string, y: string, c: char)
    ensures Remove(x + [c] + y, c) == Remove(x, c) + Remove(y, c)
  {
    calc {
      Remove(x + [c] + y, c);
      { RemoveAppend(x + [c], y, c); }
      Remove(x + [c], c) + Remove(y, c);
      { RemoveAppend(x, [c], c); assert Remove([c], c) == []; assert Remove(x, c) + [] == Remove(x, c); }
      Remove(x, c) + Remove(y, c);
    }
  }

  /** A name with `_`: both words are capitalised and `_` is dropped. */
  lemma SafeNameUnderscore()
    ensures SafeName("hello_world") == "HelloWorld"
  {
    SafeNameTwoWords();
    assert "hello" + "_" + "world" == "hello_world";
    assert "Hello" + "World" == "HelloWorld";
  }

  lemma SafeNameTwoWords()
    ensures SafeName("hello" + "_" + "world") == "Hello" + "World"
  {
    calc {
      SafeName("hello" + "_" + "world");
      { SafeNameWords("hello", "world"); }
      SafeName("hello") + SafeName("world");
      { SafeNameCapitalised("hello"); SafeNameCapitalised("world"); }
      ([ToUpper('h')] + "hello"[1..]) + ([ToUpper('w')] + "world"[1..]);
      "Hello" + "World";
    }
  }

  /** Lower-case letters only. */
  predicate AllLower(s: string) {
    s == [] || (IsLower(s[0]) && AllLower(s[1..]))
  }

  lemma {:induction false} AllLowerAt(s: string, i: nat)
    requires AllLower(s) && i < |s|
    ensures IsLower(s[i])
  {
    if i > 0 {
      AllLowerAt(s[1..], i - 1);
    }
  }

  /** A word of lower-case letters gets its first letter capitalised. */
  lemma SafeNameCapitalised(s: string)
    requires s != [] && AllLower(s)
    ensures SafeName(s) == [ToUpper(s[0])] + s[1..]
  {
    var t := [ToUpper(s[0])] + s[1..];
    forall i | 0 <= i < |s|
      ensures t[i] == if i > 0 && IsCased(s[i - 1]) then ToLower(s[i]) else ToUpper(s[i])
    {
      if i > 0 {
        AllLowerAt(s, i - 1);
        AllLowerAt(s, i);
        assert IsCased(s[i - 1]) && t[i] == s[i];
      }
    }
    assert '_' !in s by {
      forall i | 0 <= i < |s| ensures s[i] != '_' { AllLowerAt(s, i); }
    }
    SafeNameWord(s, t);
  }

  /** A word without `_` is title-cased and nothing more. */
  lemma SafeNameWord(s: string, t: string)
    requires '_' !in s && |s| == |t|
    requires forall i :: 0 <= i < |s| ==> t[i] == if i > 0 && IsCased(s[i - 1]) then ToLower(s[i]) else ToUpper(s[i])
    ensures SafeName(s) == t
  {
    TitleOf(s, t);
    assert SafeName(s) == Remove(t, '_');
    TitleKeepsUnderscores(s);
    RemoveAbsent(t, '_');
  }

  lemma TitleOf(s: string, t: string)
    requires |s| == |t|
    requires forall i :: 0 <= i < |s| ==> t[i] == if i > 0 && IsCased(s[i - 1]) then ToLower(s[i]) else ToUpper(s[i])
    ensures Title(s) == t
  {
    forall i | 0 <= i < |s| ensures Title(s)[i] == t[i] {
      TitleAt(s, i);
    }
  }

  /** A layer name without whitespace gives a safe name without whitespace:
      every character of the safe name is one of the layer name, perhaps
      with its case changed. */
  lemma SafeNameVisible(layerName: string)
    requires forall i :: 0 <= i < |layerName| ==> !IsSpace(layerName[i])
    ensures forall k :: 0 <= k < |SafeName(layerName)| ==> !IsSpace(SafeName(layerName)[k])
  {
    var t := Title(layerName);
    forall k | 0 <= k < |SafeName(layerName)| ensures !IsSpace(SafeName(layerName)[k]) {
      RemoveFrom(t, '_', k);
      var i :| 0 <= i < |t| && t[i] == SafeName(layerName)[k];
      TitleAt(layerName, i);
    }
  }
}
