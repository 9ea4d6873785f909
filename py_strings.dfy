/** Python's string splitting and joining, as the parsers of this program
    use them: `str.split(sep)` on one character, `sep.join`, and `str.split()`
    on runs of whitespace. */
module PyStrings {

  // ---------------------------------------------------------------------------
  // str.split on one separator character
  // ---------------------------------------------------------------------------

  function Count(s: string, c: char): nat
  {
    if s == [] then 0 else (if s[0] == c then 1 else 0) + Count(s[1..], c)
  }

  /** Python's `s.split(sep)` for a one-character separator: the pieces
      between separators, empty ones included; "" splits into [""]. */
  function SplitOn(s: string, sep: char): (parts: seq<string>)
    ensures |parts| >= 1
  {
    if s == [] then [""]
    else
      var rest := SplitOn(s[1..], sep);
      if s[0] == sep then [""] + rest else [[s[0]] + rest[0]] + rest[1..]
  }

  /** `sep.join(parts)` */
  function JoinOn(parts: seq<string>, sep: char): string
    requires |parts| >= 1
  {
    if |parts| == 1 then parts[0] else parts[0] + [sep] + JoinOn(parts[1..], sep)
  }

  lemma {:induction false} JoinCons(x: string, parts: seq<string>, sep: char)
    requires |parts| >= 1
    ensures JoinOn([x] + parts, sep) == x + [sep] + JoinOn(parts, sep)
  {
    assert ([x] + parts)[1..] == parts;
  }

  lemma {:induction false} JoinPrepend(c: char, parts: seq<string>, sep: char)
    requires |parts| >= 1
    ensures JoinOn([[c] + parts[0]] + parts[1..], sep) == [c] + JoinOn(parts, sep)
  {
    if |parts| > 1 {
      JoinCons([c] + parts[0], parts[1..], sep);
    }
  }

  /** Splitting loses nothing: joining the pieces gives the text back, no
      piece holds the separator, and there is one piece more than there are
      separators. */
  lemma {:induction false} SplitJoin(s: string, sep: char)
    ensures JoinOn(SplitOn(s, sep), sep) == s
    ensures forall i :: 0 <= i < |SplitOn(s, sep)| ==> sep !in SplitOn(s, sep)[i]
    ensures |SplitOn(s, sep)| == Count(s, sep) + 1
  {
    if s != [] {
      var rest := SplitOn(s[1..], sep);
      SplitJoin(s[1..], sep);
      if s[0] == sep {
        JoinCons("", rest, sep);
        assert s == [s[0]] + s[1..];
      } else {
        JoinPrepend(s[0], rest, sep);
        assert s == [s[0]] + s[1..];
        var parts := SplitOn(s, sep);
        forall i | 0 <= i < |parts|
          ensures sep !in parts[i]
        {
          if i > 0 {
            assert parts[i] == rest[i];
          }
        }
      }
    }
  }

  lemma {:induction false} SplitPrepend(c: char, s: string, sep: char)
    requires c != sep
    ensures SplitOn([c] + s, sep) == [[c] + SplitOn(s, sep)[0]] + SplitOn(s, sep)[1..]
  {
    assert ([c] + s)[1..] == s;
  }

  lemma {:induction false} SplitAppendSep(a: string, b: string, sep: char)
    requires sep !in a
    ensures SplitOn(a + [sep] + b, sep) == [a] + SplitOn(b, sep)
  {
    if a == [] {
      assert a + [sep] + b == [sep] + b;
      assert ([sep] + b)[1..] == b;
    } else {
      SplitAppendSep(a[1..], b, sep);
      assert a + [sep] + b == [a[0]] + (a[1..] + [sep] + b);
      SplitPrepend(a[0], a[1..] + [sep] + b, sep);
      assert a == [a[0]] + a[1..];
    }
  }

  lemma {:induction false} SplitPlain(a: string, sep: char)
    requires sep !in a
    ensures SplitOn(a, sep) == [a]
  {
    if a != [] {
      SplitPlain(a[1..], sep);
      SplitPrepend(a[0], a[1..], sep);
      assert a == [a[0]] + a[1..];
    }
  }

  /** The other direction: pieces free of the separator are recovered by
      splitting their join. */
  lemma {:induction false} JoinSplit(parts: seq<string>, sep: char)
    requires |parts| >= 1
    requires forall i :: 0 <= i < |parts| ==> sep !in parts[i]
    ensures SplitOn(JoinOn(parts, sep), sep) == parts
  {
    if |parts| == 1 {
      SplitPlain(parts[0], sep);
    } else {
      JoinSplit(parts[1..], sep);
      SplitAppendSep(parts[0], JoinOn(parts[1..], sep), sep);
      assert parts == [parts[0]] + parts[1..];
    }
  }

  /** A text without the separator does not split. */
  lemma SplitNone(s: string, sep: char)
    requires sep !in s
    ensures |SplitOn(s, sep)| == 1
  {
    SplitJoin(s, sep);
    CountAbsent(s, sep);
  }

  /** A text whose first separator sits at k splits into the text before it
      and the pieces of the text after it. */
  lemma SplitAtFirst(s: string, sep: char, k: nat)
    requires k < |s| && s[k] == sep && sep !in s[..k]
    ensures SplitOn(s, sep) == [s[..k]] + SplitOn(s[k + 1..], sep)
  {
    assert s == s[..k] + [sep] + s[k + 1..];
    SplitAppendSep(s[..k], s[k + 1..], sep);
  }

  /** ... and the text after it splits again exactly when it holds the
      separator too. */
  lemma SplitAgain(s: string, sep: char)
    ensures sep !in s ==> SplitOn(s, sep) == [s]
    ensures sep in s ==> |SplitOn(s, sep)| >= 2
  {
    if sep !in s {
      SplitPlain(s, sep);
    } else {
      SplitJoin(s, sep);
      CountPresent(s, sep);
    }
  }

  lemma {:induction false} CountAbsent(s: string, c: char)
    requires c !in s
    ensures Count(s, c) == 0
  {
    if s != [] {
      assert c !in s[1..];
      CountAbsent(s[1..], c);
    }
  }

  lemma {:induction false} CountPresent(s: string, c: char)
    requires c in s
    ensures Count(s, c) >= 1
  {
    if s[0] != c {
      assert c in s[1..];
      CountPresent(s[1..], c);
    }
  }

  // ---------------------------------------------------------------------------
  // str.split() on whitespace
  // ---------------------------------------------------------------------------

  /** The characters str.split() breaks on: Python's Unicode whitespace,
      which takes in the ASCII controls 9..13 and 28..31 besides the space. */
  predicate IsSpace(c: char)
  {
    '\U{9}' <= c <= '\U{d}' || '\U{1c}' <= c <= ' ' || c == '\U{85}' || c == '\U{a0}' ||
    c == '\U{1680}' || '\U{2000}' <= c <= '\U{200a}' || c == '\U{2028}' || c == '\U{2029}' ||
    c == '\U{202f}' || c == '\U{205f}' || c == '\U{3000}'
  }

  predicate NoSpace(w: string)
  {
    forall i :: 0 <= i < |w| ==> !IsSpace(w[i])
  }

  /** The words of `s` after the partial word `word` already read. */
  function WordsFrom(s: string, word: string): seq<string>
    decreases |s|
  {
    if s == [] then (if word == [] then [] else [word])
    else if IsSpace(s[0]) then (if word == [] then [] else [word]) + WordsFrom(s[1..], [])
    else WordsFrom(s[1..], word + [s[0]])
  }

  /** `s.split()`: the maximal runs of non-whitespace, in order. */
  function Words(s: string): seq<string>
  {
    WordsFrom(s, [])
  }

  /** Every word is non-empty and holds no whitespace. */
  lemma {:induction false} WordsFromSpec(s: string, word: string)
    requires NoSpace(word)
    ensures forall i :: 0 <= i < |WordsFrom(s, word)| ==>
      WordsFrom(s, word)[i] != [] && NoSpace(WordsFrom(s, word)[i])
    decreases |s|
  {
    if s != [] {
      if IsSpace(s[0]) {
        WordsFromSpec(s[1..], []);
      } else {
        WordsFromSpec(s[1..], word + [s[0]]);
      }
    }
  }

  lemma WordsSpec(s: string)
    ensures forall i :: 0 <= i < |Words(s)| ==> Words(s)[i] != [] && NoSpace(Words(s)[i])
  {
    WordsFromSpec(s, []);
  }

  /** Reading a word to its end: a run of non-space characters followed by
      the end of the text or a space completes the partial word. */
  lemma {:induction false} WordsFromRun(word: string, run: string, rest: string)
    requires NoSpace(run) && (rest == [] || IsSpace(rest[0]))
    ensures WordsFrom(run + rest, word) == WordsFrom(rest, word + run)
    decreases |run|
  {
    if run != [] {
      assert (run + rest)[1..] == run[1..] + rest;
      WordsFromRun(word + [run[0]], run[1..], rest);
      assert word + [run[0]] + run[1..] == word + run;
    } else {
      assert run + rest == rest && word + run == word;
    }
  }

  /** Words separated by single spaces are split back into those words. */
  lemma {:induction false} WordsOfJoin(ws: seq<string>)
    requires |ws| >= 1
    requires forall i :: 0 <= i < |ws| ==> ws[i] != [] && NoSpace(ws[i])
    ensures Words(JoinOn(ws, ' ')) == ws
  {
    if |ws| == 1 {
      WordsFromRun([], ws[0], []);
      assert ws[0] + [] == ws[0];
      assert [] + ws[0] == ws[0];
    } else {
      var rest := JoinOn(ws[1..], ' ');
      WordsOfJoin(ws[1..]);
      assert JoinOn(ws, ' ') == ws[0] + ([' '] + rest);
      WordsFromRun([], ws[0], [' '] + rest);
      assert [] + ws[0] == ws[0];
      assert ([' '] + rest)[1..] == rest;
      assert ws == [ws[0]] + ws[1..];
    }
  }
}
