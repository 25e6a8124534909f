/**
 * The word and character counter of the notes editor. The buffer text is a
 * sequence of Unicode code points; a word is a maximal run of characters
 * that are not white space.
 */
module Notes {

  /**
   * `g_unichar_isspace`: tab, line feed, carriage return and form feed, and
   * every character of the Unicode categories Zs (space separator), Zl (line
   * separator) and Zp (paragraph separator). Vertical tab is not included.
   */
  predicate IsSpace(c: char)
  {
    c == '\t' || c == '\n' || c == '\r' || c == '\U{000C}'
    || c == ' ' || c == '\U{00A0}' || c == '\U{1680}'
    || ('\U{2000}' <= c <= '\U{200A}')
    || c == '\U{2028}' || c == '\U{2029}'
    || c == '\U{202F}' || c == '\U{205F}' || c == '\U{3000}'
  }

  /** A word starts at index `i`: a non-space character at the start or after a space. */
  predicate WordStartsAt(s: string, i: int)
  {
    0 <= i < |s| && !IsSpace(s[i]) && (i == 0 || IsSpace(s[i - 1]))
  }

  /** The word count as the loop computes it, one character at a time. */
  function Words(s: string): nat
  {
    if s == [] then 0
    else Words(s[..|s| - 1]) + (if WordStartsAt(s, |s| - 1) then 1 else 0)
  }

  /** The positions at which a word starts: one per maximal run of non-space characters. */
  function WordStarts(s: string): set<int>
  {
    set i | 0 <= i < |s| && WordStartsAt(s, i)
  }

  /** Extending the text does not move the words already in it. */
  lemma WordStartsSnoc(s: string, c: char, i: int)
    requires 0 <= i < |s|
    ensures WordStartsAt(s + [c], i) == WordStartsAt(s, i)
  {
    assert (s + [c])[i] == s[i];
    if i > 0 {
      assert (s + [c])[i - 1] == s[i - 1];
    }
  }

  /** The count is the number of word starts, that is, the number of maximal runs of non-space characters. */
  lemma {:induction false} WordsAreRuns(s: string)
    ensures Words(s) == |WordStarts(s)|
  {
    if s != [] {
      var init := s[..|s| - 1];
      var c := s[|s| - 1];
      assert s == init + [c];
      WordsAreRuns(init);
      forall i | 0 <= i < |init|
        ensures WordStartsAt(s, i) == WordStartsAt(init, i)
      {
        WordStartsSnoc(init, c, i);
      }
      var extra := if WordStartsAt(s, |init|) then {|init|} else {};
      assert WordStarts(s) == WordStarts(init) + extra;
      assert |init| !in WordStarts(init);
    }
  }

  /** Adding one character: a space never adds a word; a non-space adds one exactly when it starts a run. */
  lemma WordsSnoc(s: string, c: char)
    ensures IsSpace(c) ==> Words(s + [c]) == Words(s)
    ensures !IsSpace(c) && (s == [] || IsSpace(s[|s| - 1])) ==> Words(s + [c]) == Words(s) + 1
    ensures !IsSpace(c) && s != [] && !IsSpace(s[|s| - 1]) ==> Words(s + [c]) == Words(s)
  {
    assert (s + [c])[..|s|] == s;
  }

  /** Text made only of white space has no words. */
  lemma {:induction false} AllSpaceNoWords(s: string)
    requires forall i :: 0 <= i < |s| ==> IsSpace(s[i])
    ensures Words(s) == 0
  {
    if s != [] {
      AllSpaceNoWords(s[..|s| - 1]);
    }
  }

  /** There are never more words than characters. */
  lemma {:induction false} WordsAtMostChars(s: string)
    ensures Words(s) <= |s|
  {
    if s != [] {
      WordsAtMostChars(s[..|s| - 1]);
    }
  }

  /**
   * Joining two texts adds their counts, less one when the join glues the
   * last word of the first to the first word of the second.
   */
  lemma {:induction false} WordsConcat(a: string, b: string)
    ensures Words(a + b) ==
      Words(a) + Words(b) - (if a != [] && b != [] && !IsSpace(a[|a| - 1]) && !IsSpace(b[0]) then 1 else 0)
    decreases |b|
  {
    if b == [] {
      assert a + b == a;
    } else {
      var init := b[..|b| - 1];
      var c := b[|b| - 1];
      assert b == init + [c];
      assert a + b == (a + init) + [c];
      WordsConcat(a, init);
      WordsSnoc(a + init, c);
      WordsSnoc(init, c);
      if init != [] {
        assert (a + init)[|a + init| - 1] == init[|init| - 1];
        assert b[0] == init[0];
      } else {
        assert a + init == a;
      }
    }
  }

  /**
   * `update_word_count`: `chars` is the number of characters; `words`
   * counts the characters that start a word, with `inWord` recording whether
   * the previous character was part of one.
   */
  method CountWords(text: string) returns (words: nat, chars: nat)
    ensures words == Words(text) && chars == |text|
    ensures words == |WordStarts(text)|
  {
    chars := |text|;
    words := 0;
    var inWord := false;
    var i := 0;
    while i < |text|
      invariant 0 <= i <= |text|
      invariant words == Words(text[..i])
      invariant inWord <==> i > 0 && !IsSpace(text[i - 1])
    {
      var c := text[i];
      assert text[..i + 1] == text[..i] + [c];
      WordsSnoc(text[..i], c);
      if IsSpace(c) {
        inWord := false;
      } else if !inWord {
        inWord := true;
        words := words + 1;
      }
      i := i + 1;
    }
    assert text[..i] == text;
    WordsAreRuns(text);
  }
}
