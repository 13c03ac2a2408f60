// The string rules the derived-memory contract relies on: canonical identifiers
// (validation.go) and whitespace-normalised text (derived_validation.go).
// Text is a sequence of ASCII characters, so a character is a byte.
module Text {
  predicate IsSpace(c: char) {
    c == ' ' || c == '\t' || c == '\n' || c == '\r' || c == 11 as char || c == 12 as char
  }

  ghost predicate IsWord(s: string) {
    s != "" && forall i | 0 <= i < |s| :: !IsSpace(s[i])
  }

  // isCanonicalID: trimmed, non-empty and free of line breaks and tabs.
  predicate IsCanonicalId(s: string) {
    s != "" && !IsSpace(s[0]) && !IsSpace(s[|s| - 1]) &&
    '\r' !in s && '\n' !in s && '\t' !in s
  }

  // The length of the leading run of non-space characters.
  function WordLength(s: string): (n: nat)
    ensures n <= |s|
    ensures forall i | 0 <= i < n :: !IsSpace(s[i])
    ensures n < |s| ==> IsSpace(s[n])
  {
    if s == "" || IsSpace(s[0]) then 0 else 1 + WordLength(s[1..])
  }

  // strings.Fields
  function Fields(s: string): (words: seq<string>)
    ensures forall i | 0 <= i < |words| :: IsWord(words[i])
    decreases |s|
  {
    if s == "" then []
    else if IsSpace(s[0]) then Fields(s[1..])
    else
      var n := WordLength(s);
      [s[..n]] + Fields(s[n..])
  }

  // strings.Join(words, " ")
  function Join(words: seq<string>): string {
    if words == [] then ""
    else if |words| == 1 then words[0]
    else words[0] + " " + Join(words[1..])
  }

  // normalizeDerivedText
  function Normalize(s: string): string {
    Join(Fields(s))
  }

  lemma {:induction false} WordLengthOfWord(w: string, rest: string)
    requires IsWord(w)
    requires rest == "" || IsSpace(rest[0])
    ensures WordLength(w + rest) == |w|
  {
    var s := w + rest;
    assert s[1..] == w[1..] + rest;
    if |w| == 1 {
      assert s[1..] == rest;
    } else {
      WordLengthOfWord(w[1..], rest);
    }
  }

  // Splitting what was joined gives the same words back.
  lemma {:induction false} FieldsJoin(words: seq<string>)
    requires forall i | 0 <= i < |words| :: IsWord(words[i])
    ensures Fields(Join(words)) == words
  {
    if words == [] {
    } else if |words| == 1 {
      WordLengthOfWord(words[0], "");
      assert words[0] + "" == words[0];
      assert words[0][|words[0]|..] == "";
      assert words[0][..|words[0]|] == words[0];
      assert words == [words[0]];
    } else {
      var w, tail := words[0], " " + Join(words[1..]);
      var s := Join(words);
      assert s == w + tail;
      WordLengthOfWord(w, tail);
      assert s[..|w|] == w && s[|w|..] == tail;
      assert tail[1..] == Join(words[1..]);
      FieldsJoin(words[1..]);
      assert words == [w] + words[1..];
    }
  }

  // Normalising is idempotent: the re-check that a committed text is already
  // normalised accepts every text the engine normalised itself.
  lemma NormalizeIdempotent(s: string)
    ensures Normalize(Normalize(s)) == Normalize(s)
  {
    FieldsJoin(Fields(s));
  }

  // Normalising never lengthens a text, so a size limit met before it is met after it.
  lemma {:induction false} NormalizeShrinks(s: string)
    ensures |Normalize(s)| <= |s|
    decreases |s|
  {
    if s == "" {
    } else if IsSpace(s[0]) {
      NormalizeShrinks(s[1..]);
    } else {
      var n := WordLength(s);
      var rest := s[n..];
      assert Fields(s) == [s[..n]] + Fields(rest);
      assert Fields(s)[1..] == Fields(rest);
      if n < |s| {
        assert rest[0] == s[n];
        assert Fields(rest) == Fields(rest[1..]);
        NormalizeShrinks(rest[1..]);
      }
    }
  }

  // A text normalises to nothing exactly when it holds only white space.
  lemma {:induction false} NormalizeEmpty(s: string)
    ensures Normalize(s) == "" <==> forall i | 0 <= i < |s| :: IsSpace(s[i])
    decreases |s|
  {
    if s == "" {
    } else if IsSpace(s[0]) {
      NormalizeEmpty(s[1..]);
      assert forall i | 0 < i < |s| :: s[i] == s[1..][i - 1];
    } else {
      var n := WordLength(s);
      assert Fields(s)[0] == s[..n] && |s[..n]| > 0;
    }
  }

  // ----- the words of a text -----

  ghost predicate AllSpace(s: string) {
    forall i | 0 <= i < |s| :: IsSpace(s[i])
  }

  // After some white space, the first word of the text.
  ghost predicate FirstWord(s: string, gap: nat, n: nat, word: string) {
    && gap + n <= |s| && (forall i | 0 <= i < gap :: IsSpace(s[i])) && s[gap..gap + n] == word && IsWord(word)
    && (gap + n < |s| ==> IsSpace(s[gap + n]))
  }

  // The text is these words, in this order, with white space before, between and behind.
  ghost predicate Spells(s: string, words: seq<string>)
    decreases |words|
  {
    if words == [] then AllSpace(s)
    else exists gap: nat, n: nat :: FirstWord(s, gap, n, words[0]) && Spells(s[gap + n..], words[1..])
  }

  lemma FirstWordAfterSpace(s: string, gap: nat, n: nat, word: string)
    requires s != "" && IsSpace(s[0])
    ensures FirstWord(s[1..], gap, n, word) <==> FirstWord(s, gap + 1, n, word)
    ensures gap + n < |s| ==> s[1..][gap + n..] == s[gap + 1 + n..]
  {
    if gap + n < |s| {
      assert s[1..][gap..gap + n] == s[gap + 1..gap + 1 + n];
      assert forall i | 0 < i < |s| :: s[i] == s[1..][i - 1];
    }
  }

  lemma SpaceIsNoWord(s: string, n: nat, word: string)
    requires s != "" && IsSpace(s[0])
    ensures !FirstWord(s, 0, n, word)
  {
  }

  lemma {:induction false} SpellsFrom(s: string, words: seq<string>, gap: nat, n: nat)
    requires words != [] && FirstWord(s, gap, n, words[0]) && Spells(s[gap + n..], words[1..])
    ensures Spells(s, words)
  {
  }

  lemma {:induction false} SpellsInto(s: string, words: seq<string>) returns (gap: nat, n: nat)
    requires words != [] && Spells(s, words)
    ensures FirstWord(s, gap, n, words[0]) && Spells(s[gap + n..], words[1..])
  {
    gap, n :| FirstWord(s, gap, n, words[0]) && Spells(s[gap + n..], words[1..]);
  }

  lemma NoWords(s: string)
    ensures Spells(s, []) <==> AllSpace(s)
  {
  }

  lemma AllSpaceAfterSpace(s: string)
    requires s != "" && IsSpace(s[0])
    ensures AllSpace(s[1..]) <==> AllSpace(s)
  {
    assert s == [s[0]] + s[1..];
  }

  lemma {:induction false} SpellsAfterSpace(s: string, words: seq<string>)
    requires s != "" && IsSpace(s[0])
    ensures Spells(s[1..], words) <==> Spells(s, words)
  {
    hide FirstWord, Spells, AllSpace;
    if words == [] {
      NoWords(s);
      NoWords(s[1..]);
      AllSpaceAfterSpace(s);
    } else {
      if Spells(s[1..], words) {
        var gap, n := SpellsInto(s[1..], words);
        FirstWordAfterSpace(s, gap, n, words[0]);
        FirstWordFits(s[1..], gap, n, words[0]);
        SpellsFrom(s, words, gap + 1, n);
      }
      if Spells(s, words) {
        var gap, n := SpellsInto(s, words);
        SpaceIsNoWord(s, n, words[0]);
        FirstWordAfterSpace(s, gap - 1, n, words[0]);
        FirstWordFits(s, gap, n, words[0]);
        SpellsFrom(s[1..], words, gap - 1, n);
      }
    }
  }

  lemma FirstWordFits(s: string, gap: nat, n: nat, word: string)
    requires FirstWord(s, gap, n, word)
    ensures gap + n <= |s|
  {
  }

  // Splitting finds the words of a text, which are no others.
  lemma {:induction false} FieldsIff(s: string, words: seq<string>)
    ensures Spells(s, words) <==> words == Fields(s)
    decreases |s|
  {
    if s == "" {
      NothingSpelled(words);
    } else if IsSpace(s[0]) {
      SpellsAfterSpace(s, words);
      FieldsIff(s[1..], words);
    } else {
      var n := WordLength(s);
      if words == [] {
        assert !AllSpace(s);
      } else {
        FieldsIff(s[n..], words[1..]);
        FirstWordIff(s, words);
        assert words == [words[0]] + words[1..];
      }
    }
  }

  lemma NothingSpelled(words: seq<string>)
    ensures Spells("", words) <==> words == []
  {
  }

  lemma FirstWordAt(s: string, gap: nat, n: nat, word: string)
    requires s != "" && !IsSpace(s[0]) && FirstWord(s, gap, n, word)
    ensures gap == 0 && n == WordLength(s) && word == s[..n]
  {
    assert gap == 0;
    assert s == word + s[n..];
    WordLengthOfWord(word, s[n..]);
  }

  lemma WordComesFirst(s: string)
    requires s != "" && !IsSpace(s[0])
    ensures FirstWord(s, 0, WordLength(s), s[..WordLength(s)])
  {
  }

  lemma {:induction false} FirstWordIff(s: string, words: seq<string>)
    requires s != "" && !IsSpace(s[0]) && words != []
    ensures Spells(s, words) <==> words[0] == s[..WordLength(s)] && Spells(s[WordLength(s)..], words[1..])
  {
    hide Spells, FirstWord, WordLength;
    var n := WordLength(s);
    if Spells(s, words) {
      var gap, m := SpellsInto(s, words);
      FirstWordAt(s, gap, m, words[0]);
    }
    if words[0] == s[..n] && Spells(s[n..], words[1..]) {
      WordComesFirst(s);
      SpellsFrom(s, words, 0, n);
    }
  }

  // Normalising keeps every word of a text, in order and unchanged.
  lemma NormalizeKeepsWords(s: string, words: seq<string>)
    ensures Spells(Normalize(s), words) <==> Spells(s, words)
    ensures Spells(s, words) ==> Normalize(s) == Join(words)
  {
    FieldsIff(s, words);
    FieldsJoin(Fields(s));
    FieldsIff(Normalize(s), words);
  }

  // Texts are normalised alike exactly when they have the same words.
  lemma NormalizeSameIff(s: string, t: string)
    ensures Normalize(s) == Normalize(t) <==> exists words :: Spells(s, words) && Spells(t, words)
  {
    FieldsIff(s, Fields(s));
    FieldsIff(t, Fields(t));
    FieldsJoin(Fields(s));
    FieldsJoin(Fields(t));
    if words :| Spells(s, words) && Spells(t, words) {
      FieldsIff(s, words);
      FieldsIff(t, words);
    }
  }

  // Between two words there is a single blank, and none before or behind.
  lemma {:induction false} JoinIsTight(words: seq<string>)
    requires forall i | 0 <= i < |words| :: IsWord(words[i])
    ensures var s := Join(words);
      && (s == "" <==> words == []) && (s != "" ==> !IsSpace(s[0]) && !IsSpace(s[|s| - 1]))
      && forall i | 0 <= i < |s| && IsSpace(s[i]) :: s[i] == ' ' && i + 1 < |s| && !IsSpace(s[i + 1])
  {
    if |words| > 1 {
      JoinIsTight(words[1..]);
      var rest := Join(words[1..]);
      var s := words[0] + " " + rest;
      assert forall i | |words[0]| + 1 <= i < |s| :: s[i] == rest[i - |words[0]| - 1];
    }
  }

  lemma NormalizeIsTight(s: string)
    ensures var t := Normalize(s);
      && (t != "" ==> !IsSpace(t[0]) && !IsSpace(t[|t| - 1]))
      && forall i | 0 <= i < |t| && IsSpace(t[i]) :: t[i] == ' ' && i + 1 < |t| && !IsSpace(t[i + 1])
  {
    JoinIsTight(Fields(s));
  }
}
