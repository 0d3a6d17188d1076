// Texts as Python handles them, on ASCII: what is white space, `strip`, and `split` into words.
module Texts {
  predicate IsDigit(c: char) { '0' <= c <= '9' }

  lemma {:induction false} LettersAre(c: char)
    ensures c in "abcdefghijklmnopqrstuvwxyz" <==> 'a' <= c <= 'z'
    ensures c in "ABCDEFGHIJKLMNOPQRSTUVWXYZ" <==> 'A' <= c <= 'Z'
    ensures c in "0123456789" <==> IsDigit(c)
  {
  }

  // ASCII white space as Python's `strip` and `split` take it.
  predicate IsSpace(c: char) { c == ' ' || '\t' <= c <= '\r' || '\U{1C}' <= c <= '\U{1F}' }

  // In a list: space, tab, line feed, vertical tab, form feed, carriage return and the four separators.
  lemma {:induction false} SpacesAre(c: char)
    ensures IsSpace(c) <==> c in " \t\n\U{0B}\U{0C}\r\U{1C}\U{1D}\U{1E}\U{1F}"
  {
  }

  predicate Blank(s: string) { forall i :: 0 <= i < |s| ==> IsSpace(s[i]) }

  predicate Digits(s: string) { forall i :: 0 <= i < |s| ==> IsDigit(s[i]) }

  function Strip(s: string): string {
    if s == "" then ""
    else if IsSpace(s[0]) then Strip(s[1..])
    else if IsSpace(s[|s| - 1]) then Strip(s[..|s| - 1])
    else s
  }

  lemma {:induction false} StripBefore(blank: string, s: string)
    requires Blank(blank)
    ensures Strip(blank + s) == Strip(s)
    decreases |blank|
  {
    if blank == "" {
      assert blank + s == s;
    } else {
      StripBefore(blank[1..], s);
      assert (blank + s)[1..] == blank[1..] + s;
    }
  }

  lemma {:induction false} StripAfter(s: string, blank: string)
    requires Blank(blank) && s != "" && !IsSpace(s[0]) && !IsSpace(s[|s| - 1])
    ensures Strip(s + blank) == s
    decreases |blank|
  {
    if blank == "" {
      assert s + blank == s;
    } else {
      var shorter := blank[..|blank| - 1];
      StripAfter(s, shorter);
      assert (s + blank)[..|s + blank| - 1] == s + shorter;
    }
  }

  lemma {:induction false} StripKeeps(before: string, s: string, after: string)
    requires Blank(before) && Blank(after) && s != "" && !IsSpace(s[0]) && !IsSpace(s[|s| - 1])
    ensures Strip(before + s + after) == s
  {
    assert before + s + after == before + (s + after);
    StripBefore(before, s + after);
    StripAfter(s, after);
  }

  lemma {:induction false} BlankBefore(c: char, before: string, ink: string, after: string, s: string)
    requires s != "" && s[0] == c && IsSpace(c) && Blank(before) && s[1..] == before + ink + after
    ensures Blank([c] + before) && s == [c] + before + ink + after
  {
    assert s == [s[0]] + s[1..];
  }

  lemma {:induction false} BlankAfter(c: char, before: string, ink: string, after: string, s: string)
    requires s != "" && s[|s| - 1] == c && IsSpace(c) && Blank(after) && s[..|s| - 1] == before + ink + after
    ensures Blank(after + [c]) && s == before + ink + (after + [c])
  {
    assert s == s[..|s| - 1] + [c];
    assert before + ink + (after + [c]) == before + ink + after + [c];
  }

  // What is stripped off is blank, at either end.
  lemma {:induction false} StripTakesBlanks(s: string) returns (before: string, after: string)
    ensures Blank(before) && Blank(after) && s == before + Strip(s) + after
    decreases |s|
  {
    if s == "" {
      before, after := "", "";
    } else if IsSpace(s[0]) {
      before, after := StripTakesBlanks(s[1..]);
      BlankBefore(s[0], before, Strip(s), after, s);
      before := [s[0]] + before;
    } else if IsSpace(s[|s| - 1]) {
      before, after := StripTakesBlanks(s[..|s| - 1]);
      BlankAfter(s[|s| - 1], before, Strip(s), after, s);
      after := after + [s[|s| - 1]];
    } else {
      before, after := "", "";
      assert s == "" + s + "";
    }
  }

  // How many characters come before the first white space.
  function Ink(s: string): (n: nat)
    ensures n <= |s|
    ensures s != "" && !IsSpace(s[0]) ==> n > 0
  {
    if s == "" || IsSpace(s[0]) then 0 else 1 + Ink(s[1..])
  }

  function Split(s: string): seq<string>
    decreases |s|
  {
    if s == "" then []
    else if IsSpace(s[0]) then Split(s[1..])
    else [s[..Ink(s)]] + Split(s[Ink(s)..])
  }

  predicate IsWord(s: string) { s != "" && forall i :: 0 <= i < |s| ==> !IsSpace(s[i]) }

  predicate IsGap(s: string) { s != "" && Blank(s) }

  // Each word behind a gap of its own, as a terminal or a mail may have left them.
  function Spaced(gaps: seq<string>, words: seq<string>): string
    requires |gaps| == |words|
  {
    if words == [] then "" else gaps[0] + words[0] + Spaced(gaps[1..], words[1..])
  }

  predicate Spacing(gaps: seq<string>, words: seq<string>) {
    && |gaps| == |words|
    && (forall i :: 0 <= i < |gaps| ==> IsGap(gaps[i]))
    && (forall i :: 0 <= i < |words| ==> IsWord(words[i]))
  }

  lemma {:induction false} GapSkipped(gap: string, rest: string)
    requires Blank(gap)
    ensures Split(gap + rest) == Split(rest)
    decreases |gap|
  {
    if gap == "" {
      assert gap + rest == rest;
    } else {
      GapSkipped(gap[1..], rest);
      assert (gap + rest)[1..] == gap[1..] + rest;
    }
  }

  lemma {:induction false} InkOfWord(word: string, rest: string)
    requires forall i :: 0 <= i < |word| ==> !IsSpace(word[i])
    requires rest == "" || IsSpace(rest[0])
    ensures Ink(word + rest) == |word|
    decreases |word|
  {
    if word == "" {
      assert word + rest == rest;
    } else {
      InkOfWord(word[1..], rest);
      assert (word + rest)[1..] == word[1..] + rest;
    }
  }

  lemma {:induction false} WordTaken(word: string, rest: string)
    requires IsWord(word) && (rest == "" || IsSpace(rest[0]))
    ensures Split(word + rest) == [word] + Split(rest)
  {
    InkOfWord(word, rest);
    assert (word + rest)[0] == word[0];
    assert (word + rest)[..|word|] == word && (word + rest)[|word|..] == rest;
  }

  lemma {:induction false} SplitUndoesSpacing(gaps: seq<string>, words: seq<string>, trail: string)
    requires Spacing(gaps, words) && Blank(trail)
    ensures Split(Spaced(gaps, words) + trail) == words
    decreases |words|
  {
    if words == [] {
      GapSkipped(trail, "");
      assert "" + trail == trail + "";
    } else {
      var rest := Spaced(gaps[1..], words[1..]) + trail;
      SplitUndoesSpacing(gaps[1..], words[1..], trail);
      assert Spaced(gaps, words) + trail == gaps[0] + (words[0] + rest);
      GapSkipped(gaps[0], words[0] + rest);
      assert rest != "" ==> rest[0] == if |words| > 1 then gaps[1][0] else trail[0];
      WordTaken(words[0], rest);
    }
  }

  lemma {:induction false} SpacedEndsInInk(gaps: seq<string>, words: seq<string>)
    requires Spacing(gaps, words) && words != []
    ensures Spaced(gaps, words) != "" && !IsSpace(Spaced(gaps, words)[|Spaced(gaps, words)| - 1])
    decreases |words|
  {
    if |words| > 1 {
      SpacedEndsInInk(gaps[1..], words[1..]);
    }
  }
}
