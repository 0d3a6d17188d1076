// The one line an offline drill prints, and the reader of the line a person pastes back. A text is
// the bytes of its UTF-8 form, one `char` below 256 each; values travel percent-encoded, as in
// section 2.1 of RFC 3986.
module DrillReceipt {
  import opened Calendar
  import opened Texts

  const PREFIX := "nmas-drill v1"
  const KEYS := ["list", "sha256", "created", "devices", "key", "opened"]

  // What a drill found, and what a reader makes of the line.
  datatype Report = Report(listName: string, sha256: string, created: string, devices: nat, fingerprint: string,
                           openedAt: nat)
  datatype Receipt = Receipt(listName: string, sha256: string, created: string, devices: nat, key: string,
                             openedAt: string)
  datatype Outcome = Parsed(receipt: Receipt) | NotAReceipt | Lacks(keys: seq<string>) | Malformed

  predicate Bytes(s: string) { forall i :: 0 <= i < |s| ==> s[i] as int < 256 }

  // ------------------------------------------------------------------ percent-encoding

  predicate Unreserved(c: char) {
    'a' <= c <= 'z' || 'A' <= c <= 'Z' || '0' <= c <= '9' || c == '_' || c == '.' || c == '-' || c == '~'
  }

  // In a list: what section 2.3 of RFC 3986 leaves as it is.
  lemma {:induction false} UnreservedAre(c: char)
    ensures Unreserved(c)
       <==> c in "abcdefghijklmnopqrstuvwxyz" || c in "ABCDEFGHIJKLMNOPQRSTUVWXYZ" || c in "0123456789" || c in "-._~"
  {
    LettersAre(c);
  }

  function Hex(d: nat): char
    requires d < 16
  {
    "0123456789ABCDEF"[d]
  }

  predicate IsHex(c: char) { '0' <= c <= '9' || 'A' <= c <= 'F' || 'a' <= c <= 'f' }

  function HexValue(c: char): nat
    requires IsHex(c)
  {
    if c <= '9' then c as int - '0' as int
    else if c <= 'F' then c as int - 'A' as int + 10
    else c as int - 'a' as int + 10
  }

  function QuoteByte(c: char): string
    requires c as int < 256
  {
    if Unreserved(c) then [c] else ['%', Hex(c as int / 16), Hex(c as int % 16)]
  }

  function Quote(s: string): string
    requires Bytes(s)
  {
    if s == "" then "" else QuoteByte(s[0]) + Quote(s[1..])
  }

  predicate Escape(s: string) { |s| >= 3 && s[0] == '%' && IsHex(s[1]) && IsHex(s[2]) }

  function Unescaped(high: char, low: char): char
    requires IsHex(high) && IsHex(low)
  {
    (HexValue(high) * 16 + HexValue(low)) as char
  }

  function Unquote(s: string): string {
    if s == "" then ""
    else if Escape(s) then [Unescaped(s[1], s[2])] + Unquote(s[3..])
    else [s[0]] + Unquote(s[1..])
  }

  lemma {:induction false} HexReads(d: nat)
    requires d < 16
    ensures IsHex(Hex(d)) && HexValue(Hex(d)) == d && Unreserved(Hex(d))
  {
  }

  lemma {:induction false} ByteReads(c: char, rest: string)
    requires c as int < 256
    ensures Unquote(QuoteByte(c) + rest) == [c] + Unquote(rest)
  {
    var s := QuoteByte(c) + rest;
    if Unreserved(c) {
      assert s[1..] == rest;
    } else {
      HexReads(c as int / 16);
      HexReads(c as int % 16);
      assert s[3..] == rest;
    }
  }

  lemma {:induction false} UnquoteUndoesQuote(s: string)
    requires Bytes(s)
    ensures Unquote(Quote(s)) == s
  {
    if s != "" {
      ByteReads(s[0], Quote(s[1..]));
      UnquoteUndoesQuote(s[1..]);
    }
  }

  // A hexadecimal digit reads as its value, in either case.
  lemma {:induction false} HexReadsEitherCase(d: nat, c: char)
    requires d < 16 && (c == "0123456789ABCDEF"[d] || c == "0123456789abcdef"[d])
    ensures IsHex(c) && HexValue(c) == d
  {
  }

  // An escape of any byte, in either case, reads as that byte; whatever is no escape stays as it is.
  lemma {:induction false} EscapeReads(c: char, high: char, low: char, rest: string)
    requires c as int < 256
    requires high == "0123456789ABCDEF"[c as int / 16] || high == "0123456789abcdef"[c as int / 16]
    requires low == "0123456789ABCDEF"[c as int % 16] || low == "0123456789abcdef"[c as int % 16]
    ensures Unquote(['%', high, low] + rest) == [c] + Unquote(rest)
  {
    HexReadsEitherCase(c as int / 16, high);
    HexReadsEitherCase(c as int % 16, low);
    assert (['%', high, low] + rest)[3..] == rest;
  }

  lemma {:induction false} NoEscapeStays(s: string)
    requires s != "" && (s[0] != '%' || |s| < 3 || s[1] !in HEX || s[2] !in HEX)
    ensures Unquote(s) == [s[0]] + Unquote(s[1..])
  {
    if |s| >= 3 {
      HexAre(s[1]);
      HexAre(s[2]);
    }
  }

  const HEX := "0123456789abcdefABCDEF"

  lemma {:induction false} HexAre(c: char)
    ensures IsHex(c) <==> c in HEX
  {
    assert HEX == "0123456789" + "abcdef" + "ABCDEF";
    assert c in "abcdef" <==> 'a' <= c <= 'f';
    assert c in "ABCDEF" <==> 'A' <= c <= 'F';
  }

  // What may stand in a printed value: no white space, and no '=' that would end a key.
  predicate Plain(s: string) { forall i :: 0 <= i < |s| ==> Unreserved(s[i]) || s[i] == '%' || s[i] == ':' }

  lemma {:induction false} QuotedIsPlain(s: string)
    requires Bytes(s)
    ensures Plain(Quote(s))
  {
    if s != "" {
      QuotedIsPlain(s[1..]);
      HexReads(s[0] as int / 16);
      HexReads(s[0] as int % 16);
    }
  }

  predicate NoPercent(s: string) { forall i :: 0 <= i < |s| ==> s[i] != '%' }

  lemma {:induction false} NothingToUnquote(s: string)
    requires NoPercent(s)
    ensures Unquote(s) == s
  {
    if s != "" {
      NothingToUnquote(s[1..]);
    }
  }

  // ------------------------------------------------------------------ numbers and times

  function Decimal(n: nat): (s: string)
    ensures s != "" && Digits(s)
  {
    if n < 10 then [Digit(n)] else Decimal(n / 10) + [Digit(n % 10)]
  }

  lemma {:induction false} NumberUndoesDecimal(n: nat)
    ensures Number(Decimal(n)) == n
  {
    if n < 10 {
      DigitValue(n);
    } else {
      NumberUndoesDecimal(n / 10);
      DigitValue(n % 10);
      assert Decimal(n)[..|Decimal(n)| - 1] == Decimal(n / 10);
    }
  }

  lemma {:induction false} LayoutIsPlain(numbers: seq<nat>, slots: seq<Slot>)
    requires |numbers| == |slots|
    requires forall i :: 0 <= i < |slots| ==> slots[i].mark in "-T:Z"
    ensures Plain(Layout(numbers, slots)) && NoPercent(Layout(numbers, slots))
    decreases |numbers|
  {
    if numbers != [] {
      LayoutIsPlain(numbers[1..], slots[1..]);
    }
  }

  lemma {:induction false} IsoIsPlain(t: nat)
    ensures Plain(Iso(t)) && NoPercent(Iso(t))
  {
    TimegmUndoesGmtime(t);
    LayoutIsPlain(Numbers(Gmtime(t)), Slots(YearWidth(Gmtime(t).year)));
  }

  // ------------------------------------------------------------------ the line

  predicate IsSha(s: string) {
    |s| == 64 && forall i :: 0 <= i < 64 ==> '0' <= s[i] <= '9' || 'a' <= s[i] <= 'f'
  }

  predicate Printable(r: Report) {
    Bytes(r.listName) && IsSha(r.sha256) && Bytes(r.created) && Bytes(r.fingerprint)
  }

  function KeyOf(r: Report): string { if r.fingerprint == "" then "none" else r.fingerprint }

  // The value printed for a key.
  function Printed(r: Report, key: string): string
    requires Printable(r) && key in KEYS
  {
    if key == "list" then Quote(r.listName)
    else if key == "sha256" then r.sha256
    else if key == "created" then Quote(r.created)
    else if key == "devices" then Decimal(r.devices)
    else if key == "key" then Quote(KeyOf(r))
    else Iso(r.openedAt)
  }

  // What a reader should find for a key.
  function Meant(r: Report, key: string): string
    requires key in KEYS
  {
    if key == "list" then r.listName
    else if key == "sha256" then r.sha256
    else if key == "created" then r.created
    else if key == "devices" then Decimal(r.devices)
    else if key == "key" then KeyOf(r)
    else Iso(r.openedAt)
  }

  function Word(r: Report, key: string): string
    requires Printable(r) && key in KEYS
  {
    key + "=" + Printed(r, key)
  }

  function Joined(words: seq<string>): string {
    if words == [] then "" else " " + words[0] + Joined(words[1..])
  }

  function Words(r: Report): seq<string>
    requires Printable(r)
  {
    seq(|KEYS|, i requires 0 <= i < |KEYS| => Word(r, KEYS[i]))
  }

  function Print(r: Report): string
    requires Printable(r)
  {
    PREFIX + Joined(Words(r))
  }

  lemma {:induction false} PrintedReads(r: Report, key: string)
    requires Printable(r) && key in KEYS
    ensures Plain(Printed(r, key)) && Unquote(Printed(r, key)) == Meant(r, key)
  {
    if key == "list" {
      QuotedIsPlain(r.listName);
      UnquoteUndoesQuote(r.listName);
    } else if key == "created" {
      QuotedIsPlain(r.created);
      UnquoteUndoesQuote(r.created);
    } else if key == "key" {
      QuotedIsPlain(KeyOf(r));
      UnquoteUndoesQuote(KeyOf(r));
    } else if key == "opened" {
      IsoIsPlain(r.openedAt);
      NothingToUnquote(Iso(r.openedAt));
    } else {
      NothingToUnquote(Printed(r, key));
    }
  }

  // ------------------------------------------------------------------ the reader

  // How many bytes come before the first '='.
  function Equals(s: string): (n: nat)
    ensures n <= |s|
  {
    if s == "" || s[0] == '=' then 0 else 1 + Equals(s[1..])
  }

  function Put(found: map<string, string>, part: string): map<string, string> {
    var e := Equals(part);
    if e < |part| && part[..e] in KEYS then found[part[..e] := Unquote(part[e + 1..])] else found
  }

  function Found(parts: seq<string>): map<string, string> {
    if parts == [] then map[] else Put(Found(parts[..|parts| - 1]), parts[|parts| - 1])
  }

  // The keys not found, in their order.
  function Absent(found: map<string, string>, keys: seq<string>): (absent: seq<string>)
    ensures forall k :: k in absent <==> k in keys && k !in found
  {
    if keys == [] then []
    else
      assert forall k :: k in keys <==> k == keys[0] || k in keys[1..];
      (if keys[0] in found then [] else [keys[0]]) + Absent(found, keys[1..])
  }

  predicate Complete(found: map<string, string>) { forall k :: k in KEYS ==> k in found }

  lemma {:induction false} AllThere(found: map<string, string>)
    ensures Absent(found, KEYS) == [] <==> Complete(found)
  {
    var absent := Absent(found, KEYS);
    if absent != [] {
      assert absent[0] in absent;
    }
  }

  function Taken(found: map<string, string>): Outcome
    requires Complete(found)
  {
    if !IsSha(found["sha256"]) || found["devices"] == "" || !Digits(found["devices"]) then Malformed
    else Parsed(Receipt(found["list"], found["sha256"], found["created"], Number(found["devices"]),
                        found["key"], found["opened"]))
  }

  function Judge(found: map<string, string>): Outcome {
    AllThere(found);
    if Absent(found, KEYS) != [] then Lacks(Absent(found, KEYS)) else Taken(found)
  }

  function Read(line: string): Outcome {
    var text := Strip(line);
    if PREFIX + " " <= text then Judge(Found(Split(text[|PREFIX| + 1..]))) else NotAReceipt
  }

  // The loop that fills the dictionary: a later word for a key takes the place of an earlier one.
  method Fill(parts: seq<string>) returns (found: map<string, string>)
    ensures found == Found(parts)
  {
    found := map[];
    for i := 0 to |parts|
      invariant found == Found(parts[..i])
    {
      var e := Equals(parts[i]);
      if e < |parts[i]| && parts[i][..e] in KEYS {
        found := found[parts[i][..e] := Unquote(parts[i][e + 1..])];
      }
      assert parts[..i + 1][..i] == parts[..i];
    }
    assert parts[..|parts|] == parts;
  }

  method Parse(line: string) returns (outcome: Outcome)
    ensures outcome == Read(line)
  {
    var text := Strip(line);
    if !(PREFIX + " " <= text) {
      return NotAReceipt;
    }
    var found := Fill(Split(text[|PREFIX| + 1..]));
    outcome := Judge(found);
  }

  // ------------------------------------------------------------------ what is found

  // A word that names none of the six keys.
  predicate Stray(word: string) {
    Equals(word) == |word| || word[..Equals(word)] !in KEYS
  }

  // Every word is one of this report's, or names no key.
  predicate From(r: Report, words: seq<string>)
    requires Printable(r)
  {
    forall i :: 0 <= i < |words| ==> Stray(words[i]) || exists k :: k in KEYS && words[i] == Word(r, k)
  }

  lemma {:induction false} EqualsAfter(key: string, value: string)
    requires '=' !in key
    ensures Equals(key + "=" + value) == |key|
    decreases |key|
  {
    if key != "" {
      EqualsAfter(key[1..], value);
      assert (key + "=" + value)[1..] == key[1..] + "=" + value;
    }
  }

  lemma {:induction false} PutWord(found: map<string, string>, r: Report, key: string)
    requires Printable(r) && key in KEYS
    ensures !Stray(Word(r, key))
    ensures Put(found, Word(r, key)) == found[key := Meant(r, key)]
  {
    EqualsAfter(key, Printed(r, key));
    PrintedReads(r, key);
    var w := Word(r, key);
    assert w[..|key|] == key && w[|key| + 1..] == Printed(r, key);
  }

  lemma {:induction false} WordsDiffer(r: Report, j: string, k: string)
    requires Printable(r) && j in KEYS && k in KEYS && Word(r, j) == Word(r, k)
    ensures j == k
  {
    EqualsAfter(j, Printed(r, j));
    EqualsAfter(k, Printed(r, k));
    assert Word(r, j)[..|j|] == j && Word(r, k)[..|k|] == k;
  }

  // One more word sets its own key to its own value, and no other.
  lemma {:induction false} PutSets(found: map<string, string>, r: Report, word: string, key: string)
    requires Printable(r) && key in KEYS
    requires Stray(word) || exists k :: k in KEYS && word == Word(r, k)
    ensures word == Word(r, key) ==> key in Put(found, word) && Put(found, word)[key] == Meant(r, key)
    ensures word != Word(r, key) ==> (key in Put(found, word) <==> key in found)
    ensures word != Word(r, key) && key in found ==> Put(found, word)[key] == found[key]
  {
    PutWord(found, r, key);
    if !Stray(word) {
      var k :| k in KEYS && word == Word(r, k);
      PutWord(found, r, k);
      if word == Word(r, key) {
        WordsDiffer(r, k, key);
      }
    }
  }

  // In any order, repeated or among other words: a key is found just when its word is there, and
  // then with its own value.
  lemma {:induction false} FoundAre(r: Report, words: seq<string>, key: string)
    requires Printable(r) && From(r, words) && key in KEYS
    ensures key in Found(words) <==> Word(r, key) in words
    ensures key in Found(words) ==> Found(words)[key] == Meant(r, key)
    decreases |words|
  {
    if words != [] {
      var n := |words| - 1;
      FoundAre(r, words[..n], key);
      assert words == words[..n] + [words[n]];
      PutSets(Found(words[..n]), r, words[n], key);
    }
  }

  // ------------------------------------------------------------------ the round trip

  // What the line says: the report's own fields, "none" for a key it has no fingerprint of, and the
  // second it was opened in words.
  function Meaning(r: Report): Receipt {
    Receipt(r.listName, r.sha256, r.created, r.devices, if r.fingerprint == "" then "none" else r.fingerprint,
            Iso(r.openedAt))
  }

  // The prefix takes the first space of the first gap with it.
  lemma {:induction false} RestOfFirstGap(gaps: seq<string>, words: seq<string>)
    requires Spacing(gaps, words) && words != []
    ensures Spaced(gaps, words) != "" && Split(Spaced(gaps, words)[1..]) == words
    ensures Spaced(gaps, words)[0] == gaps[0][0]
  {
    SplitUndoesSpacing(gaps, words, "");
    assert Spaced(gaps, words) + "" == Spaced(gaps, words);
  }

  lemma {:induction false} PrefixCut(s: string)
    requires s != "" && s[0] == ' '
    ensures PREFIX + " " <= PREFIX + s && (PREFIX + s)[|PREFIX| + 1..] == s[1..]
  {
  }

  lemma {:induction false} StrippedPaste(before: string, s: string, after: string)
    requires Blank(before) && Blank(after) && s != "" && !IsSpace(s[|s| - 1])
    ensures Strip(before + (PREFIX + s) + after) == PREFIX + s
  {
    StripKeeps(before, PREFIX + s, after);
  }

  lemma {:induction false} PasteIsItsWords(before: string, gaps: seq<string>, words: seq<string>, after: string)
    requires Spacing(gaps, words) && words != []
    requires gaps[0][0] == ' ' && Blank(before) && Blank(after)
    ensures Read(before + (PREFIX + Spaced(gaps, words)) + after) == Judge(Found(words))
  {
    var s := Spaced(gaps, words);
    SpacedEndsInInk(gaps, words);
    RestOfFirstGap(gaps, words);
    StrippedPaste(before, s, after);
    PrefixCut(s);
  }

  lemma {:induction false} TakenAre(r: Report, found: map<string, string>)
    requires Printable(r) && Complete(found)
    requires forall k :: k in KEYS ==> found[k] == Meant(r, k)
    ensures Taken(found) == Parsed(Meaning(r))
  {
    assert found["list"] == Meant(r, "list") && found["sha256"] == Meant(r, "sha256");
    assert found["created"] == Meant(r, "created") && found["devices"] == Meant(r, "devices");
    assert found["key"] == Meant(r, "key") && found["opened"] == Meant(r, "opened");
    NumberUndoesDecimal(r.devices);
  }

  lemma {:induction false} JudgeFound(r: Report, words: seq<string>)
    requires Printable(r) && From(r, words)
    ensures (forall k :: k in KEYS ==> Word(r, k) in words) ==> Judge(Found(words)) == Parsed(Meaning(r))
    ensures !(forall k :: k in KEYS ==> Word(r, k) in words) ==>
      && Judge(Found(words)).Lacks?
      && forall k :: k in Judge(Found(words)).keys <==> k in KEYS && Word(r, k) !in words
  {
    var found := Found(words);
    forall k | k in KEYS
      ensures k in found <==> Word(r, k) in words
      ensures k in found ==> found[k] == Meant(r, k)
    {
      FoundAre(r, words, k);
    }
    AllThere(found);
    if Complete(found) {
      TakenAre(r, found);
    }
  }

  // ------------------------------------------------------------------ any words at all

  // The word gives this key, and what it gives it.
  predicate Gives(word: string, key: string) { key + "=" <= word }

  function Given(word: string, key: string): string
    requires Gives(word, key)
  {
    Unquote(word[|key| + 1..])
  }

  lemma {:induction false} GivesIff(word: string, key: string)
    requires '=' !in key
    ensures Gives(word, key) <==> Equals(word) == |key| < |word| && word[..|key|] == key
  {
    if Gives(word, key) {
      EqualsAfter(key, word[|key| + 1..]);
      assert word == key + "=" + word[|key| + 1..];
    }
    if Equals(word) == |key| < |word| && word[..|key|] == key {
      EqualsIsThere(word);
      assert word[..|key| + 1] == key + "=";
    }
  }

  lemma {:induction false} EqualsIsThere(word: string)
    requires Equals(word) < |word|
    ensures word[Equals(word)] == '='
  {
    if word[0] != '=' {
      EqualsIsThere(word[1..]);
    }
  }

  lemma {:induction false} PutIs(found: map<string, string>, word: string, key: string)
    requires key in KEYS
    ensures Gives(word, key) ==> key in Put(found, word) && Put(found, word)[key] == Given(word, key)
    ensures !Gives(word, key) ==> (key in Put(found, word) <==> key in found)
    ensures !Gives(word, key) && key in found ==> Put(found, word)[key] == found[key]
  {
    GivesIff(word, key);
  }

  ghost predicate LastGives(words: seq<string>, key: string, i: nat) {
    i < |words| && Gives(words[i], key) && forall j :: i < j < |words| ==> !Gives(words[j], key)
  }

  // A key is there when one of the words gives it, and then as the last of them does.
  ghost predicate FoundIn(words: seq<string>, key: string, found: map<string, string>) {
    && (key in found <==> exists i :: 0 <= i < |words| && Gives(words[i], key))
    && forall i: nat :: LastGives(words, key, i) ==> key in found && found[key] == Given(words[i], key)
  }

  lemma {:induction false} FoundOn(init: seq<string>, last: string, key: string, found: map<string, string>)
    requires key in KEYS && FoundIn(init, key, found)
    ensures FoundIn(init + [last], key, Put(found, last))
  {
    var words := init + [last];
    PutIs(found, last, key);
    assert words[|init|] == last;
    assert forall j :: 0 <= j < |init| ==> words[j] == init[j];
    forall i: nat | LastGives(words, key, i) ensures Gives(last, key) || LastGives(init, key, i) {
    }
  }

  // Of any words, whatever they are.
  lemma {:induction false} FoundIs(words: seq<string>, key: string)
    requires key in KEYS
    ensures FoundIn(words, key, Found(words))
    decreases |words|
  {
    if words != [] {
      var init, last := words[..|words| - 1], words[|words| - 1];
      FoundIs(init, key);
      FoundOn(init, last, key, Found(init));
      assert words == init + [last];
    }
  }

  predicate HashText(s: string) { |s| == 64 && forall c :: c in s ==> c in "0123456789abcdef" }

  predicate NumberText(s: string) { s != "" && forall c :: c in s ==> c in "0123456789" }

  lemma {:induction false} HexChar(c: char)
    ensures c in "0123456789abcdef" <==> '0' <= c <= '9' || 'a' <= c <= 'f'
    ensures c in "0123456789" <==> '0' <= c <= '9'
  {
    assert "0123456789abcdef" == "0123456789" + "abcdef";
    assert c in "abcdef" <==> 'a' <= c <= 'f';
  }

  lemma {:induction false} HashIs(s: string)
    ensures IsSha(s) <==> HashText(s)
  {
    forall c ensures c in "0123456789abcdef" <==> '0' <= c <= '9' || 'a' <= c <= 'f' {
      HexChar(c);
    }
    assert forall i :: 0 <= i < |s| ==> s[i] in s;
  }

  lemma {:induction false} NumberIs(s: string)
    ensures s != "" && Digits(s) <==> NumberText(s)
  {
    forall c ensures c in "0123456789" <==> IsDigit(c) {
      HexChar(c);
    }
    assert forall i :: 0 <= i < |s| ==> s[i] in s;
  }

  // A receipt is one exactly when each key is given, the hash is sixty-four digits of lower-case
  // hexadecimal, and the count of devices is a number; and it says what was given.
  lemma {:induction false} ParsedIff(found: map<string, string>)
    ensures Judge(found).Lacks? <==> exists k :: k in KEYS && k !in found
    ensures Judge(found).Parsed? <==> Complete(found) && HashText(found["sha256"]) && NumberText(found["devices"])
    ensures Judge(found).Parsed? ==>
              Judge(found).receipt == Receipt(found["list"], found["sha256"], found["created"],
                                              Number(found["devices"]), found["key"], found["opened"])
  {
    AllThere(found);
    if Complete(found) {
      HashIs(found["sha256"]);
      NumberIs(found["devices"]);
    }
  }

  // However the words are ordered, spaced, repeated and mixed with others: the line reads as the
  // report it was printed from if all six are there, and is refused naming exactly the missing
  // ones if not.
  lemma {:induction false} EveryPasteReads(r: Report, before: string, gaps: seq<string>, words: seq<string>,
                                           after: string)
    requires Printable(r) && From(r, words) && Spacing(gaps, words) && words != []
    requires gaps[0][0] == ' ' && Blank(before) && Blank(after)
    ensures var outcome := Read(before + (PREFIX + Spaced(gaps, words)) + after);
      if forall k :: k in KEYS ==> Word(r, k) in words then outcome == Parsed(Meaning(r))
      else outcome.Lacks? && forall k :: k in outcome.keys <==> k in KEYS && Word(r, k) !in words
  {
    PasteIsItsWords(before, gaps, words, after);
    JudgeFound(r, words);
  }

  lemma {:induction false} JoinedIsSpaced(words: seq<string>)
    ensures Joined(words) == Spaced(seq(|words|, i => " "), words)
  {
    if words != [] {
      JoinedIsSpaced(words[1..]);
      assert seq(|words|, i => " ")[1..] == seq(|words[1..]|, i => " ");
    }
  }

  lemma {:induction false} InkOnly(key: string, value: string)
    requires key in KEYS && Plain(value)
    ensures IsWord(key + "=" + value)
  {
    var w := key + "=" + value;
    forall i | 0 <= i < |w|
      ensures !IsSpace(w[i])
    {
      if i < |key| {
        assert w[i] == key[i];
      } else if i > |key| {
        assert w[i] == value[i - |key| - 1];
      }
    }
  }

  lemma {:induction false} PrintedWord(r: Report, key: string)
    requires Printable(r) && key in KEYS
    ensures IsWord(Word(r, key))
  {
    PrintedReads(r, key);
    InkOnly(key, Printed(r, key));
  }

  lemma {:induction false} PrintsAllSix(r: Report)
    requires Printable(r)
    ensures From(r, Words(r)) && forall i :: 0 <= i < |Words(r)| ==> IsWord(Words(r)[i])
    ensures forall k :: k in KEYS ==> Word(r, k) in Words(r)
  {
    var words := Words(r);
    forall i | 0 <= i < |words|
      ensures IsWord(words[i]) && exists k :: k in KEYS && words[i] == Word(r, k)
    {
      PrintedWord(r, KEYS[i]);
      assert KEYS[i] in KEYS;
    }
    forall k | k in KEYS
      ensures Word(r, k) in words
    {
      var i :| 0 <= i < |KEYS| && KEYS[i] == k;
      assert words[i] == Word(r, k);
    }
  }

  // The six words of the line, in their order.
  lemma {:induction false} WordsAre(r: Report)
    requires Printable(r)
    ensures Words(r) == ["list" + "=" + Quote(r.listName), "sha256" + "=" + r.sha256,
                         "created" + "=" + Quote(r.created), "devices" + "=" + Decimal(r.devices),
                         "key" + "=" + Quote(if r.fingerprint == "" then "none" else r.fingerprint),
                         "opened" + "=" + Iso(r.openedAt)]
  {
  }

  // What needs no escape is printed as it is.
  lemma {:induction false} QuoteLeaves(s: string)
    requires Bytes(s) && forall i :: 0 <= i < |s| ==> Unreserved(s[i])
    ensures Quote(s) == s
  {
    if s != "" {
      QuoteLeaves(s[1..]);
    }
  }

  // All six fields come back, for every list name and creation text.
  lemma {:induction false} ReadUndoesPrint(r: Report)
    requires Printable(r)
    ensures Read(Print(r)) == Parsed(Meaning(r))
  {
    var words := Words(r);
    PrintsAllSix(r);
    JoinedIsSpaced(words);
    EveryPasteReads(r, "", seq(|words|, i => " "), words, "");
    assert "" + Print(r) + "" == Print(r);
  }
}
