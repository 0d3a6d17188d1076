// The reader of `show ip bgp summary`: lines in, peers out, with a wrapped row joined to its address.
module BgpSummary {
  import opened Texts
  import opened Wrappers

  const FAMILY := "For address family:"
  const NEIGHBOR := "Neighbor"

  datatype Peer = Peer(neighbor: string, remoteAs: string, upDown: string, state: string, family: string,
                       established: bool)

  // ------------------------------------------------------------------ the three kinds of line

  function DropBlank(s: string): string {
    if s != "" && IsSpace(s[0]) then DropBlank(s[1..]) else s
  }

  // The name after the colon. A name of white space alone is its last character.
  function FamilyOf(line: string): Option<string> {
    var s := DropBlank(line);
    if !(FAMILY < s) then None
    else
      var rest := s[|FAMILY|..];
      Some(if Blank(rest) then rest[|rest| - 1..] else Strip(rest))
  }

  predicate IsWordChar(c: char) { 'a' <= c <= 'z' || 'A' <= c <= 'Z' || IsDigit(c) || c == '_' }

  // In a list: what a word of a pattern is made of.
  lemma {:induction false} WordCharsAre(c: char)
    ensures IsWordChar(c)
       <==> c in "abcdefghijklmnopqrstuvwxyz" || c in "ABCDEFGHIJKLMNOPQRSTUVWXYZ" || c in "0123456789" || c == '_'
  {
    LettersAre(c);
  }

  predicate StartsV(s: string) { s != "" && s[0] == 'V' && (|s| == 1 || !IsWordChar(s[1])) }

  predicate IsHead(line: string) {
    var s := DropBlank(line);
    NEIGHBOR < s && IsSpace(s[|NEIGHBOR|]) && StartsV(DropBlank(s[|NEIGHBOR|..]))
  }

  predicate IsAddressChar(c: char) {
    IsDigit(c) || 'a' <= c <= 'f' || 'A' <= c <= 'F' || c == ':' || c == '.'
  }

  predicate IsAddress(token: string) {
    (forall i :: 0 <= i < |token| ==> IsAddressChar(token[i])) && ('.' in token || ':' in token)
  }

  predicate IsRow(fields: seq<string>) {
    |fields| >= 10 && IsAddress(fields[0]) && fields[1] == "4"
  }

  // ------------------------------------------------------------------ one peer

  function Join(words: seq<string>): string {
    if words == [] then "" else if |words| == 1 then words[0] else words[0] + " " + Join(words[1..])
  }

  function WithoutCommas(s: string): string {
    if s == "" then "" else (if s[0] == ',' then "" else [s[0]]) + WithoutCommas(s[1..])
  }

  predicate IsCount(s: string) { WithoutCommas(s) != "" && Digits(WithoutCommas(s)) }

  function PeerOf(fields: seq<string>, family: string): Peer
    requires |fields| >= 10
  {
    Peer(fields[0], fields[2], fields[8], Join(fields[9..]), family, |fields| == 10 && IsCount(fields[9]))
  }

  // A prefix count, with or without its thousands marked off, and no state word.
  lemma {:induction false} CountIsDigits(s: string)
    ensures IsCount(s) <==> CountText(s)
  {
    CommasDropped(s);
    var t := WithoutCommas(s);
    assert Digits(t) <==> forall c :: c in t ==> IsDigit(c);
    if t != "" {
      assert t[0] in t;
    }
  }

  lemma {:induction false} CommasDropped(s: string)
    ensures forall c :: c in WithoutCommas(s) <==> c in s && c != ','
  {
    if s != "" {
      CommasDropped(s[1..]);
      assert s == [s[0]] + s[1..];
    }
  }

  // ------------------------------------------------------------------ the reader

  datatype State = State(inTable: bool, pending: Option<string>, family: string, peers: seq<Peer>)

  const START := State(false, None, "", [])

  function Take(st: State, fields: seq<string>): State {
    if IsRow(fields) then st.(peers := st.peers + [PeerOf(fields, st.family)]) else st
  }

  function InTable(st: State, fields: seq<string>): State {
    if fields == [] then st
    else if st.pending.Some? then Take(st.(pending := None), [st.pending.value] + fields)
    else if |fields| == 1 && IsAddress(fields[0]) then st.(pending := Some(fields[0]))
    else Take(st, fields)
  }

  function Step(st: State, line: string): State {
    match FamilyOf(line)
    case Some(name) => State(false, None, name, st.peers)
    case None =>
      if IsHead(line) then st.(inTable := true)
      else if !st.inTable then st
      else InTable(st, Split(line))
  }

  function Run(st: State, lines: seq<string>): State {
    if lines == [] then st else Step(Run(st, lines[..|lines| - 1]), lines[|lines| - 1])
  }

  method Parse(lines: seq<string>) returns (peers: seq<Peer>)
    ensures peers == Run(START, lines).peers
  {
    var inTable, pending, family := false, None, "";
    peers := [];
    for i := 0 to |lines|
      invariant State(inTable, pending, family, peers) == Run(START, lines[..i])
    {
      var line := lines[i];
      assert lines[..i + 1][..i] == lines[..i];
      var name := FamilyOf(line);
      if name.Some? {
        inTable, pending, family := false, None, name.value;
        continue;
      }
      if IsHead(line) {
        inTable := true;
        continue;
      }
      if !inTable {
        continue;
      }
      var fields := Split(line);
      if fields == [] {
        continue;
      }
      if pending.Some? {
        fields, pending := [pending.value] + fields, None;
      } else if |fields| == 1 && IsAddress(fields[0]) {
        pending := Some(fields[0]);
        continue;
      }
      if !IsAddress(fields[0]) || |fields| < 10 || fields[1] != "4" {
        continue;
      }
      peers := peers + [PeerOf(fields, family)];
    }
    assert lines[..|lines|] == lines;
  }

  lemma {:induction false} RunAppend(st: State, a: seq<string>, b: seq<string>)
    ensures Run(st, a + b) == Run(Run(st, a), b)
    decreases |b|
  {
    if b == [] {
      assert a + b == a;
    } else {
      RunAppend(st, a, b[..|b| - 1]);
      assert (a + b)[..|a + b| - 1] == a + b[..|b| - 1];
    }
  }

  // ------------------------------------------------------------------ what a router prints

  // What stands in the last column of a neighbour: the prefixes received, when the session is
  // established, and the words of its state when it is not.
  datatype Last = Prefixes(count: string) | Words(words: seq<string>)

  // A neighbour as a router prints it: address, version 4, AS number, the five counters of messages,
  // table version and queues, the time up or down, and the last column.
  datatype Entry = Entry(address: string, asNumber: string, counters: seq<string>, upDown: string, last: Last)

  function LastWords(last: Last): seq<string> {
    match last
    case Prefixes(count) => [count]
    case Words(words) => words
  }

  function Columns(e: Entry): seq<string> { [e.address, "4", e.asNumber] + e.counters + [e.upDown] + LastWords(e.last) }

  // A count is digits, with or without its thousands marked off.
  predicate CountText(s: string) {
    (forall c :: c in s ==> '0' <= c <= '9' || c == ',') && exists c :: c in s && '0' <= c <= '9'
  }

  predicate AddressText(s: string) {
    (forall c :: c in s ==> c in "0123456789abcdefABCDEF.:") && ('.' in s || ':' in s)
  }

  // A session that is not established is said in words, of which a count is none.
  predicate Printable(e: Entry) {
    && AddressText(e.address) && |e.counters| == 5
    && match e.last
       case Prefixes(count) => CountText(count)
       case Words(words) => words != [] && !(|words| == 1 && CountText(words[0]))
  }

  // The words of a state as they are read, one space between two.
  function StateText(last: Last): string {
    match last
    case Prefixes(count) => count
    case Words(words) => if words == [] then "" else words[0] + Spaced(seq(|words| - 1, i => " "), words[1..])
  }

  // The neighbour a row was printed for.
  function Meant(e: Entry, family: string): Peer {
    Peer(e.address, e.asNumber, e.upDown, StateText(e.last), family, e.last.Prefixes?)
  }

  // A row: its neighbour, the gaps before all its columns but the first, and whether the address stands
  // on a line of its own.
  datatype Item =
    | Family(lead: string, gap: string, name: string, trail: string)
    | Head(lead: string, gap: string, rest: string)
    | Row(lead: string, entry: Entry, gaps: seq<string>, trail: string, wrapped: bool)
    | Noise(line: string)

  function Lines(item: Item): seq<string>
    requires item.Row? ==> |Columns(item.entry)| == |item.gaps| + 1
  {
    match item
    case Family(lead, gap, name, trail) => [lead + (FAMILY + (gap + name + trail))]
    case Head(lead, gap, rest) => [lead + (NEIGHBOR + (gap + ("V" + rest)))]
    case Row(lead, entry, gaps, trail, wrapped) =>
      var columns := Columns(entry);
      if wrapped then [lead + (columns[0] + trail), Spaced(gaps, columns[1..]) + trail]
      else [lead + (columns[0] + (Spaced(gaps, columns[1..]) + trail))]
    case Noise(line) => [line]
  }

  // A line that names no family, heads no table, and is neither a row nor an address alone.
  predicate Quiet(line: string) {
    var fields := Split(line);
    && FamilyOf(line).None? && !IsHead(line) && !IsRow(fields)
    && !(|fields| == 1 && IsAddress(fields[0]))
  }

  // What is printed is what the kind of item says; between tables any other line may stand.
  predicate Fair(item: Item, inTable: bool) {
    match item
    case Family(lead, gap, name, trail) =>
      Blank(lead) && Blank(gap) && Blank(trail) && name != "" && !IsSpace(name[0]) && !IsSpace(name[|name| - 1])
    case Head(lead, gap, rest) => Blank(lead) && IsGap(gap) && (rest == "" || !IsWordChar(rest[0]))
    case Row(lead, entry, gaps, trail, wrapped) =>
      && Blank(lead) && Blank(trail) && Printable(entry) && IsWord(entry.address)
      && Spacing(gaps, Columns(entry)[1..])
    case Noise(line) => if inTable then Quiet(line) else FamilyOf(line).None? && !IsHead(line)
  }

  predicate AllFair(items: seq<Item>, inTable: bool) {
    items != [] ==> Fair(items[0], inTable) && AllFair(items[1..], TableAfter(items[0], inTable))
  }

  predicate TableAfter(item: Item, inTable: bool) {
    !item.Family? && (item.Head? || inTable)
  }

  function FamilyAfter(item: Item, family: string): string {
    if item.Family? then item.name else family
  }

  function Printed(items: seq<Item>, inTable: bool): seq<string>
    requires AllFair(items, inTable)
  {
    if items == [] then [] else Lines(items[0]) + Printed(items[1..], TableAfter(items[0], inTable))
  }

  function Added(item: Item, inTable: bool, family: string): seq<Peer>
    requires Fair(item, inTable)
  {
    if item.Row? && inTable then [Meant(item.entry, family)] else []
  }

  // The rows of the tables, in order, each with the family named last before it.
  function Peers(items: seq<Item>, inTable: bool, family: string): seq<Peer>
    requires AllFair(items, inTable)
  {
    if items == [] then []
    else
      Added(items[0], inTable, family)
      + Peers(items[1..], TableAfter(items[0], inTable), FamilyAfter(items[0], family))
  }

  // ------------------------------------------------------------------ what a row's columns say

  lemma {:induction false} AddressIs(s: string)
    ensures IsAddress(s) <==> AddressText(s)
  {
    forall c ensures c in "0123456789abcdefABCDEF.:" <==> IsAddressChar(c) {
      AddressChars(c);
    }
    assert (forall i :: 0 <= i < |s| ==> IsAddressChar(s[i])) <==> forall c :: c in s ==> IsAddressChar(c);
  }

  lemma {:induction false} AddressChars(c: char)
    ensures c in "0123456789abcdefABCDEF.:" <==> IsAddressChar(c)
  {
    assert "0123456789abcdefABCDEF.:" == "0123456789" + "abcdef" + "ABCDEF" + ".:";
    assert c in "0123456789" <==> IsDigit(c);
    assert c in "abcdef" <==> 'a' <= c <= 'f';
    assert c in "ABCDEF" <==> 'A' <= c <= 'F';
  }

  lemma {:induction false} JoinIsSpaced(words: seq<string>)
    requires words != []
    ensures Join(words) == words[0] + Spaced(seq(|words| - 1, i => " "), words[1..])
    decreases |words|
  {
    if |words| == 1 {
      assert words[1..] == [];
    } else {
      JoinIsSpaced(words[1..]);
      assert seq(|words| - 1, i => " ")[1..] == seq(|words| - 2, i => " ");
      assert words[1..][1..] == words[2..];
    }
  }

  lemma {:induction false} StateIsJoined(last: Last)
    requires LastWords(last) != []
    ensures StateText(last) == Join(LastWords(last))
  {
    JoinIsSpaced(LastWords(last));
  }

  // The columns of a neighbour are a row, and the peer read from them is that neighbour, every field of it.
  lemma {:induction false} EntryReads(e: Entry, family: string)
    requires Printable(e)
    ensures IsRow(Columns(e)) && PeerOf(Columns(e), family) == Meant(e, family)
  {
    var columns, words := Columns(e), LastWords(e.last);
    AddressIs(e.address);
    StateIsJoined(e.last);
    assert columns[9..] == words;
    assert columns[2] == e.asNumber && columns[8] == e.upDown;
    CountIsDigits(words[0]);
  }

  // ------------------------------------------------------------------ reading undoes printing

  lemma {:induction false} LeadDropped(lead: string, s: string)
    requires Blank(lead) && (s == "" || !IsSpace(s[0]))
    ensures DropBlank(lead + s) == s
    decreases |lead|
  {
    if lead == "" {
      assert lead + s == s;
    } else {
      LeadDropped(lead[1..], s);
      assert (lead + s)[1..] == lead[1..] + s;
    }
  }

  lemma {:induction false} FamilyReads(item: Item, inTable: bool)
    requires item.Family? && Fair(item, inTable)
    ensures FamilyOf(Lines(item)[0]) == Some(item.name)
  {
    var rest := item.gap + item.name + item.trail;
    LeadDropped(item.lead, FAMILY + rest);
    assert rest[|item.gap|] == item.name[0];
    assert (FAMILY + rest)[|FAMILY|..] == rest;
    StripKeeps(item.gap, item.name, item.trail);
  }

  lemma {:induction false} HeadReads(item: Item, inTable: bool)
    requires item.Head? && Fair(item, inTable)
    ensures FamilyOf(Lines(item)[0]) == None && IsHead(Lines(item)[0])
  {
    var rest := "V" + item.rest;
    var s := NEIGHBOR + (item.gap + rest);
    LeadDropped(item.lead, s);
    assert s[0] == 'N';
    assert s[|NEIGHBOR|..] == item.gap + rest && s[|NEIGHBOR|] == item.gap[0];
    LeadDropped(item.gap, rest);
  }

  lemma {:induction false} DropBlankIs(s: string) returns (lead: string)
    ensures Blank(lead) && s == lead + DropBlank(s) && (DropBlank(s) == "" || !IsSpace(DropBlank(s)[0]))
  {
    lead := "";
    if s != "" && IsSpace(s[0]) {
      lead := DropBlankIs(s[1..]);
      lead := [s[0]] + lead;
    }
  }

  // A line names a family exactly when, blanks before it or not, it begins with those words and something
  // follows them.
  lemma {:induction false} NamesFamilyIff(line: string)
    ensures FamilyOf(line).Some? <==> exists lead, rest :: Blank(lead) && rest != "" && line == lead + (FAMILY + rest)
  {
    var lead := DropBlankIs(line);
    var s := DropBlank(line);
    if FAMILY < s {
      assert s == FAMILY + s[|FAMILY|..];
      assert line == lead + (FAMILY + s[|FAMILY|..]);
    }
    forall l, rest | Blank(l) && rest != "" && line == l + (FAMILY + rest) ensures FAMILY < s {
      LeadDropped(l, FAMILY + rest);
    }
  }

  // A line heads a table exactly when its first two words are these, the second with nothing joined to it.
  lemma {:induction false} HeadsTableIff(line: string)
    ensures IsHead(line)
       <==> exists lead, gap, rest :: Fair(Head(lead, gap, rest), false) && [line] == Lines(Head(lead, gap, rest))
  {
    if IsHead(line) {
      var lead := DropBlankIs(line);
      var s := DropBlank(line);
      var gap := DropBlankIs(s[|NEIGHBOR|..]);
      var v := DropBlank(s[|NEIGHBOR|..]);
      assert s[|NEIGHBOR|..][0] == s[|NEIGHBOR|] && gap != "";
      assert |v| > 1 ==> v[1..][0] == v[1];
      assert v == "V" + v[1..] && s == NEIGHBOR + (gap + v);
      assert Fair(Head(lead, gap, v[1..]), false) && [line] == Lines(Head(lead, gap, v[1..]));
    }
    forall lead, gap, rest | Fair(Head(lead, gap, rest), false) && [line] == Lines(Head(lead, gap, rest))
      ensures IsHead(line)
    {
      HeadReads(Head(lead, gap, rest), false);
    }
  }

  // No address, and no version, begins as a heading does.
  predicate BeginsARow(word: string) {
    word != "" && word[0] != 'N' && (word[0] == 'F' ==> |word| > 1 && word[1] != 'o')
  }

  lemma {:induction false} AddressBegins(word: string)
    requires IsWord(word) && (IsAddress(word) || word == "4")
    ensures BeginsARow(word)
  {
    if IsAddress(word) {
      var i :| 0 <= i < |word| && (word[i] == '.' || word[i] == ':');
    }
  }

  lemma {:induction false} NoPrefix(s: string, word: string)
    requires BeginsARow(word) && word <= s
    ensures !(FAMILY < s) && !(NEIGHBOR < s)
  {
    assert s[0] == word[0];
    assert |word| > 1 ==> s[1] == word[1];
    assert FAMILY[0] == 'F' && FAMILY[1] == 'o' && NEIGHBOR[0] == 'N';
  }

  // A line whose first word is an address, or the version, is no heading.
  lemma {:induction false} NoHeading(lead: string, word: string, rest: string)
    requires Blank(lead) && IsWord(word) && (IsAddress(word) || word == "4")
    ensures FamilyOf(lead + (word + rest)) == None && !IsHead(lead + (word + rest))
  {
    LeadDropped(lead, word + rest);
    AddressBegins(word);
    NoPrefix(word + rest, word);
  }

  lemma {:induction false} OneWord(lead: string, word: string, trail: string)
    requires Blank(lead) && IsWord(word) && Blank(trail)
    ensures Split(lead + (word + trail)) == [word]
  {
    GapSkipped(lead, word + trail);
    WordTaken(word, trail);
    GapSkipped(trail, "");
    assert trail + "" == trail;
  }

  lemma {:induction false} RowSplits(row: Item, inTable: bool)
    requires row.Row? && Fair(row, inTable)
    ensures var columns := Columns(row.entry);
            Split(row.lead + (columns[0] + (Spaced(row.gaps, columns[1..]) + row.trail))) == columns
  {
    var rest := Spaced(row.gaps, Columns(row.entry)[1..]) + row.trail;
    SplitUndoesSpacing(row.gaps, Columns(row.entry)[1..], row.trail);
    GapSkipped(row.lead, Columns(row.entry)[0] + rest);
    assert rest[0] == row.gaps[0][0];
    WordTaken(Columns(row.entry)[0], rest);
    assert [Columns(row.entry)[0]] + Columns(row.entry)[1..] == Columns(row.entry);
  }

  lemma {:induction false} OneLineRow(row: Item, st: State)
    requires row.Row? && !row.wrapped && Fair(row, st.inTable) && st.pending == None
    ensures Step(st, Lines(row)[0])
         == if st.inTable then st.(peers := st.peers + [Meant(row.entry, st.family)]) else st
  {
    var rest := Spaced(row.gaps, Columns(row.entry)[1..]) + row.trail;
    EntryReads(row.entry, st.family);
    NoHeading(row.lead, Columns(row.entry)[0], rest);
    RowSplits(row, st.inTable);
  }

  lemma {:induction false} FirstHalf(row: Item, st: State)
    requires row.Row? && row.wrapped && Fair(row, st.inTable) && st.pending == None
    ensures Step(st, Lines(row)[0]) == if st.inTable then st.(pending := Some(Columns(row.entry)[0])) else st
  {
    EntryReads(row.entry, st.family);
    NoHeading(row.lead, Columns(row.entry)[0], row.trail);
    OneWord(row.lead, Columns(row.entry)[0], row.trail);
  }

  lemma {:induction false} SecondLine(e: Entry, gaps: seq<string>, trail: string, line: string)
    requires Printable(e) && Spacing(gaps, Columns(e)[1..]) && Blank(trail)
    requires line == Spaced(gaps, Columns(e)[1..]) + trail
    ensures FamilyOf(line) == None && !IsHead(line) && Split(line) == Columns(e)[1..]
  {
    var columns := Columns(e)[1..];
    var rest := Spaced(gaps[1..], columns[1..]) + trail;
    assert line == gaps[0] + (columns[0] + rest);
    NoHeading(gaps[0], columns[0], rest);
    SplitUndoesSpacing(gaps, columns, trail);
  }

  lemma {:induction false} SecondHalf(row: Item, st: State)
    requires row.Row? && row.wrapped && Fair(row, st.inTable)
    requires st.pending == if st.inTable then Some(Columns(row.entry)[0]) else None
    ensures Step(st, Lines(row)[1])
         == if st.inTable then st.(pending := None, peers := st.peers + [Meant(row.entry, st.family)]) else st
  {
    EntryReads(row.entry, st.family);
    SecondLine(row.entry, row.gaps, row.trail, Lines(row)[1]);
    assert [Columns(row.entry)[0]] + Columns(row.entry)[1..] == Columns(row.entry);
  }

  // One row, on one line or two, adds its peer and leaves nothing pending.
  lemma {:induction false} RowReads(row: Item, st: State)
    requires row.Row? && Fair(row, st.inTable) && st.pending == None
    ensures Run(st, Lines(row))
         == if st.inTable then st.(peers := st.peers + [Meant(row.entry, st.family)]) else st
  {
    var lines := Lines(row);
    if row.wrapped {
      FirstHalf(row, st);
      SecondHalf(row, Step(st, lines[0]));
      assert lines[..1] == [lines[0]] && lines[..1][..0] == [];
      assert Run(st, lines[..1]) == Step(st, lines[0]);
    } else {
      OneLineRow(row, st);
      assert lines[..0] == [];
    }
  }

  lemma {:induction false} ItemReads(item: Item, st: State)
    requires Fair(item, st.inTable) && st.pending == None
    ensures Run(st, Lines(item)) == State(TableAfter(item, st.inTable), None, FamilyAfter(item, st.family),
                                          st.peers + Added(item, st.inTable, st.family))
  {
    if item.Row? {
      RowReads(item, st);
    } else {
      assert Lines(item)[..0] == [] && Run(st, []) == st;
      if item.Family? {
        FamilyReads(item, st.inTable);
      } else if item.Head? {
        HeadReads(item, st.inTable);
      }
    }
  }

  lemma {:induction false} FirstItem(items: seq<Item>, inTable: bool, family: string)
    requires items != [] && AllFair(items, inTable)
    ensures Fair(items[0], inTable) && AllFair(items[1..], TableAfter(items[0], inTable))
    ensures Printed(items, inTable) == Lines(items[0]) + Printed(items[1..], TableAfter(items[0], inTable))
    ensures Peers(items, inTable, family)
         == Added(items[0], inTable, family)
            + Peers(items[1..], TableAfter(items[0], inTable), FamilyAfter(items[0], family))
  {
  }

  // From a state with nothing pending, the lines add these peers and leave nothing pending.
  predicate Adds(st: State, lines: seq<string>, peers: seq<Peer>) {
    Run(st, lines).peers == st.peers + peers && Run(st, lines).pending == None
  }

  lemma {:induction false} AddsMore(st: State, a: seq<string>, next: State, b: seq<string>, first: seq<Peer>,
                                    more: seq<Peer>)
    requires Run(st, a) == next && next.peers == st.peers + first && Adds(next, b, more)
    ensures Adds(st, a + b, first + more)
  {
    RunAppend(st, a, b);
    assert st.peers + first + more == st.peers + (first + more);
  }

  lemma {:induction false} RunReads(items: seq<Item>, st: State)
    requires AllFair(items, st.inTable) && st.pending == None
    ensures Adds(st, Printed(items, st.inTable), Peers(items, st.inTable, st.family))
    decreases |items|
  {
    if items == [] {
      assert st.peers + [] == st.peers;
    } else {
      FirstItem(items, st.inTable, st.family);
      var first, added := Lines(items[0]), Added(items[0], st.inTable, st.family);
      var next := State(TableAfter(items[0], st.inTable), None, FamilyAfter(items[0], st.family), st.peers + added);
      ItemReads(items[0], st);
      RunReads(items[1..], next);
      AddsMore(st, first, next, Printed(items[1..], next.inTable), added, Peers(items[1..], next.inTable, next.family));
    }
  }

  // Exactly the printed peers, in order and with their family, however each row is wrapped and
  // whatever stands between the tables.
  lemma {:induction false} ParseUndoesPrint(items: seq<Item>)
    requires AllFair(items, false)
    ensures Run(START, Printed(items, false)).peers == Peers(items, false, "")
  {
    RunReads(items, START);
  }

  // Wrapping a row or not makes no difference to what is read.
  function Unwrapped(items: seq<Item>): seq<Item> {
    if items == [] then []
    else [if items[0].Row? then items[0].(wrapped := false) else items[0]] + Unwrapped(items[1..])
  }

  lemma {:induction false} UnwrappedAlike(items: seq<Item>, inTable: bool, family: string)
    requires AllFair(items, inTable)
    ensures AllFair(Unwrapped(items), inTable)
    ensures Peers(Unwrapped(items), inTable, family) == Peers(items, inTable, family)
    decreases |items|
  {
    if items != [] {
      UnwrappedAlike(items[1..], TableAfter(items[0], inTable), FamilyAfter(items[0], family));
      assert Unwrapped(items)[1..] == Unwrapped(items[1..]);
    }
  }

  lemma {:induction false} WrappingIsNoMatter(items: seq<Item>)
    requires AllFair(items, false)
    ensures AllFair(Unwrapped(items), false)
    ensures Run(START, Printed(Unwrapped(items), false)).peers == Run(START, Printed(items, false)).peers
  {
    UnwrappedAlike(items, false, "");
    ParseUndoesPrint(items);
    ParseUndoesPrint(Unwrapped(items));
  }

  // The two words a heading begins with.
  predicate BeginsAHeading(word: string) { word == "For" || word == NEIGHBOR }

  lemma {:induction false} FirstWordIs(word: string, rest: string, head: string)
    requires IsWord(word) && IsWord(head) && (rest == "" || IsSpace(rest[0]))
    requires head < word + rest && IsSpace((word + rest)[|head|])
    ensures word == head
  {
    var s := word + rest;
    assert forall k :: 0 <= k < |word| ==> s[k] == word[k];
    assert forall k :: 0 <= k < |head| ==> s[k] == head[k];
    assert s[|word|] == rest[0];
  }

  lemma {:induction false} NoHeadingWord(word: string, rest: string)
    requires IsWord(word) && !BeginsAHeading(word) && (rest == "" || IsSpace(rest[0]))
    ensures !(FAMILY < word + rest) && !(NEIGHBOR < word + rest && IsSpace((word + rest)[|NEIGHBOR|]))
  {
    assert FAMILY[..3] == "For" && FAMILY[3] == ' ';
    if FAMILY < word + rest {
      FirstWordIs(word, rest, "For");
    }
    if NEIGHBOR < word + rest && IsSpace((word + rest)[|NEIGHBOR|]) {
      FirstWordIs(word, rest, NEIGHBOR);
    }
  }

  // Whatever words a line is made of, if the first begins no heading: the line is quiet unless the first
  // is an address that stands alone or goes on as a row does.
  lemma {:induction false} QuietIff(word: string, gaps: seq<string>, words: seq<string>)
    requires IsWord(word) && !BeginsAHeading(word) && Spacing(gaps, words)
    ensures Quiet(word + Spaced(gaps, words))
       <==> !(IsAddress(word) && (words == [] || (|words| >= 9 && words[0] == "4")))
  {
    var rest := Spaced(gaps, words);
    assert rest != "" ==> rest[0] == gaps[0][0];
    LeadDropped("", word + rest);
    assert "" + (word + rest) == word + rest;
    NoHeadingWord(word, rest);
    SplitUndoesSpacing(gaps, words, "");
    assert rest + "" == rest;
    WordTaken(word, rest);
    assert Split(word + rest) == [word] + words;
  }

  // So the counts a router prints around its tables ("4 networks peaked at ...") are no peers: a line
  // whose first word has neither a dot nor a colon is quiet.
  lemma {:induction false} ACountIsNoPeer(word: string, gaps: seq<string>, words: seq<string>)
    requires IsWord(word) && !BeginsAHeading(word) && '.' !in word && ':' !in word && Spacing(gaps, words)
    ensures Quiet(word + Spaced(gaps, words))
  {
    QuietIff(word, gaps, words);
  }
}
