// What every run of `record` keeps: a row settles once, a retry finishes the job, the reader's
// memo loses nothing it may not lose, and resolves alternate with the states they end.
module AlertGate {
  import opened Wrappers
  import opened AlertLog
  import Sorting
  import Texts

  predicate Settled(log: seq<Entry>, a: Arrival) { Held(log, a) || Unopened(log, a) }

  // The reader and the detections flag resolves, and nothing else.
  predicate FlagsOnlyResolves(batch: seq<Arrival>) {
    forall i :: 0 <= i < |batch| && batch[i].requiresOpen ==> batch[i].row.to == Normal
  }

  predicate FlagsEveryResolve(batch: seq<Arrival>) {
    forall i :: 0 <= i < |batch| && batch[i].row.to == Normal ==> batch[i].requiresOpen
  }

  // A row once settled stays settled while rows no earlier than it arrive.
  lemma {:induction false} SettledStays(log: seq<Entry>, a: Arrival, c: Arrival)
    requires Settled(log, a)
    requires a.requiresOpen ==> a.row.to == Normal
    requires RankOf(a) <= RankOf(c)
    ensures Settled(Take(log, c), a)
  {
    KeysSnoc(log, Transition(c.row));
    LatestSnoc(log, Transition(c.row), a.row.identity);
  }

  lemma {:induction false} TakeSettles(log: seq<Entry>, a: Arrival)
    ensures Settled(Take(log, a), a)
    ensures Settled(log, a) <==> Take(log, a) == log
  {
    KeysSnoc(log, Transition(a.row));
  }

  lemma {:induction false} OrderedBatchSettles(log: seq<Entry>, batch: seq<Arrival>, i: nat)
    requires Sorting.Sorted(batch, RankOf) && FlagsOnlyResolves(batch)
    requires i < |batch|
    ensures Settled(TakeAll(log, batch), batch[i])
  {
    var init, last := batch[..|batch| - 1], batch[|batch| - 1];
    var before := TakeAll(log, init);
    if i < |init| {
      OrderedBatchSettles(log, init, i);
      assert init[i] == batch[i];
      assert RankOf(batch[i]) <= RankOf(last);
      SettledStays(before, batch[i], last);
    } else {
      TakeSettles(before, last);
    }
  }

  lemma {:induction false} TakeAllGrows(log: seq<Entry>, batch: seq<Arrival>)
    ensures log <= TakeAll(log, batch)
  {
    if batch != [] {
      TakeAllGrows(log, batch[..|batch| - 1]);
    }
  }

  ghost predicate AllSettled(log: seq<Entry>, batch: seq<Arrival>) {
    forall i :: 0 <= i < |batch| ==> Settled(log, batch[i])
  }

  lemma {:induction false} AllSettledSnoc(log: seq<Entry>, batch: seq<Arrival>)
    requires batch != []
    ensures AllSettled(log, batch) <==> AllSettled(log, batch[..|batch| - 1]) && Settled(log, batch[|batch| - 1])
  {
    var init := batch[..|batch| - 1];
    assert forall i :: 0 <= i < |init| ==> init[i] == batch[i];
  }

  // Recording a batch changes nothing exactly when each of its rows is settled already.
  lemma {:induction false} NothingNewIffSettled(log: seq<Entry>, batch: seq<Arrival>)
    ensures TakeAll(log, batch) == log <==> forall i :: 0 <= i < |batch| ==> Settled(log, batch[i])
  {
    if batch != [] {
      var init, last := batch[..|batch| - 1], batch[|batch| - 1];
      NothingNewIffSettled(log, init);
      AllSettledSnoc(log, batch);
      TakeAllGrows(log, init);
      TakeSettles(TakeAll(log, init), last);
      assert TakeAll(log, batch) == Take(TakeAll(log, init), last);
      assert Take(TakeAll(log, init), last) == log ==> TakeAll(log, init) == log;
    }
  }

  // So leaving a batch unrecorded loses nothing exactly when each of its rows is held already or
  // would be refused.
  lemma {:induction false} NeedlessIffSettled(log: seq<Entry>, batch: seq<Arrival>)
    ensures Recorded(log, batch) == log <==> forall i :: 0 <= i < |batch| ==> Settled(log, batch[i])
  {
    var s := InOrder(batch);
    NothingNewIffSettled(log, s);
    Sorting.SortKeeps(batch, RankOf);
    assert forall i :: 0 <= i < |batch| ==> batch[i] in s;
    assert forall j :: 0 <= j < |s| ==> s[j] in batch;
  }

  lemma {:induction false} TakeAllAppend(log: seq<Entry>, x: seq<Arrival>, y: seq<Arrival>)
    ensures TakeAll(log, x + y) == TakeAll(TakeAll(log, x), y)
  {
    if y == [] {
      assert x + y == x;
    } else {
      assert (x + y)[..|x + y| - 1] == x + y[..|y| - 1];
      TakeAllAppend(log, x, y[..|y| - 1]);
    }
  }

  lemma {:induction false} TakesAlone(log: seq<Entry>, a: Arrival)
    ensures TakeAll(log, [a]) == Take(log, a)
  {
    assert [a][..0] == [];
    assert TakeAll(log, []) == log;
  }

  lemma {:induction false} AloneInOrder(a: Arrival)
    ensures InOrder([a]) == [a]
  {
    Sorting.SortOfSorted([a], RankOf);
  }

  lemma {:induction false} InOrderFlags(batch: seq<Arrival>)
    requires FlagsOnlyResolves(batch)
    ensures FlagsOnlyResolves(InOrder(batch))
  {
    var s := InOrder(batch);
    Sorting.SortKeeps(batch, RankOf);
    forall i | 0 <= i < |s| && s[i].requiresOpen ensures s[i].row.to == Normal {
      assert s[i] in batch;
    }
  }

  // A batch recorded in part (the store raised after `done` rows) and then recorded again
  // leaves what recording it once would have left: nothing is lost and nothing is doubled.
  lemma {:induction false} RetryFinishes(log: seq<Entry>, batch: seq<Arrival>, done: nat)
    requires FlagsOnlyResolves(batch) && done <= |InOrder(batch)|
    ensures Recorded(TakeAll(log, InOrder(batch)[..done]), batch) == Recorded(log, batch)
  {
    var s := InOrder(batch);
    var first, rest := s[..done], s[done..];
    var mid := TakeAll(log, first);
    InOrderFlags(batch);
    Sorting.SortSorts(batch, RankOf);
    forall i | 0 <= i < |first| ensures Settled(mid, first[i]) {
      OrderedBatchSettles(log, first, i);
    }
    NothingNewIffSettled(mid, first);
    assert s == first + rest;
    TakeAllAppend(log, first, rest);
    TakeAllAppend(mid, first, rest);
  }

  // Recording a fresh copy of a batch adds nothing, the resolves refused the first time included.
  lemma {:induction false} RecordTwice(log: seq<Entry>, batch: seq<Arrival>)
    requires FlagsOnlyResolves(batch)
    ensures Recorded(Recorded(log, batch), batch) == Recorded(log, batch)
  {
    assert InOrder(batch)[..|InOrder(batch)|] == InOrder(batch);
    RetryFinishes(log, batch, |InOrder(batch)|);
  }

  // ------------------------------------------------------------------ the reader's memo

  function SeenKeys(batch: seq<Arrival>): set<Key> {
    set i | 0 <= i < |batch| :: batch[i].row.TransitionKey()
  }

  // What a remembered set of keys says of the log: each is kept, or no resolve of it would be.
  ghost predicate Remembered(log: seq<Entry>, seen: set<Key>) {
    forall k :: k in seen ==> k in Keys(log) || !AdmitsKey(log, k)
  }

  predicate AdmitsKey(log: seq<Entry>, k: Key) {
    var last := Latest(log, k.identity);
    last.Some? && !last.value.normal && last.value.at <= k.at
  }

  lemma {:induction false} RecordingRemembers(log: seq<Entry>, batch: seq<Arrival>)
    requires FlagsOnlyResolves(batch)
    ensures Remembered(Recorded(log, batch), SeenKeys(batch))
  {
    var s := InOrder(batch);
    InOrderFlags(batch);
    Sorting.SortSorts(batch, RankOf);
    Sorting.SortKeeps(batch, RankOf);
    forall k | k in SeenKeys(batch)
      ensures k in Keys(Recorded(log, batch)) || !AdmitsKey(Recorded(log, batch), k)
    {
      var i :| 0 <= i < |batch| && batch[i].row.TransitionKey() == k;
      assert batch[i] in s;
      var j :| 0 <= j < |s| && s[j] == batch[i];
      OrderedBatchSettles(log, s, j);
    }
  }

  // The skip is taken on the keys alone. It leaves the store as not skipping would exactly when
  // every unflagged row of the new value is already kept.
  lemma {:induction false} SkipIsExact(log: seq<Entry>, seen: set<Key>, batch: seq<Arrival>)
    requires Remembered(log, seen) && SeenKeys(batch) <= seen
    ensures Recorded(log, batch) == log
       <==> forall i :: 0 <= i < |batch| && !batch[i].requiresOpen ==> Held(log, batch[i])
  {
    var s := InOrder(batch);
    NothingNewIffSettled(log, s);
    Sorting.SortKeeps(batch, RankOf);
    forall i | 0 <= i < |batch| && batch[i].requiresOpen ensures Settled(log, batch[i]) {
      assert batch[i].row.TransitionKey() in SeenKeys(batch);
    }
    if forall i :: 0 <= i < |batch| && !batch[i].requiresOpen ==> Held(log, batch[i]) {
      forall j | 0 <= j < |s| ensures Settled(log, s[j]) {
        assert s[j] in batch;
      }
    } else {
      var i :| 0 <= i < |batch| && !batch[i].requiresOpen && !Held(log, batch[i]);
      assert batch[i] in s;
      var j :| 0 <= j < |s| && s[j] == batch[i];
      assert !Settled(log, s[j]);
    }
  }

  // ------------------------------------------------------------------ what the reader flags

  // The reader sorts an instance by the word of its state: one that begins with "normal" is a
  // resolve, handed over flagged, and no other is.
  predicate ReadsNormal(word: string) { "normal" <= word }

  predicate FlagsByWord(batch: seq<Arrival>) {
    forall i :: 0 <= i < |batch| ==> (batch[i].requiresOpen <==> ReadsNormal(batch[i].row.word))
  }

  // What the reader hands over of one instance. The word kept is the state's, in lower case and
  // trimmed; the sorting is by the state in lower case as it stands.
  function FromReader(id: Identity, state: string, at: Second, kind: Kind, networks: seq<string>): Arrival {
    var normal := ReadsNormal(Lower(state));
    Arrival(Row(id, Texts.Strip(Lower(state)), at, if normal then Normal else kind, networks), normal)
  }

  function LowerChar(c: char): char {
    if 'A' <= c <= 'Z' then c + 'a' - 'A' else c
  }

  // Each capital has its own small letter, and nothing else changes.
  lemma {:induction false} LowersAre(c: char)
    ensures forall i :: 0 <= i < 26 && c == "ABCDEFGHIJKLMNOPQRSTUVWXYZ"[i] ==>
              LowerChar(c) == "abcdefghijklmnopqrstuvwxyz"[i]
    ensures c !in "ABCDEFGHIJKLMNOPQRSTUVWXYZ" ==> LowerChar(c) == c
  {
    Texts.LettersAre(c);
  }

  function Lower(s: string): (r: string)
    ensures |r| == |s| && forall i :: 0 <= i < |s| ==> r[i] == LowerChar(s[i])
  {
    if s == "" then "" else [LowerChar(s[0])] + Lower(s[1..])
  }

  // Trimming cuts a tail of white space off, and what begins without any keeps its beginning.
  lemma {:induction false} StripKeepsHead(s: string)
    requires s != "" && !Texts.IsSpace(s[0])
    ensures Texts.Strip(s) != "" && Texts.Strip(s) <= s
    ensures Texts.Blank(s[|Texts.Strip(s)|..])
    decreases |s|
  {
    if Texts.IsSpace(s[|s| - 1]) {
      StripKeepsHead(s[..|s| - 1]);
      var t := Texts.Strip(s[..|s| - 1]);
      assert s[|t|..] == s[..|s| - 1][|t|..] + [s[|s| - 1]];
    } else {
      assert s[|s|..] == "";
    }
  }

  lemma {:induction false} HeadDecides(s: string, word: string)
    requires word <= s && Texts.Blank(s[|word|..])
    ensures ReadsNormal(s) <==> ReadsNormal(word)
  {
    assert |word| < |s| ==> Texts.IsSpace(s[|word|..][0]);
    assert |word| < |s| ==> s[|word|..][0] == s[|word|];
  }

  // So the flag follows the word kept, except for a state that begins with white space before the
  // word "normal": that one is handed over unflagged, and its word is a resolve's.
  lemma {:induction false} FlagFollowsWordIff(id: Identity, state: string, at: Second, kind: Kind,
                                              networks: seq<string>)
    ensures FlagsByWord([FromReader(id, state, at, kind, networks)])
       <==> state == "" || !Texts.IsSpace(Lower(state)[0]) || !ReadsNormal(Texts.Strip(Lower(state)))
    ensures FlagsOnlyResolves([FromReader(id, state, at, kind, networks)])
  {
    if state != "" && !Texts.IsSpace(Lower(state)[0]) {
      StripKeepsHead(Lower(state));
      HeadDecides(Lower(state), Texts.Strip(Lower(state)));
    }
    assert [FromReader(id, state, at, kind, networks)][0] == FromReader(id, state, at, kind, networks);
  }

  // What a call that judged all of a value leaves of its keys: each resolve's is kept or would be
  // refused, and every other one's is kept.
  ghost predicate Settles(log: seq<Entry>, seen: set<Key>) {
    Remembered(log, seen) && forall k :: k in seen && !ReadsNormal(k.word) ==> k in Keys(log)
  }

  lemma {:induction false} RecordingSettles(log: seq<Entry>, batch: seq<Arrival>)
    requires FlagsOnlyResolves(batch) && FlagsByWord(batch)
    ensures Settles(Recorded(log, batch), SeenKeys(batch))
  {
    var s := InOrder(batch);
    RecordingRemembers(log, batch);
    InOrderFlags(batch);
    Sorting.SortSorts(batch, RankOf);
    Sorting.SortKeeps(batch, RankOf);
    forall k | k in SeenKeys(batch) && !ReadsNormal(k.word) ensures k in Keys(Recorded(log, batch)) {
      var i :| 0 <= i < |batch| && batch[i].row.TransitionKey() == k;
      assert batch[i] in s;
      var j :| 0 <= j < |s| && s[j] == batch[i];
      OrderedBatchSettles(log, s, j);
    }
  }

  // A value of remembered keys, flagged as the reader flags, has nothing in it to record.
  lemma {:induction false} SkipLosesNothing(log: seq<Entry>, seen: set<Key>, batch: seq<Arrival>)
    requires Settles(log, seen) && SeenKeys(batch) <= seen && FlagsByWord(batch)
    ensures Recorded(log, batch) == log
  {
    forall i | 0 <= i < |batch| && !batch[i].requiresOpen ensures Held(log, batch[i]) {
      assert batch[i].row.TransitionKey() in SeenKeys(batch);
    }
    SkipIsExact(log, seen, batch);
  }

  // So a second read of the same value, flags and all, is rightly skipped.
  lemma {:induction false} SameValueSkips(log: seq<Entry>, first: seq<Arrival>, again: seq<Arrival>)
    requires FlagsOnlyResolves(first)
    requires SeenKeys(again) == SeenKeys(first)
    requires forall i, j :: 0 <= i < |first| && 0 <= j < |again|
               && first[i].row.TransitionKey() == again[j].row.TransitionKey()
               ==> first[i].requiresOpen == again[j].requiresOpen
    ensures Recorded(Recorded(log, first), again) == Recorded(log, first)
  {
    var after := Recorded(log, first);
    RecordingRemembers(log, first);
    SkipIsExact(after, SeenKeys(first), again);
    var s := InOrder(first);
    InOrderFlags(first);
    Sorting.SortSorts(first, RankOf);
    Sorting.SortKeeps(first, RankOf);
    forall j | 0 <= j < |again| && !again[j].requiresOpen ensures Held(after, again[j]) {
      assert again[j].row.TransitionKey() in SeenKeys(first);
      var i :| 0 <= i < |first| && first[i].row.TransitionKey() == again[j].row.TransitionKey();
      assert first[i] in s;
      var k :| 0 <= k < |s| && s[k] == first[i];
      OrderedBatchSettles(log, s, k);
    }
  }

  // ------------------------------------------------------------------ alternation

  function Rows(log: seq<Entry>): seq<Row> {
    if log == [] then []
    else Rows(log[..|log| - 1]) + if log[|log| - 1].Transition? then [log[|log| - 1].row] else []
  }

  lemma {:induction false} RowsAre(log: seq<Entry>, r: Row)
    ensures r in Rows(log) <==> exists i :: 0 <= i < |log| && log[i] == Transition(r)
  {
    if log != [] {
      RowsAre(log[..|log| - 1], r);
      assert forall i :: 0 <= i < |log| - 1 ==> log[i] == log[..|log| - 1][i];
    }
  }

  lemma {:induction false} RowsAreKeyed(log: seq<Entry>)
    ensures forall r :: r in Rows(log) ==> r.TransitionKey() in Keys(log)
  {
    forall r | r in Rows(log) ensures r.TransitionKey() in Keys(log) {
      RowsAre(log, r);
    }
  }

  ghost predicate DistinctKeys(rows: seq<Row>) {
    forall i, j :: 0 <= i < j < |rows| ==> rows[i].TransitionKey() != rows[j].TransitionKey()
  }

  // A state of the instance strictly between two marks.
  ghost predicate Between(rows: seq<Row>, id: Identity, low: int, high: int) {
    exists k :: 0 <= k < |rows| && rows[k].identity == id && rows[k].to != Normal
                && low < rows[k].When().Rank() < high
  }

  ghost predicate ResolvePair(rows: seq<Row>, i: int, j: int) {
    && 0 <= i < |rows| && 0 <= j < |rows| && i != j
    && rows[i].to == Normal && rows[j].to == Normal && rows[i].identity == rows[j].identity
    && rows[i].When().Rank() <= rows[j].When().Rank()
  }

  // Between two resolves of an instance there is a state.
  ghost predicate ResolvesApart(rows: seq<Row>) {
    forall i, j :: ResolvePair(rows, i, j) ==>
      Between(rows, rows[i].identity, rows[i].When().Rank(), rows[j].When().Rank())
  }

  // And before every resolve there is the state it ends.
  ghost predicate Alternating(rows: seq<Row>) {
    && (forall j :: 0 <= j < |rows| && rows[j].to == Normal ==>
          Between(rows, rows[j].identity, -1, rows[j].When().Rank()))
    && ResolvesApart(rows)
  }

  lemma {:induction false} BetweenStays(rows: seq<Row>, r: Row, id: Identity, low: int, high: int)
    requires Between(rows, id, low, high)
    ensures Between(rows + [r], id, low, high)
  {
    var k :| 0 <= k < |rows| && rows[k].identity == id && rows[k].to != Normal
             && low < rows[k].When().Rank() < high;
    assert (rows + [r])[k] == rows[k];
  }

  ghost predicate Sound(log: seq<Entry>) {
    DistinctKeys(Rows(log)) && Alternating(Rows(log))
  }

  lemma {:induction false} TakeRows(log: seq<Entry>, row: Row)
    ensures Rows(log + [Transition(row)]) == Rows(log) + [row]
  {
    assert (log + [Transition(row)])[..|log|] == log;
  }

  // Everything an instance has recorded is no later than the state a resolve is let in by.
  lemma {:induction false} AdmittedAfterAll(log: seq<Entry>, row: Row)
    requires Admits(log, row) && row.to == Normal
    ensures forall i :: 0 <= i < |Rows(log)| && Rows(log)[i].identity == row.identity && Rows(log)[i].to == Normal ==>
              Between(Rows(log), row.identity, Rows(log)[i].When().Rank(), row.When().Rank())
    ensures forall i :: 0 <= i < |Rows(log)| && Rows(log)[i].identity == row.identity ==>
              Rows(log)[i].When().Rank() < row.When().Rank()
    ensures Between(Rows(log), row.identity, -1, row.When().Rank())
  {
    var rows, m := Rows(log), Latest(log, row.identity).value;
    var e :| 0 <= e < |log| && IsRowOf(log[e], row.identity) && log[e].row.When() == m;
    RowsAre(log, log[e].row);
    var w :| 0 <= w < |rows| && rows[w] == log[e].row;
    forall i | 0 <= i < |rows| && rows[i].identity == row.identity
      ensures rows[i].When().Rank() <= m.Rank()
    {
      RowsAre(log, rows[i]);
    }
  }

  // A resolve let in past the gate lies after everything its instance had recorded.
  lemma {:induction false} ResolveKeepsAlternating(log: seq<Entry>, row: Row)
    requires Alternating(Rows(log))
    requires row.to == Normal && Admits(log, row)
    ensures Alternating(Rows(log) + [row])
  {
    var rows := Rows(log);
    var t := rows + [row];
    AdmittedAfterAll(log, row);
    forall j | 0 <= j < |t| && t[j].to == Normal
      ensures Between(t, t[j].identity, -1, t[j].When().Rank())
    {
      BetweenStays(rows, row, t[j].identity, -1, t[j].When().Rank());
    }
    forall i, j | ResolvePair(t, i, j)
      ensures Between(t, t[i].identity, t[i].When().Rank(), t[j].When().Rank())
    {
      if i < |rows| {
        assert j < |rows| ==> ResolvePair(rows, i, j);
        BetweenStays(rows, row, t[i].identity, t[i].When().Rank(), t[j].When().Rank());
      }
    }
  }

  lemma {:induction false} StateKeepsAlternating(rows: seq<Row>, row: Row)
    requires Alternating(rows) && row.to != Normal
    ensures Alternating(rows + [row])
  {
    var t := rows + [row];
    forall j | 0 <= j < |t| && t[j].to == Normal
      ensures Between(t, t[j].identity, -1, t[j].When().Rank())
    {
      BetweenStays(rows, row, rows[j].identity, -1, rows[j].When().Rank());
    }
    forall i, j | ResolvePair(t, i, j)
      ensures Between(t, t[i].identity, t[i].When().Rank(), t[j].When().Rank())
    {
      assert ResolvePair(rows, i, j);
      BetweenStays(rows, row, rows[i].identity, rows[i].When().Rank(), rows[j].When().Rank());
    }
  }

  // No arrival adds a key the log holds, whatever else the log holds.
  lemma {:induction false} TakeKeepsKeys(log: seq<Entry>, a: Arrival)
    requires DistinctKeys(Rows(log))
    ensures DistinctKeys(Rows(Take(log, a)))
  {
    if !Settled(log, a) {
      TakeRows(log, a.row);
      RowsAreKeyed(log);
    }
  }

  // A resolve recorded without the gate fits when there is a state before it and one between it and
  // each other resolve of its instance.
  ghost predicate Fits(rows: seq<Row>, r: Row) {
    && Between(rows, r.identity, -1, r.When().Rank())
    && forall i :: 0 <= i < |rows| && rows[i].identity == r.identity && rows[i].to == Normal ==>
         FitsBeside(rows, r, rows[i].When().Rank())
  }

  ghost predicate FitsBeside(rows: seq<Row>, r: Row, other: int) {
    if other <= r.When().Rank() then Between(rows, r.identity, other, r.When().Rank())
    else Between(rows, r.identity, r.When().Rank(), other)
  }

  lemma {:induction false} BetweenSame(rows: seq<Row>, r: Row, id: Identity, low: int, high: int)
    requires r.to == Normal
    ensures Between(rows + [r], id, low, high) <==> Between(rows, id, low, high)
  {
    var t := rows + [r];
    if Between(rows, id, low, high) {
      BetweenStays(rows, r, id, low, high);
    }
    if Between(t, id, low, high) {
      var k :| 0 <= k < |t| && t[k].identity == id && t[k].to != Normal && low < t[k].When().Rank() < high;
      assert rows[k] == t[k];
    }
  }

  // Whatever its flag, a resolve keeps resolves and states alternating exactly when it fits.
  lemma {:induction false} ResolveAlternatesIffFits(rows: seq<Row>, r: Row)
    requires Alternating(rows) && r.to == Normal
    ensures Alternating(rows + [r]) <==> Fits(rows, r)
  {
    var t := rows + [r];
    forall id, low, high ensures Between(t, id, low, high) <==> Between(rows, id, low, high) {
      BetweenSame(rows, r, id, low, high);
    }
    if Alternating(t) {
      assert t[|rows|] == r;
      forall i | 0 <= i < |rows| && rows[i].identity == r.identity && rows[i].to == Normal
        ensures FitsBeside(rows, r, rows[i].When().Rank())
      {
        assert t[i] == rows[i];
        assert ResolvePair(t, i, |rows|) || ResolvePair(t, |rows|, i);
      }
    }
    if Fits(rows, r) {
      forall i, j | ResolvePair(t, i, j) ensures Between(t, t[i].identity, t[i].When().Rank(), t[j].When().Rank()) {
        FittingPair(rows, r, i, j);
      }
    }
  }

  lemma {:induction false} FittingPair(rows: seq<Row>, r: Row, i: int, j: int)
    requires Alternating(rows) && Fits(rows, r) && ResolvePair(rows + [r], i, j)
    ensures var t := rows + [r]; Between(rows, t[i].identity, t[i].When().Rank(), t[j].When().Rank())
  {
    if i < |rows| && j < |rows| {
      assert ResolvePair(rows, i, j);
    } else {
      var other := rows[if i < |rows| then i else j];
      assert FitsBeside(rows, r, other.When().Rank());
    }
  }

  // What may become of an arrival without spoiling the log: nothing, a state, a resolve that fits.
  ghost predicate FitsIn(log: seq<Entry>, a: Arrival) {
    Settled(log, a) || a.row.to != Normal || Fits(Rows(log), a.row)
  }

  lemma {:induction false} TakeKeepsSoundIff(log: seq<Entry>, a: Arrival)
    requires Sound(log)
    ensures Sound(Take(log, a)) <==> FitsIn(log, a)
  {
    TakeKeepsKeys(log, a);
    if !Settled(log, a) {
      TakeRows(log, a.row);
      if a.row.to == Normal {
        ResolveAlternatesIffFits(Rows(log), a.row);
      } else {
        StateKeepsAlternating(Rows(log), a.row);
      }
    }
  }

  // A flagged resolve that is let in always fits.
  lemma {:induction false} FlaggedFits(log: seq<Entry>, a: Arrival)
    requires Alternating(Rows(log)) && (a.row.to == Normal ==> a.requiresOpen)
    ensures FitsIn(log, a)
  {
    if a.row.to == Normal && !Settled(log, a) {
      ResolveKeepsAlternating(log, a.row);
      ResolveAlternatesIffFits(Rows(log), a.row);
    }
  }

  ghost predicate FitThroughout(log: seq<Entry>, rows: seq<Arrival>) {
    forall k :: 0 <= k < |rows| ==> FitsIn(TakeAll(log, rows[..k]), rows[k])
  }

  ghost predicate SoundThroughout(log: seq<Entry>, rows: seq<Arrival>) {
    forall k :: 0 <= k <= |rows| ==> Sound(TakeAll(log, rows[..k]))
  }

  // The log stays sound through all of the rows exactly when each fits at its turn.
  lemma {:induction false} SoundIffFitting(log: seq<Entry>, rows: seq<Arrival>)
    requires Sound(log)
    ensures SoundThroughout(log, rows) <==> FitThroughout(log, rows)
  {
    if SoundThroughout(log, rows) {
      forall k | 0 <= k < |rows| ensures FitsIn(TakeAll(log, rows[..k]), rows[k]) {
        assert Sound(TakeAll(log, rows[..k])) && Sound(TakeAll(log, rows[..k + 1]));
        TakesNext(log, rows, k);
        TakeKeepsSoundIff(TakeAll(log, rows[..k]), rows[k]);
      }
    }
    if FitThroughout(log, rows) {
      forall k | 0 <= k <= |rows| ensures Sound(TakeAll(log, rows[..k])) {
        FittingStaysSound(log, rows, k);
      }
    }
  }

  lemma {:induction false} FittingStaysSound(log: seq<Entry>, rows: seq<Arrival>, k: nat)
    requires Sound(log) && FitThroughout(log, rows) && k <= |rows|
    ensures Sound(TakeAll(log, rows[..k]))
  {
    if k > 0 {
      FittingStaysSound(log, rows, k - 1);
      TakesNext(log, rows, k - 1);
      TakeKeepsSoundIff(TakeAll(log, rows[..k - 1]), rows[k - 1]);
    } else {
      assert rows[..0] == [];
    }
  }

  lemma {:induction false} FlaggedFitThroughout(log: seq<Entry>, rows: seq<Arrival>)
    requires Sound(log) && FlagsEveryResolve(rows)
    ensures FitThroughout(log, rows)
  {
    forall k | 0 <= k < |rows| ensures FitsIn(TakeAll(log, rows[..k]), rows[k]) {
      FlaggedStaysSound(log, rows, k);
      FlaggedFits(TakeAll(log, rows[..k]), rows[k]);
    }
  }

  lemma {:induction false} FlaggedStaysSound(log: seq<Entry>, rows: seq<Arrival>, k: nat)
    requires Sound(log) && FlagsEveryResolve(rows) && k <= |rows|
    ensures Sound(TakeAll(log, rows[..k]))
  {
    if k > 0 {
      FlaggedStaysSound(log, rows, k - 1);
      TakesNext(log, rows, k - 1);
      FlaggedFits(TakeAll(log, rows[..k - 1]), rows[k - 1]);
      TakeKeepsSoundIff(TakeAll(log, rows[..k - 1]), rows[k - 1]);
    } else {
      assert rows[..0] == [];
    }
  }

  // ------------------------------------------------------------------ runs

  // One call of `record`: its batch, and how many of its ordered rows were judged before the
  // store failed (all of them when it did not).
  datatype Delivery = Delivery(batch: seq<Arrival>, done: nat)

  // The rows judged, in the order they were.
  function Judged(d: Delivery): seq<Arrival> {
    if d.done <= |InOrder(d.batch)| then InOrder(d.batch)[..d.done] else InOrder(d.batch)
  }

  function Deliver(log: seq<Entry>, d: Delivery): seq<Entry> { TakeAll(log, Judged(d)) }

  function DeliverAll(log: seq<Entry>, ds: seq<Delivery>): seq<Entry> {
    if ds == [] then log else Deliver(DeliverAll(log, ds[..|ds| - 1]), ds[|ds| - 1])
  }

  lemma {:induction false} JudgedAreFlagged(d: Delivery)
    requires FlagsEveryResolve(d.batch)
    ensures FlagsEveryResolve(Judged(d))
  {
    var rows := Judged(d);
    Sorting.SortKeeps(d.batch, RankOf);
    forall i | 0 <= i < |rows| && rows[i].row.to == Normal ensures rows[i].requiresOpen {
      assert rows[i] in InOrder(d.batch);
      assert rows[i] in d.batch;
    }
  }

  lemma {:induction false} DeliverKeepsSound(log: seq<Entry>, d: Delivery)
    requires Sound(log) && FlagsEveryResolve(d.batch)
    ensures Sound(Deliver(log, d))
  {
    JudgedAreFlagged(d);
    FlaggedStaysSound(log, Judged(d), |Judged(d)|);
    assert Judged(d)[..|Judged(d)|] == Judged(d);
  }

  // Over every run of writers that flag their resolves, as the reader and the detections do, from the
  // empty store, in whatever order their batches and the times in them arrive and whichever calls
  // fail part way, every resolve kept alternates with the states of its instance and no transition is
  // kept twice.
  lemma {:induction false} EveryRunAlternates(ds: seq<Delivery>)
    requires forall i :: 0 <= i < |ds| ==> FlagsEveryResolve(ds[i].batch)
    ensures Sound(DeliverAll([], ds))
  {
    if ds != [] {
      EveryRunAlternates(ds[..|ds| - 1]);
      DeliverKeepsSound(DeliverAll([], ds[..|ds| - 1]), ds[|ds| - 1]);
    }
  }

  // ------------------------------------------------------------------ writers that flag nothing

  // A Grafana annotation as the backfill hands it over: never flagged, and left out only between two
  // normal states or without a time.
  function FromAnnotation(id: Identity, state: string, kind: Kind, prev: Kind, at: Option<Second>,
                          networks: seq<string>): Option<Arrival> {
    if (kind == Normal && prev == Normal) || at.None? then None
    else Some(Arrival(Row(id, Texts.Strip(Lower(state)), at.value, kind, networks), false))
  }

  // Every row of a run, in the order they were judged.
  function AllJudged(ds: seq<Delivery>): seq<Arrival> {
    if ds == [] then [] else AllJudged(ds[..|ds| - 1]) + Judged(ds[|ds| - 1])
  }

  lemma {:induction false} DeliversAllJudged(log: seq<Entry>, ds: seq<Delivery>)
    ensures DeliverAll(log, ds) == TakeAll(log, AllJudged(ds))
  {
    if ds != [] {
      var init := ds[..|ds| - 1];
      DeliversAllJudged(log, init);
      TakeAllAppend(log, AllJudged(init), Judged(ds[|ds| - 1]));
    }
  }

  // Over every run of any writers, the backfill among them: resolves alternate with states after
  // every row exactly when each resolve that was kept fitted at its turn.
  lemma {:induction false} EveryRunAlternatesIff(ds: seq<Delivery>)
    ensures DeliverAll([], ds) == TakeAll([], AllJudged(ds))
    ensures SoundThroughout([], AllJudged(ds)) <==> FitThroughout([], AllJudged(ds))
  {
    DeliversAllJudged([], ds);
    SoundIffFitting([], AllJudged(ds));
  }

  lemma {:induction false} TakeAllKeepsKeys(log: seq<Entry>, rows: seq<Arrival>)
    requires DistinctKeys(Rows(log))
    ensures DistinctKeys(Rows(TakeAll(log, rows)))
  {
    if rows != [] {
      TakeAllKeepsKeys(log, rows[..|rows| - 1]);
      TakeKeepsKeys(TakeAll(log, rows[..|rows| - 1]), rows[|rows| - 1]);
    }
  }
}
