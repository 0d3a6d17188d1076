// `episodes` as it runs: group the served rows, sort and fold each group, list the newest first.
module AlertHistoryPage {
  import opened Wrappers
  import opened AlertLog
  import opened AlertGate
  import opened AlertEpisodes
  import Sorting

  // An episode as listed: whose it is, and whether it goes on now.
  datatype Listed = Listed(identity: Identity, episode: Episode, ongoing: bool)

  // One still open is ongoing when the reader holds its instance now.
  function Label(id: Identity, es: seq<Episode>, firing: set<Identity>): (r: seq<Listed>)
    ensures |r| == |es|
  {
    Sorting.Map(es, (e: Episode) => Listed(id, e, e.resolve.None? && id in firing))
  }

  function NewestFirst(l: Listed): real {
    if l.episode.states == [] then 0.0 else -(l.episode.StartedAt() as real)
  }

  function Backwards<T>(s: seq<T>): (r: seq<T>)
    ensures |r| == |s|
    ensures forall i :: 0 <= i < |s| ==> r[i] == s[|s| - 1 - i]
  {
    seq(|s|, i requires 0 <= i < |s| => s[|s| - 1 - i])
  }

  function Of(id: Identity): Listed -> bool { (l: Listed) => l.identity == id }

  function OfInstance(s: seq<Listed>, id: Identity): seq<Listed> { Sorting.Filter(s, Of(id)) }

  // The fold over one instance's rows, already in order.
  method Fold(rs: seq<Row>) returns (out: seq<Episode>)
    ensures out == FoldFrom([], rs)
  {
    out := [];
    var open: seq<Row> := [];
    for i := 0 to |rs|
      invariant out + FoldFrom(open, rs[i..]) == FoldFrom([], rs)
    {
      assert rs[i..][0] == rs[i] && rs[i..][1..] == rs[i + 1..];
      if rs[i].to != Normal {
        open := open + [rs[i]];
      } else if open != [] {
        assert out + FoldFrom(open, rs[i..]) == out + [Episode(open, Some(rs[i]))] + FoldFrom([], rs[i + 1..]);
        out := out + [Episode(open, Some(rs[i]))];
        open := [];
      }
    }
    if open != [] {
      out := out + [Episode(open, None)];
    }
  }

  ghost predicate GroupsOf(groups: map<Identity, seq<Row>>, rows: seq<Row>) {
    forall id :: if id in groups then groups[id] == RowsOf(rows, id) else RowsOf(rows, id) == []
  }

  ghost predicate KeysOnce(groups: map<Identity, seq<Row>>, order: seq<Identity>) {
    && (forall id :: id in groups <==> id in order)
    && (forall i, j :: 0 <= i < j < |order| ==> order[i] != order[j])
  }

  function WithRow(groups: map<Identity, seq<Row>>, r: Row): map<Identity, seq<Row>> {
    groups[r.identity := (if r.identity in groups then groups[r.identity] else []) + [r]]
  }

  lemma {:induction false} GroupsSnoc(groups: map<Identity, seq<Row>>, rows: seq<Row>, r: Row)
    requires GroupsOf(groups, rows)
    ensures GroupsOf(WithRow(groups, r), rows + [r])
  {
    forall id ensures RowsOf(rows + [r], id) == RowsOf(rows, id) + if r.identity == id then [r] else [] {
      Sorting.FilterSnoc(rows, r, IsOf(id));
    }
  }

  lemma {:induction false} KeysSnocOnce(groups: map<Identity, seq<Row>>, order: seq<Identity>, r: Row)
    requires KeysOnce(groups, order)
    ensures KeysOnce(WithRow(groups, r), if r.identity in groups then order else order + [r.identity])
  {
    assert forall id :: id in order + [r.identity] <==> id in order || id == r.identity;
  }

  // The groups as the dictionary builds them, and its keys in the order they first appear.
  method Group(rows: seq<Row>) returns (groups: map<Identity, seq<Row>>, order: seq<Identity>)
    ensures GroupsOf(groups, rows) && KeysOnce(groups, order)
  {
    groups, order := map[], [];
    for i := 0 to |rows|
      invariant GroupsOf(groups, rows[..i]) && KeysOnce(groups, order)
    {
      var r := rows[i];
      assert rows[..i + 1] == rows[..i] + [r];
      GroupsSnoc(groups, rows[..i], r);
      KeysSnocOnce(groups, order, r);
      if r.identity !in groups {
        order := order + [r.identity];
        groups := groups[r.identity := []];
      }
      groups := groups[r.identity := groups[r.identity] + [r]];
    }
    assert rows[..|rows|] == rows;
  }

  lemma {:induction false} LabelFilter(ls: seq<Listed>, a: Identity, b: Identity)
    requires forall i :: 0 <= i < |ls| ==> ls[i].identity == a
    ensures OfInstance(ls, b) == if a == b then ls else []
  {
    if ls != [] {
      var init, last := ls[..|ls| - 1], ls[|ls| - 1];
      LabelFilter(init, a, b);
      assert last.identity == a;
      assert Of(b)(last) == (a == b);
      assert ls == init + [last];
    }
  }

  // Sorting a list already strictly in the other order turns it round.
  lemma {:induction false} InsertAtFront(x: Listed, s: seq<Listed>)
    requires forall i :: 0 <= i < |s| ==> NewestFirst(x) < NewestFirst(s[i])
    ensures Sorting.Insert(x, s, NewestFirst) == [x] + s
  {
    if s != [] {
      InsertAtFront(x, s[..|s| - 1]);
      assert s == s[..|s| - 1] + [s[|s| - 1]];
    }
  }

  lemma {:induction false} SortTurnsRound(s: seq<Listed>)
    requires forall i, j :: 0 <= i < j < |s| ==> NewestFirst(s[j]) < NewestFirst(s[i])
    ensures Sorting.Sort(s, NewestFirst) == Backwards(s)
  {
    if s != [] {
      var init, last := s[..|s| - 1], s[|s| - 1];
      SortTurnsRound(init);
      InsertAtFront(last, Backwards(init));
      assert Backwards(s) == [last] + Backwards(init);
    }
  }

  lemma {:induction false} LabelsDescend(rows: seq<Row>, id: Identity, firing: set<Identity>)
    ensures Sorting.Sort(Label(id, EpisodesOf(rows, id), firing), NewestFirst)
         == Backwards(Label(id, EpisodesOf(rows, id), firing))
  {
    var es := EpisodesOf(rows, id);
    var ls := Label(id, es, firing);
    EpisodesInTimeOrder(rows, id);
    forall i, j | 0 <= i < j < |ls| ensures NewestFirst(ls[j]) < NewestFirst(ls[i]) {
      assert Closed(es[i]);
    }
    SortTurnsRound(ls);
  }

  ghost predicate Grouped(out: seq<Listed>, rows: seq<Row>, ids: seq<Identity>, firing: set<Identity>) {
    forall id :: OfInstance(out, id) == if id in ids then Label(id, EpisodesOf(rows, id), firing) else []
  }

  lemma {:induction false} OneInstanceMore(out: seq<Listed>, ls: seq<Listed>, id: Identity, other: Identity)
    requires forall i :: 0 <= i < |ls| ==> ls[i].identity == id
    ensures OfInstance(out + ls, other) == OfInstance(out, other) + if id == other then ls else []
  {
    Sorting.FilterAppend(out, ls, Of(other));
    LabelFilter(ls, id, other);
  }

  lemma {:induction false} GroupedSnoc(out: seq<Listed>, rows: seq<Row>, ids: seq<Identity>, id: Identity,
                                       firing: set<Identity>)
    requires Grouped(out, rows, ids, firing) && id !in ids
    ensures Grouped(out + Label(id, EpisodesOf(rows, id), firing), rows, ids + [id], firing)
  {
    var ls := Label(id, EpisodesOf(rows, id), firing);
    forall other ensures OfInstance(out + ls, other)
                      == if other in ids + [id] then Label(other, EpisodesOf(rows, other), firing) else [] {
      OneInstanceMore(out, ls, id, other);
      assert other in ids + [id] <==> other in ids || other == id;
    }
  }

  lemma {:induction false} SortedGroups(out: seq<Listed>, rows: seq<Row>, ids: seq<Identity>, firing: set<Identity>,
                                        id: Identity)
    requires Grouped(out, rows, ids, firing)
    requires id !in ids ==> Ordered(rows, id) == []
    ensures OfInstance(Sorting.Sort(out, NewestFirst), id) == Backwards(Label(id, EpisodesOf(rows, id), firing))
  {
    Sorting.SortFilter(out, NewestFirst, Of(id));
    LabelsDescend(rows, id, firing);
    assert id !in ids ==> Label(id, EpisodesOf(rows, id), firing) == [];
  }

  // ------------------------------------------------------------------ what goes on

  // An instance's last row in Grafana's order is a state: one that no other row of it is later than.
  ghost predicate EndsInAState(rows: seq<Row>, id: Identity) {
    exists i :: 0 <= i < |rows| && rows[i].identity == id && rows[i].to != Normal && forall j ::
      0 <= j < |rows| && rows[j].identity == id ==>
        rows[j].at < rows[i].at || (rows[j].at == rows[i].at && rows[j].to != Normal)
  }

  lemma {:induction false} LastIsOpen(open: seq<Row>, rs: seq<Row>)
    ensures var es := FoldFrom(open, rs);
            (es != [] && !Closed(es[|es| - 1])) <==> if rs == [] then open != [] else rs[|rs| - 1].to != Normal
    decreases |rs|
  {
    if rs != [] {
      LastIsOpen(if rs[0].to != Normal then open + [rs[0]] else [], rs[1..]);
      assert |rs| > 1 ==> rs[1..][|rs| - 2] == rs[|rs| - 1];
    }
  }

  lemma {:induction false} EndsInAStateIff(rows: seq<Row>, id: Identity)
    ensures var rs := Ordered(rows, id); EndsInAState(rows, id) <==> rs != [] && rs[|rs| - 1].to != Normal
  {
    var rs := Ordered(rows, id);
    OrderedIs(rows, id);
    if rs != [] {
      var k := PlaceOf(rows, id, |rs| - 1);
      forall j | 0 <= j < |rows| && rows[j].identity == id ensures RowRank(rows[j]) <= RowRank(rows[k]) {
        var q := InTheOrder(rows, j);
        assert q < |rs| - 1 ==> RowRank(rs[q]) <= RowRank(rs[|rs| - 1]);
      }
    }
    forall i | 0 <= i < |rows| && rows[i].identity == id ensures rows[i] in rs {
    }
  }

  // One instance's part of the list, the newest episode first, as its rows and the reader make it.
  ghost predicate OngoingRightly(mine: seq<Listed>, rows: seq<Row>, id: Identity, firing: set<Identity>) {
    && (forall k :: 0 <= k < |mine| && mine[k].ongoing ==> k == 0 && !Closed(mine[k].episode))
    && ((exists k :: 0 <= k < |mine| && mine[k].ongoing) <==> id in firing && EndsInAState(rows, id))
  }

  // An instance has an episode going on exactly when the reader holds it and its last served row is a
  // state; and then that episode is its newest, and the only one.
  lemma {:induction false} OngoingIff(rows: seq<Row>, id: Identity, firing: set<Identity>)
    ensures OngoingRightly(Backwards(Label(id, EpisodesOf(rows, id), firing)), rows, id, firing)
  {
    var es := EpisodesOf(rows, id);
    var mine := Backwards(Label(id, es, firing));
    EpisodesInTimeOrder(rows, id);
    LastIsOpen([], Ordered(rows, id));
    EndsInAStateIff(rows, id);
    assert forall k :: 0 <= k < |mine| ==>
      mine[k].episode == es[|es| - 1 - k] && (mine[k].ongoing <==> !Closed(es[|es| - 1 - k]) && id in firing);
    if es != [] && !Closed(es[|es| - 1]) && id in firing {
      assert mine[0].ongoing;
    }
  }

  function EpisodesOfList(ls: seq<Listed>): seq<Episode> { Sorting.Map(ls, (l: Listed) => l.episode) }

  lemma {:induction false} LabelsAreEpisodes(rows: seq<Row>, id: Identity, firing: set<Identity>)
    ensures EpisodesOfList(Backwards(Label(id, EpisodesOf(rows, id), firing))) == Backwards(EpisodesOf(rows, id))
  {
  }

  method FoldGroups(groups: map<Identity, seq<Row>>, order: seq<Identity>, ghost rows: seq<Row>,
                    firing: set<Identity>) returns (all: seq<Listed>)
    requires forall id :: id in order ==> id in groups && groups[id] == RowsOf(rows, id)
    requires forall i, j :: 0 <= i < j < |order| ==> order[i] != order[j]
    ensures Grouped(all, rows, order, firing)
  {
    all := [];
    for i := 0 to |order|
      invariant Grouped(all, rows, order[..i], firing)
    {
      var id := order[i];
      var es := Fold(Sorting.Sort(groups[id], RowRank));
      GroupedSnoc(all, rows, order[..i], id, firing);
      assert order[..i + 1] == order[..i] + [id];
      all := all + Label(id, es, firing);
    }
    assert order[..|order|] == order;
  }

  // The page's list: in it, each instance's episodes are those of its served rows, the newest
  // first, none left out and none added, and nothing of any other instance among them.
  method Episodes(log: seq<Entry>, firing: set<Identity>) returns (out: seq<Listed>)
    ensures forall id :: OfInstance(out, id) == Backwards(Label(id, EpisodesOf(Served(log), id), firing))
    ensures forall id :: EpisodesOfList(OfInstance(out, id)) == Backwards(EpisodesOf(Served(log), id))
    ensures forall id :: OngoingRightly(OfInstance(out, id), Served(log), id, firing)
    ensures forall i, j :: 0 <= i < j < |out| && out[i].episode.states != [] && out[j].episode.states != [] ==>
              out[i].episode.StartedAt() >= out[j].episode.StartedAt()
  {
    var rows := Served(log);
    var groups, order := Group(rows);
    var all := FoldGroups(groups, order, rows, firing);
    out := Sorting.Sort(all, NewestFirst);
    Sorting.SortSorts(all, NewestFirst);
    forall id ensures OfInstance(out, id) == Backwards(Label(id, EpisodesOf(rows, id), firing))
      ensures EpisodesOfList(OfInstance(out, id)) == Backwards(EpisodesOf(rows, id))
      ensures OngoingRightly(OfInstance(out, id), rows, id, firing)
    {
      SortedGroups(all, rows, order, firing, id);
      OngoingIff(rows, id, firing);
      LabelsAreEpisodes(rows, id, firing);
    }
    forall i, j | 0 <= i < j < |out| ensures NewestFirst(out[i]) <= NewestFirst(out[j]) {
    }
  }
}
