// Needs attention's record: each row's life from its first sighting to how it cleared, and what
// is kept of the lives that cleared.
module AttentionRecord {
  import opened Wrappers
  import Sorting

  const KEPT_SECONDS := 30 * 86400
  const KEPT_MAX := 5000

  // A row's own time to clear by: none, a second, or a text that is no time.
  datatype ClearsAt = Unsaid | At(second: int) | Unreadable

  datatype How = Resolved | Acknowledged | Time

  // A row as drawn. One folded into another may name no source of its own.
  datatype Row = Row(source: Option<string>, what: string, clearsAt: ClearsAt)
  datatype Attached = Attached(id: string, row: Row)
  datatype PageRow = PageRow(id: string, row: Row, attached: seq<Attached>)
  datatype Source = Source(name: string, read: bool)
  datatype Page = Page(rows: seq<PageRow>, sources: seq<Source>, acknowledged: seq<string>)

  datatype Life = Life(source: string, firstSeen: int, lastSeen: int, seen: nat, what: string, clearsAt: ClearsAt)
  datatype Cleared = Cleared(id: string, life: Life, at: int, how: How)

  datatype Doc = Doc(open: map<string, Life>, cleared: seq<Cleared>, dropped: nat, observed: nat)

  const EMPTY := Doc(map[], [], 0, 0)

  // ------------------------------------------------------------------ what the page says

  function Fold(out: map<string, Row>, attached: seq<Attached>): map<string, Row> {
    if attached == [] then out
    else
      var before, a := Fold(out, attached[..|attached| - 1]), attached[|attached| - 1];
      if a.id == "" || a.id in before then before else before[a.id := a.row.(clearsAt := Unsaid)]
  }

  function PresentIn(rows: seq<PageRow>): map<string, Row> {
    if rows == [] then map[]
    else
      var r := rows[|rows| - 1];
      Fold(PresentIn(rows[..|rows| - 1])[r.id := r.row], r.attached)
  }

  method Present(page: Page) returns (out: map<string, Row>)
    ensures out == PresentIn(page.rows)
  {
    out := map[];
    for i := 0 to |page.rows|
      invariant out == PresentIn(page.rows[..i])
    {
      var r := page.rows[i];
      assert page.rows[..i + 1][..i] == page.rows[..i];
      out := out[r.id := r.row];
      ghost var start := out;
      for j := 0 to |r.attached|
        invariant out == Fold(start, r.attached[..j])
      {
        var a := r.attached[j];
        assert r.attached[..j + 1][..j] == r.attached[..j];
        if a.id != "" && a.id !in out {
          out := out[a.id := a.row.(clearsAt := Unsaid)];
        }
      }
      assert r.attached[..|r.attached|] == r.attached;
    }
    assert page.rows[..|page.rows|] == page.rows;
  }

  lemma {:induction false} FoldKeys(out: map<string, Row>, attached: seq<Attached>)
    ensures Fold(out, attached).Keys == out.Keys + set a | a in attached && a.id != "" :: a.id
    ensures forall id :: id in out ==> Fold(out, attached)[id] == out[id]
  {
    if attached != [] {
      FoldKeys(out, attached[..|attached| - 1]);
      assert attached == attached[..|attached| - 1] + [attached[|attached| - 1]];
    }
  }

  // Present are the ids of the rows and of what is folded into them, and no others.
  lemma {:induction false} PresentIds(rows: seq<PageRow>, id: string)
    ensures id in PresentIn(rows)
       <==> exists i :: 0 <= i < |rows|
              && (rows[i].id == id || (id != "" && exists a :: a in rows[i].attached && a.id == id))
  {
    if rows != [] {
      var init, r := rows[..|rows| - 1], rows[|rows| - 1];
      PresentIds(init, id);
      FoldKeys(PresentIn(init)[r.id := r.row], r.attached);
      assert rows == init + [r];
    }
  }

  // A row of the page's own wins over one folded into another, wherever either stands.
  lemma {:induction false} OwnRowWins(rows: seq<PageRow>, i: nat)
    requires i < |rows|
    requires forall j :: i < j < |rows| ==> rows[j].id != rows[i].id
    ensures rows[i].id in PresentIn(rows) && PresentIn(rows)[rows[i].id] == rows[i].row
  {
    var init, r := rows[..|rows| - 1], rows[|rows| - 1];
    FoldKeys(PresentIn(init)[r.id := r.row], r.attached);
    if i < |init| {
      OwnRowWins(init, i);
    }
  }

  // A row that is only ever folded is the first of its id, and clears by no time of its own.
  lemma {:induction false} FoldedRowIs(rows: seq<PageRow>, i: nat, j: nat)
    requires i < |rows| && j < |rows[i].attached| && rows[i].attached[j].id != ""
    requires forall k :: 0 <= k < |rows| ==> rows[k].id != rows[i].attached[j].id
    requires forall k, l :: 0 <= k < |rows| && 0 <= l < |rows[k].attached| && (k < i || (k == i && l < j)) ==>
               rows[k].attached[l].id != rows[i].attached[j].id
    ensures var a := rows[i].attached[j];
            a.id in PresentIn(rows) && PresentIn(rows)[a.id] == a.row.(clearsAt := Unsaid)
  {
    var init, r := rows[..|rows| - 1], rows[|rows| - 1];
    var id := rows[i].attached[j].id;
    FoldKeys(PresentIn(init)[r.id := r.row], r.attached);
    if i < |init| {
      assert init[i] == rows[i];
      FoldedRowIs(init, i, j);
    } else {
      PresentIds(init, id);
      forall k, a | 0 <= k < |init| && a in init[k].attached ensures a.id != id {
        var l :| 0 <= l < |init[k].attached| && init[k].attached[l] == a;
        assert rows[k] == init[k];
      }
      FirstFolded(PresentIn(init)[r.id := r.row], r.attached, j);
    }
  }

  lemma {:induction false} FirstFolded(out: map<string, Row>, attached: seq<Attached>, j: nat)
    requires j < |attached| && attached[j].id != "" && attached[j].id !in out
    requires forall l :: 0 <= l < j ==> attached[l].id != attached[j].id
    ensures attached[j].id in Fold(out, attached)
    ensures Fold(out, attached)[attached[j].id] == attached[j].row.(clearsAt := Unsaid)
  {
    var init := attached[..|attached| - 1];
    FoldKeys(out, init);
    if j < |init| {
      FirstFolded(out, init, j);
    } else {
      assert forall a :: a in init ==> exists l :: 0 <= l < j && attached[l] == a;
    }
  }

  function Unread(page: Page): set<string> { set s | s in page.sources && !s.read :: s.name }

  function AcknowledgedIds(page: Page): set<string> { set id | id in page.acknowledged && id != "" }

  // ------------------------------------------------------------------ one sighting

  function Prefix(id: string): (p: string)
    ensures p <= id && ':' !in p && (p == id || id[|p|] == ':')
  {
    if id == "" || id[0] == ':' then "" else [id[0]] + Prefix(id[1..])
  }

  function NewLife(id: string, r: Row, now: real): Life {
    Life(if r.source.Some? then r.source.value else Prefix(id), now.Floor, now.Floor, 0, r.what, r.clearsAt)
  }

  function Sighted(life: Life, r: Row, now: real): Life {
    life.(lastSeen := now.Floor, seen := life.seen + 1,
          what := if r.what != "" then r.what else life.what,
          clearsAt := if r.clearsAt.Unsaid? then life.clearsAt else r.clearsAt)
  }

  function LifeAfter(doc: Doc, id: string, r: Row, now: real): Life {
    Sighted(if id in doc.open then doc.open[id] else NewLife(id, r, now), r, now)
  }

  // Absent, and neither hidden by a person nor of a source that was read: not known to be over.
  predicate Unknown(doc: Doc, page: Page, id: string) {
    id in doc.open && id !in AcknowledgedIds(page) && doc.open[id].source in Unread(page)
  }

  predicate Closes(doc: Doc, page: Page, id: string) {
    id in doc.open && id !in PresentIn(page.rows) && !Unknown(doc, page, id)
  }

  function Ending(life: Life, page: Page, id: string, now: real): How {
    if id in AcknowledgedIds(page) then Acknowledged
    else if life.clearsAt.At? && now >= life.clearsAt.second as real then Time
    else Resolved
  }

  // What the page says of an id, in its own fields: a person hid it; some source of this name was not read.
  predicate Hidden(page: Page, id: string) { id != "" && id in page.acknowledged }

  predicate NotRead(page: Page, source: string) {
    exists i :: 0 <= i < |page.sources| && page.sources[i].name == source && !page.sources[i].read
  }

  // The page shows it as a row or folded into one.
  predicate Shown(page: Page, id: string) {
    exists i :: 0 <= i < |page.rows|
      && (page.rows[i].id == id || (id != "" && exists a :: a in page.rows[i].attached && a.id == id))
  }

  // How an open life that the page does not show ends: hidden, by its time, or resolved.
  predicate EndsSo(page: Page, life: Life, id: string, now: real, how: How) {
    && (how.Acknowledged? <==> Hidden(page, id))
    && (how.Time? <==> !Hidden(page, id) && life.clearsAt.At? && life.clearsAt.second as real <= now)
  }

  lemma {:induction false} EndingIs(page: Page, life: Life, id: string, now: real)
    ensures EndsSo(page, life, id, now, Ending(life, page, id, now))
  {
  }

  // A life stays open, though the page does not show it, exactly when nobody hid it and its source was
  // not read.
  lemma {:induction false} UnknownIs(doc: Doc, page: Page, id: string)
    ensures Unknown(doc, page, id) <==> id in doc.open && !Hidden(page, id) && NotRead(page, doc.open[id].source)
  {
  }

  function Clearings(doc: Doc, page: Page, now: real, ids: seq<string>): (r: seq<Cleared>)
    requires forall i :: 0 <= i < |ids| ==> ids[i] in doc.open
    ensures |r| == |ids|
    ensures forall i :: 0 <= i < |ids| ==>
              r[i] == Cleared(ids[i], doc.open[ids[i]], now.Floor, Ending(doc.open[ids[i]], page, ids[i], now))
  {
    if ids == [] then []
    else
      var id := ids[|ids| - 1];
      Clearings(doc, page, now, ids[..|ids| - 1])
      + [Cleared(id, doc.open[id], now.Floor, Ending(doc.open[id], page, id, now))]
  }

  // Cleared within the days kept. A second of zero reads as no time, so as now.
  function Recent(now: real): Cleared -> bool {
    (c: Cleared) => (if c.at == 0 then now else c.at as real) >= now - KEPT_SECONDS as real
  }

  function LastOf(s: seq<Cleared>, n: nat): seq<Cleared> { if |s| <= n then s else s[|s| - n..] }

  function Retained(all: seq<Cleared>, now: real): seq<Cleared> {
    LastOf(Sorting.Filter(all, Recent(now)), KEPT_MAX)
  }

  function OpenAfter(doc: Doc, page: Page, now: real): map<string, Life> {
    var present := PresentIn(page.rows);
    map id | id in present.Keys + doc.open.Keys && (id in present || Unknown(doc, page, id))
      :: if id in present then LifeAfter(doc, id, present[id], now) else doc.open[id]
  }

  // The ids that close, each once. Their order is the store's own and no more is said of it.
  ghost predicate ClosesAll(doc: Doc, page: Page, closed: seq<string>) {
    && (forall i, j :: 0 <= i < j < |closed| ==> closed[i] != closed[j])
    && (forall id :: id in closed <==> Closes(doc, page, id))
  }

  function DocAfter(doc: Doc, page: Page, now: real, closed: seq<string>): Doc
    requires forall i :: 0 <= i < |closed| ==> closed[i] in doc.open
  {
    var all := doc.cleared + Clearings(doc, page, now, closed);
    Sorting.FilterIn(all, Recent(now));
    Doc(OpenAfter(doc, page, now), Retained(all, now),
        doc.dropped + (|all| - |Retained(all, now)|), doc.observed + 1)
  }

  // The open lives once the rows in `seen` have been sighted.
  function CarriedBy(doc: Doc, present: map<string, Row>, seen: set<string>, now: real): map<string, Life>
    requires seen <= present.Keys
  {
    map id | id in doc.open.Keys + seen
      :: if id in seen then LifeAfter(doc, id, present[id], now) else doc.open[id]
  }

  ghost predicate Once(ids: seq<string>) { forall i, j :: 0 <= i < j < |ids| ==> ids[i] != ids[j] }

  // The open lives while the rows in `todo` are still to be sighted.
  function CarriedBut(doc: Doc, present: map<string, Row>, todo: set<string>, now: real): map<string, Life> {
    CarriedBy(doc, present, present.Keys - todo, now)
  }

  lemma {:induction false} CarriedOne(doc: Doc, present: map<string, Row>, todo: set<string>, id: string, now: real)
    requires id in todo && id in present
    ensures CarriedBut(doc, present, todo - {id}, now)
         == CarriedBut(doc, present, todo, now)[id := LifeAfter(doc, id, present[id], now)]
    ensures id in CarriedBut(doc, present, todo, now) <==> id in doc.open
    ensures id in doc.open ==> CarriedBut(doc, present, todo, now)[id] == doc.open[id]
  {
  }

  lemma {:induction false} NoneCarried(doc: Doc, present: map<string, Row>, now: real)
    ensures CarriedBut(doc, present, present.Keys, now) == doc.open
  {
    assert present.Keys - present.Keys == {};
  }

  lemma {:induction false} AllCarried(doc: Doc, present: map<string, Row>, now: real)
    ensures CarriedBut(doc, present, {}, now) == CarriedBy(doc, present, present.Keys, now)
  {
    assert present.Keys - {} == present.Keys;
  }

  // The lives begun while the rows in `todo` are still to be sighted.
  ghost predicate BegunBut(doc: Doc, present: map<string, Row>, todo: set<string>, begun: seq<string>) {
    Once(begun) && forall id :: id in begun <==> id in present && id !in todo && id !in doc.open
  }

  lemma {:induction false} BegunOne(doc: Doc, present: map<string, Row>, todo: set<string>, begun: seq<string>,
                                    id: string)
    requires BegunBut(doc, present, todo, begun) && id in todo && id in present
    ensures BegunBut(doc, present, todo - {id}, if id in doc.open then begun else begun + [id])
  {
    assert id !in begun;
    assert forall k :: k in begun + [id] <==> k in begun || k == id;
  }

  // The first loop: every row present is sighted, in a life of its own.
  method Carry(doc: Doc, present: map<string, Row>, now: real)
      returns (open: map<string, Life>, begun: seq<string>)
    ensures open == CarriedBy(doc, present, present.Keys, now)
    ensures Once(begun) && forall id :: id in begun <==> id in present && id !in doc.open
  {
    open, begun := doc.open, [];
    var todo := present.Keys;
    NoneCarried(doc, present, now);
    while todo != {}
      invariant todo <= present.Keys
      invariant open == CarriedBut(doc, present, todo, now)
      invariant BegunBut(doc, present, todo, begun)
    {
      var id :| id in todo;
      CarriedOne(doc, present, todo, id, now);
      BegunOne(doc, present, todo, begun, id);
      if id !in open {
        begun := begun + [id];
      }
      open := open[id := Sighted(if id in open then open[id] else NewLife(id, present[id], now), present[id], now)];
      todo := todo - {id};
    }
    AllCarried(doc, present, now);
  }

  // The open lives with the ids in `todo` still to be judged.
  function LeftBy(doc: Doc, page: Page, carried: map<string, Life>, todo: set<string>): map<string, Life> {
    map id | id in carried && (id in PresentIn(page.rows) || id in todo || Unknown(doc, page, id)) :: carried[id]
  }

  lemma {:induction false} JudgedOne(doc: Doc, page: Page, carried: map<string, Life>, todo: set<string>, id: string)
    requires id in todo && id in carried && id !in PresentIn(page.rows)
    ensures LeftBy(doc, page, carried, todo - {id})
         == if Unknown(doc, page, id) then LeftBy(doc, page, carried, todo) else LeftBy(doc, page, carried, todo) - {id}
    ensures id in LeftBy(doc, page, carried, todo) && LeftBy(doc, page, carried, todo)[id] == carried[id]
  {
  }

  lemma {:induction false} NoneJudged(doc: Doc, page: Page, carried: map<string, Life>, now: real)
    requires carried == CarriedBy(doc, PresentIn(page.rows), PresentIn(page.rows).Keys, now)
    ensures var todo := carried.Keys - PresentIn(page.rows).Keys;
            todo == doc.open.Keys - PresentIn(page.rows).Keys && LeftBy(doc, page, carried, todo) == carried
    ensures forall id :: id in doc.open && id !in PresentIn(page.rows) ==> id in carried && carried[id] == doc.open[id]
  {
  }

  lemma {:induction false} ClosedOne(doc: Doc, page: Page, now: real, closed: seq<string>, id: string)
    requires id in doc.open && forall i :: 0 <= i < |closed| ==> closed[i] in doc.open
    ensures Clearings(doc, page, now, closed + [id])
         == Clearings(doc, page, now, closed)
            + [Cleared(id, doc.open[id], now.Floor, Ending(doc.open[id], page, id, now))]
  {
    assert (closed + [id])[..|closed|] == closed;
  }

  // The ids closed while some are still to be judged.
  ghost predicate ClosedBut(doc: Doc, page: Page, closed: seq<string>, todo: set<string>) {
    Once(closed) && forall id :: id in closed <==> Closes(doc, page, id) && id !in todo
  }

  lemma {:induction false} StillClosedBut(doc: Doc, page: Page, closed: seq<string>, todo: set<string>, id: string)
    requires ClosedBut(doc, page, closed, todo) && id in todo
    ensures Closes(doc, page, id) ==> ClosedBut(doc, page, closed + [id], todo - {id})
    ensures !Closes(doc, page, id) ==> ClosedBut(doc, page, closed, todo - {id})
  {
    assert id !in closed;
    assert forall k :: k in closed + [id] <==> k in closed || k == id;
  }

  // The second loop: every absent row's life closes, unless its source was not read.
  method CloseAbsent(doc: Doc, page: Page, carried: map<string, Life>, now: real)
      returns (open: map<string, Life>, cleared: seq<Cleared>, closed: seq<string>)
    requires carried == CarriedBy(doc, PresentIn(page.rows), PresentIn(page.rows).Keys, now)
    ensures open == LeftBy(doc, page, carried, {})
    ensures ClosesAll(doc, page, closed)
    ensures forall i :: 0 <= i < |closed| ==> closed[i] in doc.open
    ensures cleared == doc.cleared + Clearings(doc, page, now, closed)
  {
    var present := PresentIn(page.rows);
    open, cleared, closed := carried, doc.cleared, [];
    var todo := carried.Keys - present.Keys;
    NoneJudged(doc, page, carried, now);
    while todo != {}
      invariant todo <= doc.open.Keys - present.Keys
      invariant open == LeftBy(doc, page, carried, todo)
      invariant ClosedBut(doc, page, closed, todo)
      invariant forall i :: 0 <= i < |closed| ==> closed[i] in doc.open
      invariant cleared == doc.cleared + Clearings(doc, page, now, closed)
    {
      var id :| id in todo;
      JudgedOne(doc, page, carried, todo, id);
      StillClosedBut(doc, page, closed, todo, id);
      todo := todo - {id};
      if id !in AcknowledgedIds(page) && open[id].source in Unread(page) {
        continue;
      }
      ClosedOne(doc, page, now, closed, id);
      cleared := cleared + [Cleared(id, open[id], now.Floor, Ending(open[id], page, id, now))];
      closed := closed + [id];
      open := open - {id};
    }
  }

  lemma {:induction false} LeftIsOpenAfter(doc: Doc, page: Page, now: real)
    ensures LeftBy(doc, page, CarriedBy(doc, PresentIn(page.rows), PresentIn(page.rows).Keys, now), {})
         == OpenAfter(doc, page, now)
  {
  }

  // Open are what the page shows, and the lives it does not show that nobody hid and whose source was not
  // read: these stay as they are. No life is in two places: what leaves the open ones is what closed.
  ghost predicate OpenAsShown(doc: Doc, page: Page, after: Doc, closed: seq<string>) {
    && (forall id :: id in after.open
          <==> Shown(page, id) || (id in doc.open && !Hidden(page, id) && NotRead(page, doc.open[id].source)))
    && (forall id :: id in after.open && !Shown(page, id) ==> after.open[id] == doc.open[id])
    && (forall id :: id in closed <==> id in doc.open && id !in after.open)
  }

  // Each closed life is the one that was open, cleared now, and how it ended is what the page says.
  ghost predicate ClosedAsShown(doc: Doc, page: Page, now: real, closed: seq<string>, gone: seq<Cleared>) {
    && |gone| == |closed|
    && forall k :: 0 <= k < |closed| ==>
         && closed[k] in doc.open
         && gone[k].id == closed[k] && gone[k].life == doc.open[closed[k]] && gone[k].at == now.Floor
         && EndsSo(page, gone[k].life, closed[k], now, gone[k].how)
  }

  lemma {:induction false} OpenIsAsShown(doc: Doc, page: Page, now: real, closed: seq<string>)
    requires ClosesAll(doc, page, closed) && forall i :: 0 <= i < |closed| ==> closed[i] in doc.open
    ensures OpenAsShown(doc, page, DocAfter(doc, page, now, closed), closed)
  {
    forall id
      ensures Unknown(doc, page, id) <==> id in doc.open && !Hidden(page, id) && NotRead(page, doc.open[id].source)
      ensures id in PresentIn(page.rows) <==> Shown(page, id)
    {
      UnknownIs(doc, page, id);
      PresentIds(page.rows, id);
    }
    assert DocAfter(doc, page, now, closed).open == OpenAfter(doc, page, now);
  }

  lemma {:induction false} ClosedIsAsShown(doc: Doc, page: Page, now: real, closed: seq<string>)
    requires forall i :: 0 <= i < |closed| ==> closed[i] in doc.open
    ensures ClosedAsShown(doc, page, now, closed, Clearings(doc, page, now, closed))
  {
    forall k | 0 <= k < |closed|
      ensures EndsSo(page, doc.open[closed[k]], closed[k], now, Ending(doc.open[closed[k]], page, closed[k], now))
    {
      EndingIs(page, doc.open[closed[k]], closed[k], now);
    }
  }

  // One sighting: what stays open, what closes and how, what is kept of it all and what is
  // counted as dropped.
  method Apply(doc: Doc, page: Page, now: real) returns (after: Doc, begun: seq<string>, closed: seq<string>)
    ensures ClosesAll(doc, page, closed)
    ensures forall i :: 0 <= i < |closed| ==> closed[i] in doc.open
    ensures after == DocAfter(doc, page, now, closed)
    ensures Once(begun) && forall id :: id in begun <==> id in PresentIn(page.rows) && id !in doc.open
    ensures OpenAsShown(doc, page, after, closed)
    ensures var gone := Clearings(doc, page, now, closed);
            ClosedAsShown(doc, page, now, closed, gone) && after.cleared == Retained(doc.cleared + gone, now)
  {
    var present := Present(page);
    var open, cleared;
    open, begun := Carry(doc, present, now);
    open, cleared, closed := CloseAbsent(doc, page, open, now);
    LeftIsOpenAfter(doc, page, now);
    var kept := Sorting.Filter(cleared, Recent(now));
    Sorting.FilterIn(cleared, Recent(now));
    var dropped := doc.dropped + (|cleared| - |kept|);
    if |kept| > KEPT_MAX {
      dropped := dropped + (|kept| - KEPT_MAX);
      kept := kept[|kept| - KEPT_MAX..];
    }
    after := Doc(open, kept, dropped, doc.observed + 1);
    OpenIsAsShown(doc, page, now, closed);
    ClosedIsAsShown(doc, page, now, closed);
  }

  // ------------------------------------------------------------------ runs

  // A sighting of a run: the page, the clock, and the order the store listed the closing ids in.
  datatype Sighting = Sighting(page: Page, now: real, closed: seq<string>)

  // Each sighting closes what its page closes of what the ones before it left open.
  ghost predicate IsRun(run: seq<Sighting>)
    decreases |run|, 0
  {
    run == []
    || (var last := run[|run| - 1];
        && IsRun(run[..|run| - 1])
        && (forall i :: 0 <= i < |last.closed| ==> last.closed[i] in DocOf(run[..|run| - 1]).open)
        && ClosesAll(DocOf(run[..|run| - 1]), last.page, last.closed))
  }

  // The document a run from the empty one leaves.
  ghost function DocOf(run: seq<Sighting>): Doc
    requires IsRun(run)
    decreases |run|, 1
  {
    if run == [] then EMPTY
    else DocAfter(DocOf(run[..|run| - 1]), run[|run| - 1].page, run[|run| - 1].now, run[|run| - 1].closed)
  }

  // Every life that ever cleared, in the order it did.
  ghost function HistoryOf(run: seq<Sighting>): seq<Cleared>
    requires IsRun(run)
    decreases |run|
  {
    if run == [] then []
    else HistoryOf(run[..|run| - 1])
         + Clearings(DocOf(run[..|run| - 1]), run[|run| - 1].page, run[|run| - 1].now, run[|run| - 1].closed)
  }

  // How many lives ever began.
  ghost function BegunIn(run: seq<Sighting>): nat
    requires IsRun(run)
    decreases |run|
  {
    if run == [] then 0
    else BegunIn(run[..|run| - 1]) + |PresentIn(run[|run| - 1].page.rows).Keys - DocOf(run[..|run| - 1]).open.Keys|
  }

  // A clock that never goes back, and is past its first second.
  ghost predicate Onward(run: seq<Sighting>) {
    && (forall i :: 0 <= i < |run| ==> 1.0 <= run[i].now)
    && (forall i, j :: 0 <= i < j < |run| ==> run[i].now <= run[j].now)
  }

  ghost predicate Ordered(history: seq<Cleared>) {
    && (forall i :: 0 <= i < |history| ==> 1 <= history[i].at)
    && (forall i, j :: 0 <= i < j < |history| ==> history[i].at <= history[j].at)
  }

  // How many of an ordered history fall within the days kept: its last ones.
  function WithinDays(history: seq<Cleared>, now: real): nat { |Sorting.Filter(history, Recent(now))| }

  // Where an ordered history turns recent.
  ghost predicate TurnsAt(history: seq<Cleared>, now: real, cut: nat) {
    && cut <= |history| && Sorting.Filter(history, Recent(now)) == history[cut..]
    && forall i :: 0 <= i < |history| ==> (Recent(now)(history[i]) <==> cut <= i)
  }

  lemma {:induction false} LaterIsRecent(history: seq<Cleared>, now: real, i: nat, j: nat)
    requires Ordered(history) && i <= j < |history| && Recent(now)(history[i])
    ensures Recent(now)(history[j])
  {
  }

  lemma {:induction false} TurnsOn(init: seq<Cleared>, c: Cleared, now: real, cut: nat) returns (next: nat)
    requires Ordered(init + [c]) && TurnsAt(init, now, cut)
    ensures TurnsAt(init + [c], now, next)
  {
    var all := init + [c];
    Sorting.FilterSnoc(init, c, Recent(now));
    assert forall i :: 0 <= i < |init| ==> all[i] == init[i];
    if Recent(now)(c) {
      next := cut;
      assert all[cut..] == init[cut..] + [c];
    } else {
      next := |all|;
      if cut < |init| {
        assert Recent(now)(init[cut]);
        LaterIsRecent(all, now, cut, |init|);
      }
      assert init[cut..] + [] == all[next..];
    }
  }

  lemma {:induction false} Turns(history: seq<Cleared>, now: real) returns (cut: nat)
    requires Ordered(history)
    ensures TurnsAt(history, now, cut)
  {
    if history == [] {
      cut := 0;
    } else {
      var init, last := history[..|history| - 1], history[|history| - 1];
      assert history == init + [last];
      cut := Turns(init, now);
      cut := TurnsOn(init, last, now, cut);
    }
  }

  lemma {:induction false} RecentAreLast(history: seq<Cleared>, now: real)
    requires Ordered(history)
    ensures WithinDays(history, now) <= |history|
    ensures forall i :: 0 <= i < |history| ==> (Recent(now)(history[i]) <==> |history| - WithinDays(history, now) <= i)
    ensures Sorting.Filter(history, Recent(now)) == history[|history| - WithinDays(history, now)..]
  {
    var cut := Turns(history, now);
    assert WithinDays(history, now) == |history| - cut;
  }

  function Least(a: nat, b: nat): nat { if a <= b then a else b }

  lemma {:induction false} RetainedIsLast(history: seq<Cleared>, now: real)
    requires Ordered(history)
    ensures WithinDays(history, now) <= |history|
    ensures Retained(history, now) == LastOf(history, Least(KEPT_MAX, WithinDays(history, now)))
  {
    RecentAreLast(history, now);
  }

  // The same elements of the end are recent, read in the whole or in its end.
  lemma {:induction false} SameCut(all: seq<Cleared>, tail: seq<Cleared>, k: nat, now: real)
    requires Ordered(all) && Ordered(tail) && |all| == k + |tail|
    requires forall i :: 0 <= i < |tail| ==> tail[i] == all[k + i]
    ensures WithinDays(tail, now) == Least(WithinDays(all, now), |tail|)
  {
    RecentAreLast(all, now);
    RecentAreLast(tail, now);
    var w, v := WithinDays(all, now), WithinDays(tail, now);
    if v < |tail| {
      assert !Recent(now)(tail[|tail| - v - 1]);
      assert !Recent(now)(all[|all| - v - 1]);
    }
    if 0 < v {
      assert Recent(now)(tail[|tail| - v]);
      assert Recent(now)(all[|all| - v]);
    }
  }

  // What is recent now was recent earlier, so only the most kept can have cut it off.
  lemma {:induction false} OlderWasRecent(history: seq<Cleared>, more: seq<Cleared>, earlier: real, now: real)
    requires Ordered(history) && Ordered(history + more) && earlier <= now
    requires WithinDays(history + more, now) > |Retained(history, earlier) + more|
    ensures |Retained(history, earlier)| == KEPT_MAX
  {
    var all := history + more;
    RecentAreLast(all, now);
    RecentAreLast(history, earlier);
    RetainedIsLast(history, earlier);
    var i := |all| - WithinDays(all, now);
    assert i < |history| - |Retained(history, earlier)|;
    assert Recent(now)(all[i]) && all[i] == history[i];
    assert Recent(earlier)(history[i]);
  }

  lemma {:induction false} LastOfEnd(all: seq<Cleared>, tail: seq<Cleared>, n: nat)
    requires |tail| <= |all| && tail == all[|all| - |tail|..] && n <= |tail|
    ensures LastOf(tail, n) == LastOf(all, n)
  {
  }

  // Keeping the last of what was kept keeps the last of all there was.
  lemma {:induction false} LastOfLast(history: seq<Cleared>, more: seq<Cleared>, earlier: real, now: real)
    requires Ordered(history) && Ordered(history + more) && earlier <= now
    ensures Retained(Retained(history, earlier) + more, now) == Retained(history + more, now)
  {
    var kept := Retained(history, earlier);
    var all, tail := history + more, kept + more;
    RetainedIsLast(history, earlier);
    var k := |all| - |tail|;
    assert tail == all[k..];
    assert forall i :: 0 <= i < |tail| ==> tail[i] == all[k + i];
    assert Ordered(tail);
    SameCut(all, tail, k, now);
    RetainedIsLast(all, now);
    RetainedIsLast(tail, now);
    if WithinDays(all, now) > |tail| {
      OlderWasRecent(history, more, earlier, now);
      LastOfEnd(all, tail, KEPT_MAX);
    } else {
      LastOfEnd(all, tail, Least(KEPT_MAX, WithinDays(all, now)));
    }
  }

  lemma {:induction false} OrderedOn(history: seq<Cleared>, more: seq<Cleared>, at: int)
    requires Ordered(history) && 1 <= at
    requires forall i :: 0 <= i < |history| ==> history[i].at <= at
    requires forall i :: 0 <= i < |more| ==> more[i].at == at
    ensures Ordered(history + more)
    ensures forall i :: 0 <= i < |history + more| ==> (history + more)[i].at <= at
  {
  }

  lemma {:induction false} OnwardPrefix(run: seq<Sighting>)
    requires Onward(run) && run != []
    ensures Onward(run[..|run| - 1])
    ensures |run| > 1 ==> run[..|run| - 1][|run| - 2].now <= run[|run| - 1].now
  {
    var init := run[..|run| - 1];
    assert forall i :: 0 <= i < |init| ==> init[i] == run[i];
  }

  lemma {:induction false} HistoryOrdered(run: seq<Sighting>)
    requires IsRun(run) && Onward(run)
    ensures Ordered(HistoryOf(run))
    ensures forall i :: 0 <= i < |HistoryOf(run)| ==> run != [] && HistoryOf(run)[i].at <= run[|run| - 1].now.Floor
    decreases |run|
  {
    if run != [] {
      var init, last := run[..|run| - 1], run[|run| - 1];
      OnwardPrefix(run);
      HistoryOrdered(init);
      OrderedOn(HistoryOf(init), Clearings(DocOf(init), last.page, last.now, last.closed), last.now.Floor);
    }
  }

  lemma {:induction false} LastSighting(run: seq<Sighting>) returns (more: seq<Cleared>)
    requires IsRun(run) && run != []
    ensures DocOf(run).cleared == Retained(DocOf(run[..|run| - 1]).cleared + more, run[|run| - 1].now)
    ensures HistoryOf(run) == HistoryOf(run[..|run| - 1]) + more
  {
    var last := run[|run| - 1];
    more := Clearings(DocOf(run[..|run| - 1]), last.page, last.now, last.closed);
  }

  // The cleared lives kept are what retention leaves of the whole history.
  lemma {:induction false} KeptIsRetained(run: seq<Sighting>)
    requires IsRun(run) && Onward(run) && run != []
    ensures DocOf(run).cleared == Retained(HistoryOf(run), run[|run| - 1].now)
    decreases |run|
  {
    var more := LastSighting(run);
    var init := run[..|run| - 1];
    if init == [] {
      assert HistoryOf(init) + more == DocOf(init).cleared + more;
    } else {
      OnwardPrefix(run);
      KeptIsRetained(init);
      HistoryOrdered(run);
      HistoryOrdered(init);
      LastOfLast(HistoryOf(init), more, init[|init| - 1].now, run[|run| - 1].now);
    }
  }

  lemma {:induction false} HistoryIsCounted(run: seq<Sighting>)
    requires IsRun(run)
    ensures |HistoryOf(run)| == |DocOf(run).cleared| + DocOf(run).dropped
    decreases |run|
  {
    if run != [] {
      HistoryIsCounted(run[..|run| - 1]);
    }
  }

  // A life is kept exactly when it cleared within thirty days and it is of the last five thousand.
  ghost predicate KeptExactly(h: seq<Cleared>, now: real, cut: nat) {
    forall i :: 0 <= i < |h| ==> (cut <= i <==> h[i].at as real >= now - 2592000.0 && |h| - i <= 5000)
  }

  lemma {:induction false} KeptIsTheEnd(h: seq<Cleared>, now: real)
    requires Ordered(h)
    ensures |Retained(h, now)| <= |h| && Retained(h, now) == h[|h| - |Retained(h, now)|..]
    ensures KeptExactly(h, now, |h| - |Retained(h, now)|)
  {
    RecentAreLast(h, now);
    RetainedIsLast(h, now);
    forall i | 0 <= i < |h| ensures Recent(now)(h[i]) <==> h[i].at as real >= now - 2592000.0 {
    }
  }

  // Over every run from the empty document with a clock that never goes back: the cleared lives
  // kept are exactly the last of the whole history, as many as the days and the limit allow, and
  // the rest of it is counted as dropped. A life is kept exactly when it cleared within thirty days and
  // fewer than five thousand cleared after it.
  lemma {:induction false} KeepsTheLastOfAll(run: seq<Sighting>)
    requires IsRun(run) && Onward(run) && run != []
    ensures var h, now := HistoryOf(run), run[|run| - 1].now;
            && DocOf(run).cleared == LastOf(h, Least(KEPT_MAX, WithinDays(h, now)))
            && DocOf(run).dropped <= |h| && DocOf(run).cleared == h[DocOf(run).dropped..]
            && KeptExactly(h, now, DocOf(run).dropped)
  {
    var h, now := HistoryOf(run), run[|run| - 1].now;
    KeptIsRetained(run);
    HistoryOrdered(run);
    KeptIsTheEnd(h, now);
    HistoryOrdered(run);
    RetainedIsLast(h, now);
    HistoryIsCounted(run);
  }

  // ------------------------------------------------------------------ what a life says

  // The row a sighting of a run shows for an id.
  predicate Seen(run: seq<Sighting>, j: int, id: string) { 0 <= j < |run| && id in PresentIn(run[j].page.rows) }

  function RowSeen(run: seq<Sighting>, j: int, id: string): Row
    requires Seen(run, j, id)
  {
    PresentIn(run[j].page.rows)[id]
  }

  // How many sightings from the `i`-th on show it.
  function TimesSeen(run: seq<Sighting>, i: nat, id: string): nat {
    if |run| <= i then 0
    else TimesSeen(run[..|run| - 1], i, id) + if Seen(run, |run| - 1, id) then 1 else 0
  }

  ghost predicate LastSeenAt(run: seq<Sighting>, i: nat, id: string, j: int) {
    i <= j && Seen(run, j, id) && forall k :: j < k < |run| ==> !Seen(run, k, id)
  }

  // The last sighting from the `i`-th on whose row says what it is.
  ghost predicate LastSaidAt(run: seq<Sighting>, i: nat, id: string, j: int) {
    && i <= j && Seen(run, j, id) && RowSeen(run, j, id).what != ""
    && forall k :: j < k < |run| && Seen(run, k, id) ==> RowSeen(run, k, id).what == ""
  }

  ghost predicate NeverSaid(run: seq<Sighting>, i: nat, id: string) {
    forall k :: i <= k < |run| && Seen(run, k, id) ==> RowSeen(run, k, id).what == ""
  }

  // The last sighting from the `i`-th on whose row says when it clears.
  ghost predicate LastTimedAt(run: seq<Sighting>, i: nat, id: string, j: int) {
    && i <= j && Seen(run, j, id) && !RowSeen(run, j, id).clearsAt.Unsaid?
    && forall k :: j < k < |run| && Seen(run, k, id) ==> RowSeen(run, k, id).clearsAt.Unsaid?
  }

  ghost predicate NeverTimed(run: seq<Sighting>, i: nat, id: string) {
    forall k :: i <= k < |run| && Seen(run, k, id) ==> RowSeen(run, k, id).clearsAt.Unsaid?
  }

  // A life begun by the `i`-th sighting, as the sightings since make it.
  ghost predicate LifeSince(run: seq<Sighting>, i: nat, id: string, life: Life) {
    && Seen(run, i, id) && life.firstSeen == run[i].now.Floor && life.seen == TimesSeen(run, i, id)
    && (life.source == var r := RowSeen(run, i, id); if r.source.Some? then r.source.value else Prefix(id))
    && (exists j :: LastSeenAt(run, i, id, j) && life.lastSeen == run[j].now.Floor)
    && ((exists j :: LastSaidAt(run, i, id, j) && life.what == RowSeen(run, j, id).what)
        || (NeverSaid(run, i, id) && life.what == ""))
    && ((exists j :: LastTimedAt(run, i, id, j) && life.clearsAt == RowSeen(run, j, id).clearsAt)
        || (NeverTimed(run, i, id) && life.clearsAt.Unsaid?))
  }

  ghost predicate OpenAt(run: seq<Sighting>, j: nat, id: string) {
    j <= |run| && IsRun(run[..j]) && id in DocOf(run[..j]).open
  }

  // Not open before the `i`-th sighting, and open after it and every one since.
  ghost predicate OpenSince(run: seq<Sighting>, i: nat, id: string) {
    !OpenAt(run, i, id) && forall j :: i < j <= |run| ==> OpenAt(run, j, id)
  }

  lemma {:induction false} OpenBefore(run: seq<Sighting>, j: nat, id: string)
    requires run != [] && j < |run|
    ensures OpenAt(run[..|run| - 1], j, id) <==> OpenAt(run, j, id)
  {
    assert run[..|run| - 1][..j] == run[..j];
  }

  lemma {:induction false} OpenGoesOn(run: seq<Sighting>, i: nat, id: string)
    requires run != [] && i < |run| && OpenAt(run, |run|, id)
    requires if i < |run| - 1 then OpenSince(run[..|run| - 1], i, id) else !OpenAt(run, i, id)
    ensures OpenSince(run, i, id)
  {
    forall j | i < j <= |run| ensures OpenAt(run, j, id) {
      if j < |run| {
        OpenBefore(run, j, id);
      }
    }
    OpenBefore(run, i, id);
  }

  lemma {:induction false} SeenBefore(run: seq<Sighting>, id: string)
    requires run != []
    ensures var init := run[..|run| - 1];
            && (forall j :: 0 <= j < |init| ==> (Seen(init, j, id) <==> Seen(run, j, id)))
            && (forall j :: 0 <= j < |init| && Seen(run, j, id) ==> RowSeen(init, j, id) == RowSeen(run, j, id))
  {
  }

  lemma {:induction false} LifeBegins(run: seq<Sighting>, id: string, life: Life)
    requires run != [] && Seen(run, |run| - 1, id)
    requires var last := run[|run| - 1];
             life == Sighted(NewLife(id, RowSeen(run, |run| - 1, id), last.now), RowSeen(run, |run| - 1, id), last.now)
    ensures LifeSince(run, |run| - 1, id, life)
  {
    var n := |run| - 1;
    assert TimesSeen(run[..n], n, id) == 0;
    assert LastSeenAt(run, n, id, n);
    assert RowSeen(run, n, id).what != "" ==> LastSaidAt(run, n, id, n);
    assert !RowSeen(run, n, id).clearsAt.Unsaid? ==> LastTimedAt(run, n, id, n);
  }

  lemma {:induction false} SaidGoesOn(run: seq<Sighting>, i: nat, id: string, before: string, what: string)
    requires run != [] && i < |run| - 1
    requires var init := run[..|run| - 1];
             (exists j :: LastSaidAt(init, i, id, j) && before == RowSeen(init, j, id).what)
             || (NeverSaid(init, i, id) && before == "")
    requires var n := |run| - 1;
             what == if Seen(run, n, id) && RowSeen(run, n, id).what != "" then RowSeen(run, n, id).what else before
    ensures (exists j :: LastSaidAt(run, i, id, j) && what == RowSeen(run, j, id).what)
            || (NeverSaid(run, i, id) && what == "")
  {
    var n, init := |run| - 1, run[..|run| - 1];
    SeenBefore(run, id);
    if Seen(run, n, id) && RowSeen(run, n, id).what != "" {
      assert LastSaidAt(run, i, id, n);
    } else if j :| LastSaidAt(init, i, id, j) && before == RowSeen(init, j, id).what {
      assert LastSaidAt(run, i, id, j);
    }
  }

  lemma {:induction false} TimeGoesOn(run: seq<Sighting>, i: nat, id: string, before: ClearsAt, clearsAt: ClearsAt)
    requires run != [] && i < |run| - 1
    requires var init := run[..|run| - 1];
             (exists j :: LastTimedAt(init, i, id, j) && before == RowSeen(init, j, id).clearsAt)
             || (NeverTimed(init, i, id) && before.Unsaid?)
    requires var n := |run| - 1;
             clearsAt == if Seen(run, n, id) && !RowSeen(run, n, id).clearsAt.Unsaid? then RowSeen(run, n, id).clearsAt
                         else before
    ensures (exists j :: LastTimedAt(run, i, id, j) && clearsAt == RowSeen(run, j, id).clearsAt)
            || (NeverTimed(run, i, id) && clearsAt.Unsaid?)
  {
    var n, init := |run| - 1, run[..|run| - 1];
    SeenBefore(run, id);
    if Seen(run, n, id) && !RowSeen(run, n, id).clearsAt.Unsaid? {
      assert LastTimedAt(run, i, id, n);
    } else if j :| LastTimedAt(init, i, id, j) && before == RowSeen(init, j, id).clearsAt {
      assert LastTimedAt(run, i, id, j);
    }
  }

  lemma {:induction false} LastSeenGoesOn(run: seq<Sighting>, i: nat, id: string, before: int, last: int)
    requires run != [] && i < |run| - 1
    requires exists j :: LastSeenAt(run[..|run| - 1], i, id, j) && before == run[j].now.Floor
    requires last == if Seen(run, |run| - 1, id) then run[|run| - 1].now.Floor else before
    ensures exists j :: LastSeenAt(run, i, id, j) && last == run[j].now.Floor
  {
    SeenBefore(run, id);
    if Seen(run, |run| - 1, id) {
      assert LastSeenAt(run, i, id, |run| - 1);
    } else {
      var j :| LastSeenAt(run[..|run| - 1], i, id, j) && before == run[j].now.Floor;
      assert LastSeenAt(run, i, id, j);
    }
  }

  lemma {:induction false} LifeGoesOn(run: seq<Sighting>, i: nat, id: string, before: Life, life: Life)
    requires run != [] && i < |run| - 1 && LifeSince(run[..|run| - 1], i, id, before)
    requires var n := |run| - 1;
             life == if Seen(run, n, id) then Sighted(before, RowSeen(run, n, id), run[n].now) else before
    ensures LifeSince(run, i, id, life)
  {
    SeenBefore(run, id);
    LastSeenGoesOn(run, i, id, before.lastSeen, life.lastSeen);
    SaidGoesOn(run, i, id, before.what, life.what);
    TimeGoesOn(run, i, id, before.clearsAt, life.clearsAt);
  }

  // What the last sighting of a run makes of an open life, or of one it begins.
  lemma {:induction false} LifeAfterLast(run: seq<Sighting>, id: string)
    requires IsRun(run) && run != [] && id in DocOf(run).open
    ensures var init, n := run[..|run| - 1], |run| - 1;
            && IsRun(init)
            && (id in DocOf(init).open ==>
                  var before := DocOf(init).open[id];
                  DocOf(run).open[id]
                  == if Seen(run, n, id) then Sighted(before, RowSeen(run, n, id), run[n].now) else before)
            && (id !in DocOf(init).open ==>
                  && Seen(run, n, id)
                  && var r := RowSeen(run, n, id);
                     DocOf(run).open[id] == Sighted(NewLife(id, r, run[n].now), r, run[n].now))
  {
    var init, last := run[..|run| - 1], run[|run| - 1];
    assert DocOf(run).open == OpenAfter(DocOf(init), last.page, last.now);
  }

  lemma {:induction false} OpenAtTheEnd(run: seq<Sighting>, id: string)
    requires IsRun(run)
    ensures OpenAt(run, |run|, id) <==> id in DocOf(run).open
  {
    assert run[..|run|] == run;
  }

  // Over every run: an open life was begun by the sighting since which the id has been open, and it says
  // when that was and from which source, how often and when last it was shown since, and what it is and
  // when it clears in the words of the last row that said so.
  lemma {:induction false} LifeIsItsSightings(run: seq<Sighting>, id: string) returns (i: nat)
    requires IsRun(run) && id in DocOf(run).open
    ensures i < |run| && OpenSince(run, i, id) && LifeSince(run, i, id, DocOf(run).open[id])
    decreases |run|
  {
    var init := run[..|run| - 1];
    LifeAfterLast(run, id);
    OpenAtTheEnd(run, id);
    OpenAtTheEnd(init, id);
    OpenAtLast(run, id);
    if id in DocOf(init).open {
      i := LifeIsItsSightings(init, id);
      LifeGoesOn(run, i, id, DocOf(init).open[id], DocOf(run).open[id]);
    } else {
      i := |run| - 1;
      LifeBegins(run, id, DocOf(run).open[id]);
    }
    OpenGoesOn(run, i, id);
  }

  lemma {:induction false} OpenAtLast(run: seq<Sighting>, id: string)
    requires run != []
    ensures OpenAt(run, |run| - 1, id) <==> OpenAt(run[..|run| - 1], |run| - 1, id)
  {
    assert run[..|run| - 1][..|run| - 1] == run[..|run| - 1];
  }

  // ------------------------------------------------------------------ counting lives

  lemma {:induction false} OnceCounts(ids: seq<string>, all: set<string>)
    requires Once(ids) && forall id :: id in ids <==> id in all
    ensures |ids| == |all|
  {
    if ids == [] {
      assert all == {};
    } else {
      var last := ids[|ids| - 1];
      assert ids == ids[..|ids| - 1] + [last];
      OnceCounts(ids[..|ids| - 1], all - {last});
    }
  }

  lemma {:induction false} TwoWaysToCount(open: set<string>, present: set<string>, unknown: set<string>)
    requires unknown <= open - present
    ensures |present + unknown| + |open - present - unknown| == |open| + |present - open|
  {
    var a, b, c := present + unknown, open - present - unknown, present - open;
    assert a + b == open + c;
    assert |a + b| == |a| + |b| && |open + c| == |open| + |c|;
  }

  // The open ids absent from the page that a sighting leaves open.
  function UnknownIds(doc: Doc, page: Page): set<string> {
    set id | id in doc.open.Keys && id !in PresentIn(page.rows) && Unknown(doc, page, id)
  }

  lemma {:induction false} OpenKeys(doc: Doc, page: Page, now: real)
    ensures OpenAfter(doc, page, now).Keys == PresentIn(page.rows).Keys + UnknownIds(doc, page)
  {
  }

  lemma {:induction false} ClosedIds(doc: Doc, page: Page, closed: seq<string>)
    requires ClosesAll(doc, page, closed)
    ensures |closed| == |doc.open.Keys - PresentIn(page.rows).Keys - UnknownIds(doc, page)|
  {
    OnceCounts(closed, doc.open.Keys - PresentIn(page.rows).Keys - UnknownIds(doc, page));
  }

  lemma {:induction false} KeysCount(m: map<string, Life>)
    ensures |m| == |m.Keys|
  {
  }

  // One sighting moves lives and loses none.
  lemma {:induction false} SightingConserves(doc: Doc, page: Page, now: real, closed: seq<string>)
    requires ClosesAll(doc, page, closed)
    ensures |OpenAfter(doc, page, now)| + |closed|
         == |doc.open| + |PresentIn(page.rows).Keys - doc.open.Keys|
  {
    OpenKeys(doc, page, now);
    ClosedIds(doc, page, closed);
    KeysCount(OpenAfter(doc, page, now));
    KeysCount(doc.open);
    TwoWaysToCount(doc.open.Keys, PresentIn(page.rows).Keys, UnknownIds(doc, page));
  }

  // Every life that ever began is open, kept or counted as dropped.
  lemma {:induction false} EveryLifeIsAccountedFor(run: seq<Sighting>)
    requires IsRun(run)
    ensures |DocOf(run).open| + |DocOf(run).cleared| + DocOf(run).dropped == BegunIn(run)
    decreases |run|
  {
    if run != [] {
      var init, last := run[..|run| - 1], run[|run| - 1];
      EveryLifeIsAccountedFor(init);
      SightingConserves(DocOf(init), last.page, last.now, last.closed);
    }
  }
}
