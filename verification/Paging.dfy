/** The dispute list: the store's filtered and ordered rows, and the cursors a client follows (service.go, memstore.go). */
module Paging {
  import opened Prelude
  import opened Lifecycle
  import opened Deadlines
  import opened BankingCore
  import opened Cases
  import opened Store

  datatype Cursor = Cursor(openedAt: int, id: Id)

  datatype ListQuery = ListQuery(
    state: Option<State>, reason: Option<Reason>, overdue: bool, now: int, after: Option<Cursor>, limit: int)

  datatype Page = Page(items: seq<DisputeRecord>, next: Option<Cursor>)

  function KeyOf(rec: DisputeRecord): Cursor { Cursor(rec.openedAt, rec.id) }

  /** Newest first; of two opened at the same instant, the greater identifier. */
  predicate Precedes(a: Cursor, b: Cursor) {
    a.openedAt > b.openedAt || (a.openedAt == b.openedAt && a.id > b.id)
  }

  ghost predicate Descending(keys: seq<Cursor>) {
    forall i, j | 0 <= i < j < |keys| :: Precedes(keys[i], keys[j])
  }

  function Keys(rows: seq<DisputeRecord>): (keys: seq<Cursor>)
    ensures |keys| == |rows| && forall i | 0 <= i < |rows| :: keys[i] == KeyOf(rows[i])
  {
    seq(|rows|, i requires 0 <= i < |rows| => KeyOf(rows[i]))
  }

  /** A dispute the caller may see and the filters select, wherever the cursor stands. */
  predicate Filtered(t: Tables, caller: Caller, q: ListQuery, rec: DisputeRecord) {
    && rec.id in t.disputes && t.disputes[rec.id] == rec
    && Visible(caller, rec)
    && (q.state.Some? ==> rec.state == q.state.value)
    && (q.reason.Some? ==> rec.reason == q.reason.value)
    && (q.overdue ==> IsOverdue(RowsOf(t.deadlines, rec.id), q.now))
  }

  predicate Offered(t: Tables, caller: Caller, q: ListQuery, rec: DisputeRecord) {
    Filtered(t, caller, q, rec) && (q.after.Some? ==> Precedes(q.after.value, KeyOf(rec)))
  }

  /** The first rows of what is offered, in order. */
  ghost predicate IsListing(rows: seq<DisputeRecord>, t: Tables, caller: Caller, q: ListQuery, limit: nat) {
    && |rows| <= limit && Descending(Keys(rows))
    && (forall rec | rec in rows :: Offered(t, caller, q, rec))
    && (forall rec | Offered(t, caller, q, rec) && rec !in rows ::
          |rows| == limit && forall r | r in rows :: Precedes(KeyOf(r), KeyOf(rec)))
  }

  function PageSize(limit: int): nat { if limit <= 0 || limit > 100 then 25 else limit }

  /** A full page continues exactly when something it could not hold is left. */
  ghost predicate IsPage(p: Page, t: Tables, caller: Caller, q: ListQuery) {
    && IsListing(p.items, t, caller, q, PageSize(q.limit))
    && (p.next.None? ==> forall rec | Offered(t, caller, q, rec) :: rec in p.items)
    && (p.next.Some? ==>
          && |p.items| == PageSize(q.limit) && p.next.value == KeyOf(p.items[|p.items| - 1])
          && exists rec :: Offered(t, caller, q, rec) && rec !in p.items)
  }

  // ---------------------------------------------------------------------------------------------------
  // The store and the service

  /** Puts a row where it belongs among rows already in order. */
  method Insert(rows: seq<DisputeRecord>, rec: DisputeRecord) returns (out: seq<DisputeRecord>)
    requires Descending(Keys(rows)) && forall r | r in rows :: r.id != rec.id
    ensures Descending(Keys(out)) && forall r :: r in out <==> r in rows || r == rec
  {
    var i := 0;
    while i < |rows| && Precedes(KeyOf(rows[i]), KeyOf(rec))
      invariant 0 <= i <= |rows|
      invariant forall j | 0 <= j < i :: Precedes(KeyOf(rows[j]), KeyOf(rec))
    {
      i := i + 1;
    }
    out := rows[..i] + [rec] + rows[i..];
    forall j | i <= j < |rows| ensures Precedes(KeyOf(rec), KeyOf(rows[j])) {
      assert rows[i] in rows;
      assert j > i ==> Precedes(Keys(rows)[i], Keys(rows)[j]);
    }
    InOrderAround(rows, i, rec);
    assert rows == rows[..i] + rows[i..];
  }

  lemma InOrderAround(rows: seq<DisputeRecord>, i: nat, rec: DisputeRecord)
    requires Descending(Keys(rows)) && i <= |rows|
    requires forall j | 0 <= j < i :: Precedes(KeyOf(rows[j]), KeyOf(rec))
    requires forall j | i <= j < |rows| :: Precedes(KeyOf(rec), KeyOf(rows[j]))
    ensures Descending(Keys(rows[..i] + [rec] + rows[i..]))
  {
    var out := rows[..i] + [rec] + rows[i..];
    forall j, k | 0 <= j < k < |out| ensures Precedes(Keys(out)[j], Keys(out)[k]) {
      if j != i && k != i {
        var j', k' := if j < i then j else j - 1, if k < i then k else k - 1;
        assert Precedes(Keys(rows)[j'], Keys(rows)[k']);
      }
    }
  }

  /**
   * In the fields of the record, its clocks, the caller and the query alone: a dispute of the caller's tenant, for an
   * analyst of one of the analyst's teams, of the state and reason asked for, and overdue if that is asked, which comes
   * after the cursor.
   */
  ghost predicate IsAskedFor(rec: DisputeRecord, clocks: seq<Deadline>, caller: Caller, q: ListQuery) {
    && rec.tenant == caller.tenant
    && (caller.teams.Some? ==> rec.team in caller.teams.value)
    && q.state in {None, Some(rec.state)} && q.reason in {None, Some(rec.reason)}
    && (q.overdue ==> exists d :: d in clocks && d.metAt == None && d.voidedAt == None && d.dueAt < q.now)
    && (q.after.Some? ==>
          var c := q.after.value; rec.openedAt < c.openedAt || (rec.openedAt == c.openedAt && rec.id < c.id))
  }

  lemma OfferedIffAskedFor(t: Tables, caller: Caller, q: ListQuery, rec: DisputeRecord)
    ensures Offered(t, caller, q, rec)
       <==> rec.id in t.disputes && t.disputes[rec.id] == rec && IsAskedFor(rec, RowsOf(t.deadlines, rec.id), caller, q)
  {
  }

  /** The store's page: every row once over, what the filters select put in order, and the rest cut off. */
  method Listing(store: MemStore, caller: Caller, q: ListQuery, limit: nat) returns (rows: seq<DisputeRecord>)
    requires store.Valid()
    ensures IsListing(rows, store.Rows(), caller, q, limit)
    ensures forall rec | rec in rows ::
              rec.id in store.disputes && IsAskedFor(rec, RowsOf(store.Rows().deadlines, rec.id), caller, q)
  {
    ghost var t := store.Rows();
    var todo := store.disputes.Keys;
    rows := [];
    while todo != {}
      invariant todo <= store.disputes.Keys
      invariant Descending(Keys(rows))
      invariant forall rec :: rec in rows <==> rec.id !in todo && Offered(t, caller, q, rec)
      decreases todo
    {
      var id :| id in todo;
      var rec := store.disputes[id];
      var late := false;
      if q.overdue && id in store.deadlines {
        late := Overdue(store.deadlines[id][..], q.now);
      }
      var skip := !Visible(caller, rec)
                  || (q.state.Some? && rec.state != q.state.value)
                  || (q.reason.Some? && rec.reason != q.reason.value)
                  || (q.overdue && !late)
                  || (q.after.Some? && rec.openedAt > q.after.value.openedAt)
                  || (q.after.Some? && rec.openedAt == q.after.value.openedAt && rec.id >= q.after.value.id);
      assert skip <==> !Offered(t, caller, q, rec);
      if !skip {
        rows := Insert(rows, rec);
      }
      todo := todo - {id};
    }
    if |rows| > limit {
      CuttingOff(rows, limit);
      rows := rows[..limit];
    }
    forall rec | rec in rows ensures IsAskedFor(rec, RowsOf(t.deadlines, rec.id), caller, q) {
      OfferedIffAskedFor(t, caller, q, rec);
    }
  }

  lemma CuttingOff(rows: seq<DisputeRecord>, limit: nat)
    requires Descending(Keys(rows)) && limit < |rows|
    ensures Descending(Keys(rows[..limit]))
    ensures forall rec | rec in rows && rec !in rows[..limit] ::
              forall r | r in rows[..limit] :: Precedes(KeyOf(r), KeyOf(rec))
  {
    forall i, j | 0 <= i < j < limit ensures Precedes(Keys(rows[..limit])[i], Keys(rows[..limit])[j]) {
      assert Precedes(Keys(rows)[i], Keys(rows)[j]);
    }
    forall rec, r | rec in rows && rec !in rows[..limit] && r in rows[..limit] ensures Precedes(KeyOf(r), KeyOf(rec)) {
      assert rows == rows[..limit] + rows[limit..];
      var i :| 0 <= i < limit && rows[..limit][i] == r;
      var j :| 0 <= j < |rows| - limit && rows[limit..][j] == rec;
      assert Precedes(Keys(rows)[i], Keys(rows)[limit + j]);
    }
  }

  /** Asks for one row more than the page holds, to learn whether there is a next page. */
  method ListDisputes(store: MemStore, caller: Caller, q: ListQuery) returns (page: Page)
    requires store.Valid()
    ensures IsPage(page, store.Rows(), caller, q)
    ensures forall rec | rec in page.items ::
              && rec.id in store.disputes && store.disputes[rec.id] == rec
              && IsAskedFor(rec, RowsOf(store.Rows().deadlines, rec.id), caller, q)
    ensures page.next.None? ==>
              forall id | id in store.disputes :: store.disputes[id] in page.items
                <==> IsAskedFor(store.disputes[id], RowsOf(store.Rows().deadlines, id), caller, q)
    ensures |page.items| <= (if 1 <= q.limit <= 100 then q.limit else 25)
    ensures page.next.Some? ==> |page.items| == if 1 <= q.limit <= 100 then q.limit else 25
  {
    var size := PageSize(q.limit);
    var rows := Listing(store, caller, q, size + 1);
    page := Page(rows, None);
    if |rows| > size {
      page := Page(rows[..size], Some(KeyOf(rows[size - 1])));
      CuttingOff(rows, size);
      assert rows[size] in rows;
      assert Precedes(Keys(rows)[size - 1], Keys(rows)[size]);
      LastIsNotBefore(rows, size);
    }
    forall rec ensures Offered(store.Rows(), caller, q, rec)
                  <==> rec.id in store.disputes && store.disputes[rec.id] == rec
                       && IsAskedFor(rec, RowsOf(store.Rows().deadlines, rec.id), caller, q)
    {
      OfferedIffAskedFor(store.Rows(), caller, q, rec);
    }
  }

  lemma LastIsNotBefore(rows: seq<DisputeRecord>, n: nat)
    requires Descending(Keys(rows)) && n < |rows|
    ensures rows[n] !in rows[..n]
  {
    forall i | 0 <= i < n ensures rows[..n][i] != rows[n] {
      assert Precedes(Keys(rows)[i], Keys(rows)[n]);
    }
  }

  /** The clock each listed dispute shows: the first to run out of those still open, if any is. */
  method NextDeadlines(store: MemStore, caller: Caller, ids: seq<Id>) returns (shown: map<Id, Deadline>)
    requires store.Valid()
    ensures forall id :: id in shown <==>
              && id in ids && id in store.disputes && store.disputes[id].tenant == caller.tenant
              && exists d :: d in RowsOf(store.Rows().deadlines, id) && d.Open()
    ensures forall id | id in shown :: IsNextClock(RowsOf(store.Rows().deadlines, id), shown[id])
  {
    shown := map[];
    for k := 0 to |ids|
      invariant forall id :: id in shown <==>
                  && id in ids[..k] && id in store.disputes && store.disputes[id].tenant == caller.tenant
                  && exists d :: d in RowsOf(store.Rows().deadlines, id) && d.Open()
      invariant forall id | id in shown :: IsNextClock(RowsOf(store.Rows().deadlines, id), shown[id])
    {
      var id := ids[k];
      assert ids[..k + 1] == ids[..k] + [id];
      if id in store.disputes && store.disputes[id].tenant == caller.tenant {
        var next := NextDeadline(if id in store.deadlines then store.deadlines[id][..] else []);
        if next.Some? {
          shown := shown[id := next.value];
        }
      }
    }
    assert ids[..|ids|] == ids;
  }

  ghost predicate IsNextClock(ds: seq<Deadline>, d: Deadline) {
    exists i :: EarliestOpen(ds, i) && ds[i] == d
  }

  // ---------------------------------------------------------------------------------------------------
  // Following the cursors

  /** A dispute with this key is selected by the filters. */
  ghost predicate Selected(t: Tables, caller: Caller, q: ListQuery, c: Cursor) {
    c.id in t.disputes && KeyOf(t.disputes[c.id]) == c && Filtered(t, caller, q, t.disputes[c.id])
  }

  /** One page as it was served: from what the store then held, to the query then made. */
  datatype Visit = Visit(t: Tables, q: ListQuery, page: Page)

  /** A client follows Next from the first page on; the store may change between pages, and so may the limit. */
  ghost predicate Walk(caller: Caller, visits: seq<Visit>) {
    && visits != []
    && var n := |visits| - 1;
       && IsPage(visits[n].page, visits[n].t, caller, visits[n].q)
       && (if n == 0 then visits[n].q.after.None?
           else Walk(caller, visits[..n]) && visits[n - 1].page.next.Some? && visits[n].q.after == visits[n - 1].page.next)
  }

  /** Everything the pages returned, in the order in which they returned it. */
  function Listed(visits: seq<Visit>): seq<Cursor> {
    if visits == [] then [] else Listed(visits[..|visits| - 1]) + Keys(visits[|visits| - 1].page.items)
  }

  function Next(visits: seq<Visit>): Option<Cursor>
    requires visits != []
  {
    visits[|visits| - 1].page.next
  }

  ghost predicate EndsAt(keys: seq<Cursor>, next: Option<Cursor>) {
    next.Some? ==> keys != [] && keys[|keys| - 1] == next.value
  }

  lemma APageIsAhead(p: Page, t: Tables, caller: Caller, q: ListQuery)
    requires IsPage(p, t, caller, q)
    ensures Descending(Keys(p.items)) && EndsAt(Keys(p.items), p.next)
    ensures forall c | c in Keys(p.items) ::
              Selected(t, caller, q, c) && (q.after.Some? ==> Precedes(q.after.value, c))
  {
    forall c | c in Keys(p.items)
      ensures Selected(t, caller, q, c) && (q.after.Some? ==> Precedes(q.after.value, c))
    {
      var i :| 0 <= i < |p.items| && Keys(p.items)[i] == c;
      assert p.items[i] in p.items;
    }
  }

  lemma APageSkipsNothing(p: Page, t: Tables, caller: Caller, q: ListQuery, c: Cursor)
    requires IsPage(p, t, caller, q) && Selected(t, caller, q, c)
    requires q.after.Some? ==> Precedes(q.after.value, c)
    ensures c in Keys(p.items) || (p.next.Some? && Precedes(p.next.value, c))
  {
    var rec := t.disputes[c.id];
    assert Offered(t, caller, q, rec);
    if rec in p.items {
      var i :| 0 <= i < |p.items| && p.items[i] == rec;
      assert Keys(p.items)[i] == c;
    } else if p.items != [] {
      assert p.items[|p.items| - 1] in p.items;
    }
  }

  lemma JoinDescending(a: seq<Cursor>, b: seq<Cursor>)
    requires Descending(a) && Descending(b) && a != [] && forall c | c in b :: Precedes(a[|a| - 1], c)
    ensures Descending(a + b)
  {
    forall i, j | 0 <= i < j < |a + b| ensures Precedes((a + b)[i], (a + b)[j]) {
      if i < |a| <= j {
        assert b[j - |a|] in b;
        assert i < |a| - 1 ==> Precedes(a[i], a[|a| - 1]);
      }
    }
  }

  /** Whatever happens to the store in between, nothing is returned twice and nothing out of order. */
  lemma {:induction false} NothingIsListedTwice(caller: Caller, visits: seq<Visit>)
    requires Walk(caller, visits)
    ensures Descending(Listed(visits)) && EndsAt(Listed(visits), Next(visits))
    ensures |Listed(visits)| >= |visits| - if Next(visits).Some? then 0 else 1
  {
    var n := |visits| - 1;
    var v, front := visits[n], visits[..n];
    APageIsAhead(v.page, v.t, caller, v.q);
    if n > 0 {
      NothingIsListedTwice(caller, front);
      JoinDescending(Listed(front), Keys(v.page.items));
    } else {
      assert Listed(front) + Keys(v.page.items) == Keys(v.page.items);
    }
  }

  /** Whatever else happens, a dispute selected each time a page is served has been returned or is still ahead. */
  lemma {:induction false} NothingIsSkipped(caller: Caller, visits: seq<Visit>, c: Cursor)
    requires Walk(caller, visits) && forall v | v in visits :: Selected(v.t, caller, v.q, c)
    ensures c in Listed(visits) || (Next(visits).Some? && Precedes(Next(visits).value, c))
  {
    var n := |visits| - 1;
    var v, front := visits[n], visits[..n];
    assert Listed(visits) == Listed(front) + Keys(v.page.items);
    if n > 0 {
      NothingIsSkipped(caller, front, c);
    }
    if c !in Listed(front) {
      APageSkipsNothing(v.page, v.t, caller, v.q, c);
    }
  }

  /** What is selected stays selected, and what comes to be selected belongs before all of it. */
  ghost predicate Steady(caller: Caller, first: Visit, v: Visit) {
    forall c ::
      && (Selected(first.t, caller, first.q, c) ==> Selected(v.t, caller, v.q, c))
      && (Selected(v.t, caller, v.q, c) && !Selected(first.t, caller, first.q, c) ==> BeforeAll(caller, first, c))
  }

  ghost predicate BeforeAll(caller: Caller, first: Visit, c: Cursor) {
    forall d | Selected(first.t, caller, first.q, d) :: Precedes(c, d)
  }

  /** What comes after something selected at the start is not new. */
  lemma NotNewAfter(caller: Caller, first: Visit, v: Visit, cursor: Cursor, c: Cursor)
    requires Steady(caller, first, v) && Selected(first.t, caller, first.q, cursor)
    requires Selected(v.t, caller, v.q, c) && Precedes(cursor, c)
    ensures Selected(first.t, caller, first.q, c)
  {
    assert BeforeAll(caller, first, c) ==> Precedes(c, cursor);
  }

  lemma {:induction false} NothingNewIsListed(caller: Caller, visits: seq<Visit>, c: Cursor)
    requires Walk(caller, visits) && forall v | v in visits :: Steady(caller, visits[0], v)
    requires c in Listed(visits)
    ensures Selected(visits[0].t, caller, visits[0].q, c)
    decreases |visits|
  {
    var n := |visits| - 1;
    var v, front := visits[n], visits[..n];
    if n > 0 && c in Listed(front) {
      NothingNewIsListed(caller, front, c);
    } else {
      APageIsAhead(v.page, v.t, caller, v.q);
      assert v in visits;
      if n > 0 {
        var cursor := Next(front).value;
        NothingIsListedTwice(caller, front);
        assert cursor in Listed(front) && v.q.after == Some(cursor);
        NothingNewIsListed(caller, front, cursor);
        assert c in Keys(v.page.items);
        NotNewAfter(caller, visits[0], v, cursor, c);
      }
    }
  }

  /**
   * Following Next ends, and by then has returned exactly the disputes selected at the start, each once, newest
   * first, for every sequence of limits.
   */
  lemma EachSelectedDisputeIsListedOnce(caller: Caller, visits: seq<Visit>)
    requires Walk(caller, visits) && forall v | v in visits :: Steady(caller, visits[0], v)
    ensures |visits| <= |visits[0].t.disputes| + 1
    ensures Descending(Listed(visits))
    ensures forall c | c in Listed(visits) :: Selected(visits[0].t, caller, visits[0].q, c)
    ensures Next(visits).None? ==>
              forall c | Selected(visits[0].t, caller, visits[0].q, c) :: c in Listed(visits)
  {
    NothingIsListedTwice(caller, visits);
    forall c | c in Listed(visits) ensures Selected(visits[0].t, caller, visits[0].q, c) {
      NothingNewIsListed(caller, visits, c);
    }
    NoMoreThanThereAre(Listed(visits), visits[0].t.disputes.Keys);
    forall c | Next(visits).None? && Selected(visits[0].t, caller, visits[0].q, c) ensures c in Listed(visits) {
      NothingIsSkipped(caller, visits, c);
    }
  }

  lemma {:induction false} NoMoreThanThereAre(keys: seq<Cursor>, ids: set<Id>)
    requires Descending(keys) && forall c, d | c in keys && d in keys && c.id == d.id :: c == d
    requires forall c | c in keys :: c.id in ids
    ensures |keys| <= |ids|
  {
    if keys != [] {
      var n := |keys| - 1;
      forall c | c in keys[..n] ensures c in keys && c.id in ids - {keys[n].id} {
        var i :| 0 <= i < n && keys[i] == c;
        assert Precedes(keys[i], keys[n]);
      }
      NoMoreThanThereAre(keys[..n], ids - {keys[n].id});
    }
  }

  // ---------------------------------------------------------------------------------------------------
  // Two stores that are steady

  ghost predicate SameFilters(q: ListQuery, q': ListQuery) {
    q.state == q'.state && q.reason == q'.reason && q.overdue == q'.overdue
  }

  /** A store that stands still; the time of asking matters only to the overdue filter. */
  lemma AnUnchangedStoreIsSteady(caller: Caller, first: Visit, v: Visit)
    requires v.t == first.t && SameFilters(v.q, first.q) && (first.q.overdue ==> v.q.now == first.q.now)
    ensures Steady(caller, first, v)
  {
    forall c ensures Selected(first.t, caller, first.q, c) <==> Selected(v.t, caller, v.q, c) {
    }
  }

  /**
   * Time passes between pages, so under the overdue filter more disputes may come to be selected anywhere in the
   * list. Over a store that stands still, following Next still ends, lists every dispute selected at the start, each
   * once, and lists nothing that was not selected when its page was served.
   */
  lemma TimeOnlyAddsOverdueDisputes(caller: Caller, visits: seq<Visit>)
    requires Walk(caller, visits)
    requires forall v | v in visits ::
               v.t == visits[0].t && SameFilters(v.q, visits[0].q) && visits[0].q.now <= v.q.now
    ensures |visits| <= |visits[0].t.disputes| + 1
    ensures Descending(Listed(visits))
    ensures forall v, c | v in visits && c in Keys(v.page.items) :: Selected(v.t, caller, v.q, c)
    ensures Next(visits).None? ==>
              forall c | Selected(visits[0].t, caller, visits[0].q, c) :: c in Listed(visits)
  {
    NothingIsListedTwice(caller, visits);
    forall v, c | v in visits && c in Keys(v.page.items) ensures Selected(v.t, caller, v.q, c) {
      ServedWhenSelected(caller, visits, v, c);
    }
    forall c | c in Listed(visits) ensures exists v :: v in visits && Selected(v.t, caller, v.q, c) {
      ListedWhenSelected(caller, visits, c);
    }
    NoMoreThanThereAre(Listed(visits), visits[0].t.disputes.Keys);
    forall c | Next(visits).None? && Selected(visits[0].t, caller, visits[0].q, c) ensures c in Listed(visits) {
      NothingIsSkipped(caller, visits, c);
    }
  }

  lemma {:induction false} ServedWhenSelected(caller: Caller, visits: seq<Visit>, v: Visit, c: Cursor)
    requires Walk(caller, visits) && v in visits && c in Keys(v.page.items)
    ensures Selected(v.t, caller, v.q, c)
  {
    var n := |visits| - 1;
    if v == visits[n] {
      APageIsAhead(v.page, v.t, caller, v.q);
    } else {
      assert visits == visits[..n] + [visits[n]];
      ServedWhenSelected(caller, visits[..n], v, c);
    }
  }

  lemma {:induction false} ListedWhenSelected(caller: Caller, visits: seq<Visit>, c: Cursor)
    requires Walk(caller, visits) && c in Listed(visits)
    ensures exists v :: v in visits && Selected(v.t, caller, v.q, c)
  {
    var n := |visits| - 1;
    if n > 0 && c in Listed(visits[..n]) {
      ListedWhenSelected(caller, visits[..n], c);
    } else {
      APageIsAhead(visits[n].page, visits[n].t, caller, visits[n].q);
      assert visits[n] in visits;
    }
  }

  /** Disputes live on where they are, and the new ones are opened later than all there were. */
  ghost predicate OnlyOpensLater(t: Tables, t': Tables) {
    && (forall id | id in t.disputes ::
          && id in t'.disputes && t'.disputes[id].id == t.disputes[id].id
          && t'.disputes[id].openedAt == t.disputes[id].openedAt
          && t'.disputes[id].tenant == t.disputes[id].tenant && t'.disputes[id].team == t.disputes[id].team)
    && (forall id, other | id in t'.disputes && id !in t.disputes && other in t.disputes ::
          Precedes(KeyOf(t'.disputes[id]), KeyOf(t.disputes[other])))
  }

  predicate Unfiltered(q: ListQuery) { q.state.None? && q.reason.None? && !q.overdue }

  /** Disputes may be opened, and those there are may change, between unfiltered pages. */
  lemma LaterDisputesAreSteady(caller: Caller, first: Visit, v: Visit)
    requires OnlyOpensLater(first.t, v.t) && Unfiltered(first.q) && Unfiltered(v.q)
    ensures Steady(caller, first, v)
  {
    forall c
      ensures Selected(first.t, caller, first.q, c) ==> Selected(v.t, caller, v.q, c)
      ensures Selected(v.t, caller, v.q, c) && !Selected(first.t, caller, first.q, c) ==> BeforeAll(caller, first, c)
    {
    }
  }
}
