/** Paging through a note's children: one page after an anchor id, and whole walks over a list that grows, at its end
    or anywhere, while entries are hidden and shown between calls. */
module Pagination {
  import opened Wrappers

  type Id = string
  datatype Entry = Entry(id: Id, archivedAt: Option<int>, hiddenAt: Option<int>)

  const DEFAULT_LIMIT := 30
  const MAX_LIMIT := 100

  predicate EntryVisible(e: Entry) {
    e.archivedAt.None? && e.hiddenAt.None?
  }

  /** The limit the handler passes on. */
  function ClampLimit(requested: Option<int>): (limit: nat)
    ensures 1 <= limit <= MAX_LIMIT
    ensures requested.Some? && 1 <= requested.value <= 100 ==> limit == requested.value
    ensures requested.Some? && requested.value > 100 ==> limit == 100
    ensures requested.None? || requested.value <= 0 ==> limit == 30
  {
    var limit := if requested.Some? && requested.value > 0 then requested.value else DEFAULT_LIMIT;
    if limit > MAX_LIMIT then MAX_LIMIT else limit
  }

  // ----- one page -----

  /** The position after the anchor, none when the anchor is unknown; no anchor or "" means the start. */
  function StartAfter(entries: seq<Entry>, until: Option<Id>): Option<nat>
    decreases |entries|
  {
    if until.None? || until.value == "" then Some(0)
    else if entries == [] then None
    else if entries[0].id == until.value then Some(1)
    else
      match StartAfter(entries[1..], until)
      case Some(k) => Some(k + 1)
      case None => None
  }

  /** The first `limit` visible entries from `from` on. */
  function VisibleFrom(entries: seq<Entry>, from: nat, limit: nat): seq<Entry>
    decreases |entries| - from
  {
    if from >= |entries| || limit == 0 then []
    else if EntryVisible(entries[from]) then [entries[from]] + VisibleFrom(entries, from + 1, limit - 1)
    else VisibleFrom(entries, from + 1, limit)
  }

  function Page(entries: seq<Entry>, until: Option<Id>, limit: nat): seq<Entry> {
    match StartAfter(entries, until)
    case None => []
    case Some(from) => VisibleFrom(entries, from, limit)
  }

  function Shifted(k: nat, found: Option<nat>): Option<nat> {
    if found.Some? then Some(k + found.value) else None
  }

  method FindStart(entries: seq<Entry>, until: Option<Id>) returns (start: Option<nat>)
    ensures start == StartAfter(entries, until)
    ensures start.Some? ==> start.value <= |entries|
    ensures until == None || until == Some("") ==> start == Some(0)
    ensures until.Some? && until.value != "" && start.Some? ==>
              start.value > 0 && entries[start.value - 1].id == until.value
    ensures until.Some? && until.value != "" ==> (start.None? <==> forall e :: e in entries ==> e.id != until.value)
  {
    if until.None? || until.value == "" { return Some(0); }
    for i := 0 to |entries|
      invariant StartAfter(entries, until) == Shifted(i, StartAfter(entries[i..], until))
      invariant forall k :: 0 <= k < i ==> entries[k].id != until.value
    {
      assert entries[i..][1..] == entries[i + 1..];
      if entries[i].id == until.value { return Some(i + 1); }
    }
    start := None;
  }

  method CollectVisible(entries: seq<Entry>, start: nat, limit: nat) returns (page: seq<Entry>)
    requires start <= |entries| && limit >= 1
    ensures page == VisibleFrom(entries, start, limit)
    ensures |page| <= limit && forall e :: e in page ==> e in entries && e.archivedAt == None && e.hiddenAt == None
  {
    page := [];
    for i := start to |entries|
      invariant |page| < limit
      invariant forall e :: e in page ==> e in entries && e.archivedAt == None && e.hiddenAt == None
      invariant page + VisibleFrom(entries, i, limit - |page|) == VisibleFrom(entries, start, limit)
    {
      if !EntryVisible(entries[i]) { continue; }
      ghost var rest := VisibleFrom(entries, i + 1, limit - |page| - 1);
      assert page + ([entries[i]] + rest) == page + [entries[i]] + rest;
      page := page + [entries[i]];
      if |page| == limit { break; }
    }
  }

  /** Both loops: the anchor is searched among all entries, hidden ones included; the page holds visible ones. */
  method PaginateAfterId(entries: seq<Entry>, until: Option<Id>, limit: nat) returns (page: seq<Entry>)
    requires limit >= 1
    ensures page == Page(entries, until, limit)
    ensures |page| <= limit && forall e :: e in page ==> e in entries && e.archivedAt == None && e.hiddenAt == None
  {
    var start := FindStart(entries, until);
    if start.None? { return []; }
    page := CollectVisible(entries, start.value, limit);
  }

  // ----- what a page holds -----

  /** The positions of those entries. */
  function PagePositions(entries: seq<Entry>, from: nat, limit: nat): (ps: seq<nat>)
    ensures ps != [] ==> from <= ps[|ps| - 1] < |entries|
    decreases |entries| - from
  {
    if from >= |entries| || limit == 0 then []
    else if EntryVisible(entries[from]) then [from] + PagePositions(entries, from + 1, limit - 1)
    else PagePositions(entries, from + 1, limit)
  }

  /** The page was not cut off before that place. */
  predicate Reaches(ps: seq<nat>, limit: nat, i: int) {
    |ps| < limit || (ps != [] && i <= ps[|ps| - 1])
  }

  /** Strictly ascending from `from` on. */
  predicate Ascends(ps: seq<nat>, from: nat)
    decreases |ps|
  {
    ps == [] || (from <= ps[0] && Ascends(ps[1..], ps[0] + 1))
  }

  lemma {:induction false} AscendsLower(ps: seq<nat>, from: nat, lower: nat)
    requires Ascends(ps, from) && lower <= from
    ensures Ascends(ps, lower)
  {
  }

  lemma {:induction false} AscendsMeans(ps: seq<nat>, from: nat)
    requires Ascends(ps, from)
    ensures forall k :: 0 <= k < |ps| ==> from <= ps[k]
    ensures forall j, k :: 0 <= j < k < |ps| ==> ps[j] < ps[k]
    decreases |ps|
  {
    if ps != [] { AscendsMeans(ps[1..], ps[0] + 1); }
  }

  lemma {:induction false} PageAscends(entries: seq<Entry>, from: nat, limit: nat)
    ensures Ascends(PagePositions(entries, from, limit), from) && |PagePositions(entries, from, limit)| <= limit
    decreases |entries| - from
  {
    if from < |entries| && limit > 0 {
      if EntryVisible(entries[from]) {
        PageAscends(entries, from + 1, limit - 1);
        var rest := PagePositions(entries, from + 1, limit - 1);
        assert ([from] + rest)[1..] == rest;
      } else {
        PageAscends(entries, from + 1, limit);
        AscendsLower(PagePositions(entries, from + 1, limit), from + 1, from);
      }
    }
  }

  /** A page holds visible entries only, every one up to its last, and all of the rest when it is not full. */
  lemma {:induction false} PageHolds(entries: seq<Entry>, from: nat, limit: nat, i: nat)
    requires from <= i < |entries|
    ensures i in PagePositions(entries, from, limit) ==> entries[i].archivedAt == None && entries[i].hiddenAt == None
    ensures entries[i].archivedAt == None && entries[i].hiddenAt == None && Reaches(PagePositions(entries, from, limit), limit, i)
            ==> i in PagePositions(entries, from, limit)
    decreases |entries| - from
  {
    if limit > 0 {
      if EntryVisible(entries[from]) {
        var rest := PagePositions(entries, from + 1, limit - 1);
        assert PagePositions(entries, from, limit) == [from] + rest;
        if i > from {
          PageHolds(entries, from + 1, limit - 1, i);
          assert i in [from] + rest <==> i in rest;
        }
      } else if i > from {
        PageHolds(entries, from + 1, limit, i);
      } else {
        PageAscends(entries, from + 1, limit);
        AscendsMeans(PagePositions(entries, from + 1, limit), from + 1);
      }
    }
  }

  // ----- places of ids -----

  function Pos(entries: seq<Entry>, id: Id): (i: nat)
    ensures i <= |entries|
    ensures i < |entries| ==> entries[i].id == id
    decreases |entries|
  {
    if entries == [] || entries[0].id == id then 0 else 1 + Pos(entries[1..], id)
  }

  predicate Has(entries: seq<Entry>, id: Id) {
    Pos(entries, id) < |entries|
  }

  /** No id is empty and none occurs twice. */
  predicate DistinctIds(entries: seq<Entry>)
    decreases |entries|
  {
    entries == [] || (entries[0].id != "" && !Has(entries[1..], entries[0].id) && DistinctIds(entries[1..]))
  }

  lemma {:induction false} PosIs(entries: seq<Entry>, i: nat)
    requires DistinctIds(entries) && i < |entries|
    ensures Pos(entries, entries[i].id) == i && entries[i].id != ""
    decreases |entries|
  {
    if i > 0 {
      PosIs(entries[1..], i - 1);
      assert entries[1..][i - 1] == entries[i];
    }
  }

  lemma {:induction false} AbsentHasNone(entries: seq<Entry>, id: Id, i: nat)
    requires !Has(entries, id) && i < |entries|
    ensures entries[i].id != id
    decreases |entries|
  {
    if i > 0 { AbsentHasNone(entries[1..], id, i - 1); }
  }

  lemma {:induction false} StartIsBehindAnchor(entries: seq<Entry>, until: Id)
    requires until != ""
    ensures StartAfter(entries, Some(until)) == if Has(entries, until) then Some(Pos(entries, until) + 1) else None
    decreases |entries|
  {
    if entries != [] && entries[0].id != until { StartIsBehindAnchor(entries[1..], until); }
  }

  /** An anchor that names no entry gives an empty page, never the first one again. */
  lemma UnknownAnchorGivesNothing(entries: seq<Entry>, until: Id, limit: nat)
    requires until != "" && forall i :: 0 <= i < |entries| ==> entries[i].id != until
    ensures Page(entries, Some(until), limit) == []
  {
    StartIsBehindAnchor(entries, until);
  }

  // ----- one page by ids -----

  function IdsOf(es: seq<Entry>): seq<Id>
    decreases |es|
  {
    if es == [] then [] else [es[0].id] + IdsOf(es[1..])
  }

  lemma {:induction false} IdsOfAppend(a: seq<Entry>, b: seq<Entry>)
    ensures IdsOf(a + b) == IdsOf(a) + IdsOf(b)
    decreases |a|
  {
    if a == [] {
      assert a + b == b;
    } else {
      assert (a + b)[1..] == a[1..] + b;
      IdsOfAppend(a[1..], b);
    }
  }

  lemma {:induction false} PageAt(entries: seq<Entry>, from: nat, limit: nat)
    ensures |VisibleFrom(entries, from, limit)| == |PagePositions(entries, from, limit)|
    ensures forall k :: 0 <= k < |PagePositions(entries, from, limit)| ==>
              var i := PagePositions(entries, from, limit)[k];
              i < |entries| && VisibleFrom(entries, from, limit)[k] == entries[i]
    decreases |entries| - from
  {
    if from < |entries| && limit > 0 {
      PageAt(entries, from + 1, if EntryVisible(entries[from]) then limit - 1 else limit);
    }
  }

  lemma {:induction false} IdOf(es: seq<Entry>, id: Id)
    ensures id in IdsOf(es) <==> exists k :: 0 <= k < |es| && es[k].id == id
    decreases |es|
  {
    if es != [] {
      IdOf(es[1..], id);
      if id in IdsOf(es[1..]) {
        var k :| 0 <= k < |es[1..]| && es[1..][k].id == id;
        assert es[k + 1].id == id;
      }
    }
  }

  function LastId(page: seq<Entry>): Id
    requires page != []
  {
    page[|page| - 1].id
  }

  lemma PageHasPosition(entries: seq<Entry>, from: nat, limit: nat, i: nat)
    requires DistinctIds(entries) && i < |entries|
    ensures entries[i].id in IdsOf(VisibleFrom(entries, from, limit)) <==> i in PagePositions(entries, from, limit)
  {
    var ps, page := PagePositions(entries, from, limit), VisibleFrom(entries, from, limit);
    PageAt(entries, from, limit);
    IdOf(page, entries[i].id);
    if k :| 0 <= k < |page| && page[k].id == entries[i].id {
      PosIs(entries, ps[k]);
      PosIs(entries, i);
      assert ps[k] == i;
    }
    if i in ps {
      var k :| 0 <= k < |ps| && ps[k] == i;
      assert page[k].id == entries[i].id;
    }
  }

  lemma PageLast(entries: seq<Entry>, from: nat, limit: nat)
    requires DistinctIds(entries)
    ensures |VisibleFrom(entries, from, limit)| == |PagePositions(entries, from, limit)|
    ensures var ps, page := PagePositions(entries, from, limit), VisibleFrom(entries, from, limit);
            page != [] ==> Has(entries, LastId(page)) && LastId(page) != ""
                           && from <= Pos(entries, LastId(page)) == ps[|ps| - 1]
  {
    var ps, page := PagePositions(entries, from, limit), VisibleFrom(entries, from, limit);
    PageAt(entries, from, limit);
    if page != [] {
      assert page[|page| - 1] == entries[ps[|ps| - 1]];
      PosIs(entries, ps[|ps| - 1]);
    }
  }

  lemma PositionInside(entries: seq<Entry>, from: nat, limit: nat, i: nat)
    requires i in PagePositions(entries, from, limit)
    ensures var ps := PagePositions(entries, from, limit); from <= i <= ps[|ps| - 1]
  {
    var ps := PagePositions(entries, from, limit);
    PageAscends(entries, from, limit);
    AscendsMeans(ps, from);
    var k :| 0 <= k < |ps| && ps[k] == i;
    assert k == |ps| - 1 || ps[k] < ps[|ps| - 1];
  }

  /** A listed id is on the page, or passed by the anchor, or left for the next page. */
  lemma PageDecides(entries: seq<Entry>, from: nat, limit: nat, x: Id)
    requires DistinctIds(entries) && Has(entries, x)
    ensures var page := VisibleFrom(entries, from, limit);
      && (x in IdsOf(page) ==> from <= Pos(entries, x) <= Pos(entries, LastId(page)))
      && (limit >= 1 && EntryVisible(entries[Pos(entries, x)]) && from <= Pos(entries, x) && x !in IdsOf(page) ==>
            page != [] && Pos(entries, LastId(page)) < Pos(entries, x))
  {
    var i := Pos(entries, x);
    PageHasPosition(entries, from, limit, i);
    PageLast(entries, from, limit);
    PageAt(entries, from, limit);
    if i in PagePositions(entries, from, limit) {
      PositionInside(entries, from, limit, i);
    } else if from <= i {
      PageHolds(entries, from, limit, i);
    }
  }

  lemma AbsentNotOnPage(entries: seq<Entry>, from: nat, limit: nat, x: Id)
    requires !Has(entries, x)
    ensures x !in IdsOf(VisibleFrom(entries, from, limit))
  {
    var page := VisibleFrom(entries, from, limit);
    PageAt(entries, from, limit);
    IdOf(page, x);
    forall k | 0 <= k < |page| ensures page[k].id != x {
      AbsentHasNone(entries, x, PagePositions(entries, from, limit)[k]);
    }
  }

  // ----- walks -----

  /** A client pages by the last id it got and stops at the first empty page; `lists` are what the calls see. */
  function Walk(lists: seq<seq<Entry>>, until: Option<Id>, limit: nat): seq<Entry>
    decreases |lists|
  {
    if lists == [] then []
    else
      var page := Page(lists[0], until, limit);
      if page == [] then [] else page + Walk(lists[1..], Some(LastId(page)), limit)
  }

  /** The list seen by the call that came back empty, if the walk got that far. */
  function FinalList(lists: seq<seq<Entry>>, until: Option<Id>, limit: nat): Option<seq<Entry>>
    decreases |lists|
  {
    if lists == [] then None
    else
      var page := Page(lists[0], until, limit);
      if page == [] then Some(lists[0]) else FinalList(lists[1..], Some(LastId(page)), limit)
  }

  /** Every entry of the earlier list is still in the later one, in the same relative order. */
  ghost predicate KeepsOrder(earlier: seq<Entry>, later: seq<Entry>) {
    && (forall i :: 0 <= i < |earlier| ==> Has(later, earlier[i].id))
    && (forall i, j :: 0 <= i < j < |earlier| ==> Pos(later, earlier[i].id) < Pos(later, earlier[j].id))
  }

  /** Later calls keep the order of what was there; new entries may appear anywhere. */
  ghost predicate Orderly(lists: seq<seq<Entry>>)
    decreases |lists|
  {
    lists == [] ||
    (DistinctIds(lists[0]) && (|lists| > 1 ==> KeepsOrder(lists[0], lists[1])) && Orderly(lists[1..]))
  }

  /** The next call resolves the anchor. */
  predicate Resolves(lists: seq<seq<Entry>>, until: Option<Id>) {
    lists != [] ==> StartAfter(lists[0], until).Some?
  }

  /** The entry is visible in every call that sees it. */
  predicate StaysVisible(lists: seq<seq<Entry>>, x: Id)
    decreases |lists|
  {
    lists == [] ||
    ((Has(lists[0], x) ==> EntryVisible(lists[0][Pos(lists[0], x)])) && StaysVisible(lists[1..], x))
  }

  /** When a call first sees the entry, it stands before the anchor of that call. */
  predicate AppearsBeforeAnchor(lists: seq<seq<Entry>>, until: Option<Id>, limit: nat, x: Id)
    decreases |lists|
  {
    lists != [] &&
    if Has(lists[0], x) then
      StartAfter(lists[0], until).Some? && Pos(lists[0], x) < StartAfter(lists[0], until).value
    else
      var page := Page(lists[0], until, limit);
      page != [] && AppearsBeforeAnchor(lists[1..], Some(LastId(page)), limit, x)
  }

  lemma OrderKept(earlier: seq<Entry>, later: seq<Entry>, x: Id, y: Id)
    requires KeepsOrder(earlier, later) && Has(earlier, x) && Has(earlier, y)
    ensures Has(later, x) && (Pos(earlier, x) < Pos(earlier, y) ==> Pos(later, x) < Pos(later, y))
  {
    assert earlier[Pos(earlier, x)].id == x && earlier[Pos(earlier, y)].id == y;
  }

  /** The last entry of a page anchors the next call, which starts right behind it. */
  lemma NextCall(lists: seq<seq<Entry>>, until: Option<Id>, limit: nat)
    requires Orderly(lists) && lists != [] && Resolves(lists, until) && Page(lists[0], until, limit) != []
    ensures var u := LastId(Page(lists[0], until, limit));
      && u != "" && Has(lists[0], u) && StartAfter(lists[0], until).value <= Pos(lists[0], u)
      && Orderly(lists[1..]) && Resolves(lists[1..], Some(u))
      && (|lists| > 1 ==> Has(lists[1], u) && StartAfter(lists[1], Some(u)) == Some(Pos(lists[1], u) + 1))
  {
    var from := StartAfter(lists[0], until).value;
    PageLast(lists[0], from, limit);
    var u := LastId(Page(lists[0], until, limit));
    if |lists| > 1 {
      OrderKept(lists[0], lists[1], u, u);
      StartIsBehindAnchor(lists[1], u);
    }
  }

  /** What stays visible behind the anchor is returned before the empty page. */
  lemma {:induction false} BehindAnchorIsReturned(lists: seq<seq<Entry>>, until: Option<Id>, limit: nat, x: Id)
    requires limit >= 1 && lists != [] && Orderly(lists) && Resolves(lists, until) && StaysVisible(lists, x)
    requires Has(lists[0], x) && StartAfter(lists[0], until).value <= Pos(lists[0], x)
    requires FinalList(lists, until, limit).Some?
    ensures x in IdsOf(Walk(lists, until, limit))
    decreases |lists|
  {
    var page := Page(lists[0], until, limit);
    PageDecides(lists[0], StartAfter(lists[0], until).value, limit, x);
    var u := LastId(page);
    IdsOfAppend(page, Walk(lists[1..], Some(u), limit));
    if x !in IdsOf(page) {
      NextCall(lists, until, limit);
      OrderKept(lists[0], lists[1], u, x);
      OrderKept(lists[0], lists[1], x, x);
      BehindAnchorIsReturned(lists[1..], Some(u), limit, x);
    }
  }

  /** What the anchor has passed is never returned. */
  lemma {:induction false} PassedIsNotReturned(lists: seq<seq<Entry>>, until: Option<Id>, limit: nat, x: Id)
    requires lists != [] && Orderly(lists) && Resolves(lists, until)
    requires Has(lists[0], x) && Pos(lists[0], x) < StartAfter(lists[0], until).value
    ensures x !in IdsOf(Walk(lists, until, limit))
    decreases |lists|
  {
    var page := Page(lists[0], until, limit);
    PageDecides(lists[0], StartAfter(lists[0], until).value, limit, x);
    if page != [] {
      var u := LastId(page);
      NextCall(lists, until, limit);
      IdsOfAppend(page, Walk(lists[1..], Some(u), limit));
      if |lists| > 1 {
        OrderKept(lists[0], lists[1], x, u);
        PassedIsNotReturned(lists[1..], Some(u), limit, x);
      }
    }
  }

  /** An entry that first appears before the anchor is never returned, visible or not, however long the walk. */
  lemma {:induction false} EntrySortedBeforeAnchorIsMissed(lists: seq<seq<Entry>>, until: Option<Id>, limit: nat,
                                                           x: Id)
    requires Orderly(lists) && Resolves(lists, until) && AppearsBeforeAnchor(lists, until, limit, x)
    ensures x !in IdsOf(Walk(lists, until, limit))
    decreases |lists|
  {
    if Has(lists[0], x) {
      PassedIsNotReturned(lists, until, limit, x);
    } else {
      var page := Page(lists[0], until, limit);
      NextCall(lists, until, limit);
      AbsentNotOnPage(lists[0], StartAfter(lists[0], until).value, limit, x);
      IdsOfAppend(page, Walk(lists[1..], Some(LastId(page)), limit));
      EntrySortedBeforeAnchorIsMissed(lists[1..], Some(LastId(page)), limit, x);
    }
  }

  /** Walking to the first empty page while new entries appear anywhere: an entry that stays visible is returned if
      and only if it does not first appear before the anchor of the call that first sees it. */
  lemma {:induction false} ReturnedExactly(lists: seq<seq<Entry>>, until: Option<Id>, limit: nat, x: Id)
    requires limit >= 1 && Orderly(lists) && Resolves(lists, until) && StaysVisible(lists, x)
    requires var final := FinalList(lists, until, limit); final.Some? && Has(final.value, x)
    ensures x in IdsOf(Walk(lists, until, limit)) <==> !AppearsBeforeAnchor(lists, until, limit, x)
    decreases |lists|
  {
    if AppearsBeforeAnchor(lists, until, limit, x) {
      EntrySortedBeforeAnchorIsMissed(lists, until, limit, x);
    } else if Has(lists[0], x) {
      BehindAnchorIsReturned(lists, until, limit, x);
    } else {
      var page := Page(lists[0], until, limit);
      NextCall(lists, until, limit);
      IdsOfAppend(page, Walk(lists[1..], Some(LastId(page)), limit));
      ReturnedExactly(lists[1..], Some(LastId(page)), limit, x);
    }
  }

  function Shown(id: Id): Entry { Entry(id, None, None) }

  const BEFORE := [Shown("b")]
  const AFTER := [Shown("a"), Shown("b")]

  /** Such a walk: children are listed by creation time and then by random id, so a visible new one can sort before
      the anchor. */
  lemma VisibleEntryCanBeMissed()
    ensures var lists := [BEFORE, AFTER];
      && Orderly(lists) && StaysVisible(lists, "a") && AppearsBeforeAnchor(lists, None, 1, "a")
      && FinalList(lists, None, 1) == Some(AFTER) && Has(AFTER, "a") && "a" !in IdsOf(Walk(lists, None, 1))
  {
    var lists := [BEFORE, AFTER];
    assert lists[1..] == [AFTER] && [AFTER][1..] == [] && AFTER[1..] == BEFORE && BEFORE[1..] == [];
    assert Pos(BEFORE, "a") == 1 && Pos(AFTER, "a") == 0 && Pos(BEFORE, "b") == 0 && Pos(AFTER, "b") == 1;
    assert DistinctIds(BEFORE) && DistinctIds(AFTER) && KeepsOrder(BEFORE, AFTER);
    assert Orderly([AFTER]);
    assert VisibleFrom(BEFORE, 0, 1) == [Shown("b")] && Page(BEFORE, None, 1) == [Shown("b")];
    StartIsBehindAnchor(AFTER, "b");
    assert Page(AFTER, Some("b"), 1) == [];
    assert FinalList([AFTER], Some("b"), 1) == Some(AFTER);
    assert AppearsBeforeAnchor([AFTER], Some("b"), 1, "a");
    assert StaysVisible([AFTER], "a");
    EntrySortedBeforeAnchorIsMissed(lists, None, 1, "a");
  }

  // ----- the order of what is returned -----

  /** These ids stand in the list one behind the other, from `from` on. */
  predicate InOrder(entries: seq<Entry>, ids: seq<Id>, from: nat)
    decreases |ids|
  {
    ids == [] ||
    (Has(entries, ids[0]) && from <= Pos(entries, ids[0]) && InOrder(entries, ids[1..], Pos(entries, ids[0]) + 1))
  }

  lemma {:induction false} InOrderMeans(entries: seq<Entry>, ids: seq<Id>, from: nat)
    requires InOrder(entries, ids, from)
    ensures forall k :: 0 <= k < |ids| ==> Has(entries, ids[k]) && from <= Pos(entries, ids[k])
    ensures forall j, k :: 0 <= j < k < |ids| ==> Pos(entries, ids[j]) < Pos(entries, ids[k])
    decreases |ids|
  {
    if ids != [] { InOrderMeans(entries, ids[1..], Pos(entries, ids[0]) + 1); }
  }

  lemma {:induction false} InOrderAppend(entries: seq<Entry>, a: seq<Id>, b: seq<Id>, from: nat)
    requires a != [] && InOrder(entries, a, from)
    requires InOrder(entries, b, Pos(entries, a[|a| - 1]) + 1)
    ensures InOrder(entries, a + b, from)
    decreases |a|
  {
    assert (a + b)[1..] == a[1..] + b;
    if |a| > 1 { InOrderAppend(entries, a[1..], b, Pos(entries, a[0]) + 1); } else { assert a[1..] + b == b; }
  }

  lemma {:induction false} PageInOrder(earlier: seq<Entry>, later: seq<Entry>, from: nat, limit: nat, p: nat)
    requires KeepsOrder(earlier, later)
    requires forall i :: from <= i < |earlier| ==> p <= Pos(later, earlier[i].id)
    ensures InOrder(later, IdsOf(VisibleFrom(earlier, from, limit)), p)
    decreases |earlier| - from
  {
    if from < |earlier| && limit > 0 {
      if EntryVisible(earlier[from]) {
        PageInOrder(earlier, later, from + 1, limit - 1, Pos(later, earlier[from].id) + 1);
        var rest := VisibleFrom(earlier, from + 1, limit - 1);
        assert ([earlier[from]] + rest)[1..] == rest;
        assert ([earlier[from].id] + IdsOf(rest))[1..] == IdsOf(rest);
      } else {
        PageInOrder(earlier, later, from + 1, limit, p);
      }
    }
  }

  lemma {:induction false} LastOfIds(page: seq<Entry>)
    requires page != []
    ensures IdsOf(page) != [] && IdsOf(page)[|IdsOf(page)| - 1] == LastId(page)
    decreases |page|
  {
    if |page| > 1 { LastOfIds(page[1..]); }
  }

  lemma KeepsOrderTransitive(a: seq<Entry>, b: seq<Entry>, c: seq<Entry>)
    requires KeepsOrder(a, b) && KeepsOrder(b, c)
    ensures KeepsOrder(a, c)
  {
    forall i | 0 <= i < |a| ensures Has(c, a[i].id) {
      OrderKept(b, c, a[i].id, a[i].id);
    }
    forall i, j | 0 <= i < j < |a| ensures Pos(c, a[i].id) < Pos(c, a[j].id) {
      OrderKept(b, c, a[i].id, a[j].id);
    }
  }

  lemma {:induction false} SelfKeepsOrder(entries: seq<Entry>)
    requires DistinctIds(entries)
    ensures KeepsOrder(entries, entries)
  {
    forall i | 0 <= i < |entries| ensures Pos(entries, entries[i].id) == i {
      PosIs(entries, i);
    }
  }

  lemma {:induction false} FirstKeptInLast(lists: seq<seq<Entry>>)
    requires Orderly(lists) && lists != []
    ensures KeepsOrder(lists[0], lists[|lists| - 1])
    decreases |lists|
  {
    if |lists| == 1 {
      SelfKeepsOrder(lists[0]);
    } else {
      FirstKeptInLast(lists[1..]);
      KeepsOrderTransitive(lists[0], lists[1], lists[|lists| - 1]);
    }
  }

  /** The place, in the last list, behind the anchor. */
  function Behind(last: seq<Entry>, until: Option<Id>): nat {
    if until.None? || until.value == "" then 0 else Pos(last, until.value) + 1
  }

  lemma PageBehindAnchor(list: seq<Entry>, last: seq<Entry>, until: Option<Id>, limit: nat)
    requires DistinctIds(list) && KeepsOrder(list, last) && StartAfter(list, until).Some?
    ensures InOrder(last, IdsOf(Page(list, until, limit)), Behind(last, until))
  {
    var from := StartAfter(list, until).value;
    if until.Some? && until.value != "" {
      StartIsBehindAnchor(list, until.value);
      forall i | from <= i < |list| ensures Behind(last, until) <= Pos(last, list[i].id) {
        assert list[from - 1].id == until.value;
        assert Pos(last, list[from - 1].id) < Pos(last, list[i].id);
      }
    }
    PageInOrder(list, last, from, limit, Behind(last, until));
  }

  lemma PagesInOrder(last: seq<Entry>, page: seq<Entry>, rest: seq<Entry>, from: nat)
    requires page != [] && InOrder(last, IdsOf(page), from)
    requires InOrder(last, IdsOf(rest), Pos(last, LastId(page)) + 1)
    ensures InOrder(last, IdsOf(page + rest), from)
  {
    LastOfIds(page);
    IdsOfAppend(page, rest);
    InOrderAppend(last, IdsOf(page), IdsOf(rest), from);
  }

  /** A walk returns entries in the list's order, none twice. */
  lemma {:induction false} WalkInOrder(lists: seq<seq<Entry>>, until: Option<Id>, limit: nat)
    requires Orderly(lists) && Resolves(lists, until) && lists != []
    ensures InOrder(lists[|lists| - 1], IdsOf(Walk(lists, until, limit)), Behind(lists[|lists| - 1], until))
    decreases |lists|
  {
    var last := lists[|lists| - 1];
    var page := Page(lists[0], until, limit);
    FirstKeptInLast(lists);
    PageBehindAnchor(lists[0], last, until, limit);
    if page != [] {
      var u := LastId(page);
      NextCall(lists, until, limit);
      if |lists| > 1 {
        WalkInOrder(lists[1..], Some(u), limit);
        PagesInOrder(last, page, Walk(lists[1..], Some(u), limit), Behind(last, until));
      } else {
        assert page + [] == page;
      }
    }
  }

  // ----- how long a walk is -----

  lemma {:induction false} NeverCloser(earlier: seq<Entry>, later: seq<Entry>, i: nat)
    requires KeepsOrder(earlier, later) && i < |earlier|
    ensures i <= Pos(later, earlier[i].id)
    decreases i
  {
    if i > 0 {
      NeverCloser(earlier, later, i - 1);
      assert Pos(later, earlier[i - 1].id) < Pos(later, earlier[i].id);
    }
  }

  /** Over lists of at most `bound` entries, however they grow and visibility changes, the walk meets its empty page
      within `bound` + 1 calls. */
  lemma {:induction false} WalkEnds(lists: seq<seq<Entry>>, until: Option<Id>, limit: nat, bound: nat)
    requires Orderly(lists) && Resolves(lists, until)
    requires forall k :: 0 <= k < |lists| ==> |lists[k]| <= bound
    requires lists != [] && |lists| + StartAfter(lists[0], until).value > bound
    ensures FinalList(lists, until, limit).Some?
    decreases |lists|
  {
    var page := Page(lists[0], until, limit);
    if page != [] {
      NextCall(lists, until, limit);
      var u := LastId(page);
      if |lists| > 1 {
        NeverCloser(lists[0], lists[1], Pos(lists[0], u));
        WalkEnds(lists[1..], Some(u), limit, bound);
      }
    }
  }

  // ----- lists that grow at their end -----

  predicate EndGrowing(lists: seq<seq<Entry>>)
    decreases |lists|
  {
    lists == [] ||
    (DistinctIds(lists[0]) && (|lists| > 1 ==> Extends(lists[0], lists[1])) && EndGrowing(lists[1..]))
  }

  predicate Extends(earlier: seq<Entry>, later: seq<Entry>) {
    |earlier| <= |later| && forall i :: 0 <= i < |earlier| ==> later[i].id == earlier[i].id
  }

  lemma ExtendedKeepsOrder(earlier: seq<Entry>, later: seq<Entry>)
    requires DistinctIds(later) && Extends(earlier, later)
    ensures KeepsOrder(earlier, later) && forall i :: 0 <= i < |earlier| ==> Pos(later, earlier[i].id) == i
  {
    forall i | 0 <= i < |earlier| ensures Pos(later, earlier[i].id) == i {
      PosIs(later, i);
    }
  }

  lemma {:induction false} EndGrowingIsOrderly(lists: seq<seq<Entry>>)
    requires EndGrowing(lists)
    ensures Orderly(lists)
    decreases |lists|
  {
    if lists != [] {
      EndGrowingIsOrderly(lists[1..]);
      if |lists| > 1 { ExtendedKeepsOrder(lists[0], lists[1]); }
    }
  }

  lemma {:induction false} AppendedIsNotBeforeAnchor(lists: seq<seq<Entry>>, until: Option<Id>, limit: nat, x: Id)
    requires EndGrowing(lists) && Resolves(lists, until)
    requires lists != [] && Has(lists[0], x) ==> StartAfter(lists[0], until).value <= Pos(lists[0], x)
    ensures !AppearsBeforeAnchor(lists, until, limit, x)
    decreases |lists|
  {
    if lists != [] && !Has(lists[0], x) && Page(lists[0], until, limit) != [] {
      EndGrowingIsOrderly(lists);
      NextCall(lists, until, limit);
      var u := LastId(Page(lists[0], until, limit));
      if |lists| > 1 {
        ExtendedKeepsOrder(lists[0], lists[1]);
        assert lists[0][Pos(lists[0], u)].id == u;
        if Has(lists[1], x) && Pos(lists[1], x) < |lists[0]| {
          AbsentHasNone(lists[0], x, Pos(lists[1], x));
        }
      }
      AppendedIsNotBeforeAnchor(lists[1..], Some(u), limit, x);
    }
  }

  /** Paging to the first empty page over a list that only grows at its end: the entries come in the list's order,
      none twice, and every entry that stays visible throughout comes, also one appended during the walk. */
  lemma PagingReturnsEachOnce(lists: seq<seq<Entry>>, limit: nat)
    requires limit >= 1 && EndGrowing(lists) && FinalList(lists, None, limit).Some?
    ensures var ids, last := IdsOf(Walk(lists, None, limit)), lists[|lists| - 1];
      && (forall k :: 0 <= k < |ids| ==> Has(last, ids[k]))
      && (forall j, k :: 0 <= j < k < |ids| ==> Pos(last, ids[j]) < Pos(last, ids[k]))
    ensures forall x :: Has(FinalList(lists, None, limit).value, x) && StaysVisible(lists, x) ==>
              x in IdsOf(Walk(lists, None, limit))
  {
    EndGrowingIsOrderly(lists);
    WalkInOrder(lists, None, limit);
    InOrderMeans(lists[|lists| - 1], IdsOf(Walk(lists, None, limit)), 0);
    forall x | Has(FinalList(lists, None, limit).value, x) && StaysVisible(lists, x)
      ensures x in IdsOf(Walk(lists, None, limit))
    {
      AppendedIsNotBeforeAnchor(lists, None, limit, x);
      ReturnedExactly(lists, None, limit, x);
    }
  }
}
