/** Incremental mail ingestion: the cursor arithmetic of one fetch, the poll handler that promotes a batch, and
    runs in which polls interleave with each other and with a mailbox that changes under them. */
module MailIngest {
  import opened Wrappers
  import opened Text

  // ----- the mailbox and the cursor -----

  /** `messages` maps each UID to its Message-ID header (possibly blank). */
  datatype Mailbox = Mailbox(validity: nat, messages: map<nat, string>, nextUid: nat)
  datatype Cursor = Cursor(validity: nat, lastUid: nat)

  const MAX_PER_FETCH := 200

  /** An absent cursor reads as the zero cursor; one recorded under another UIDVALIDITY starts over. */
  function ResolveCursor(stored: Option<Cursor>, validity: nat): Cursor {
    if stored.None? then Cursor(0, 0)
    else if stored.value.validity != 0 && stored.value.validity != validity then Cursor(0, 0)
    else stored.value
  }

  /** A fetch goes on behind the recorded UID unless there is none or it was recorded under another UIDVALIDITY; one
      recorded without any is still trusted. */
  lemma CursorGoesOn(stored: Option<Cursor>, validity: nat)
    ensures stored.Some? && (stored.value.validity == validity || stored.value.validity == 0) ==>
              ResolveCursor(stored, validity).lastUid == stored.value.lastUid
    ensures stored.None? || (stored.value.validity != validity && stored.value.validity > 0) ==>
              ResolveCursor(stored, validity).lastUid == 0
  {
  }

  /** The text that is hashed into the dedupe key; hashing is taken as injective. */
  function DedupeKey(source: string, validity: nat, uid: nat, messageId: string): string {
    source + "|" + (if Trim(messageId) != "" then Trim(messageId) else Decimal(validity) + ":" + Decimal(uid))
  }

  /** What the server may answer to "UID FETCH from:*": every message from `from` on, and, because `*` names the
      last message, possibly that one even when its UID is lower (RFC 3501, section 6.4.8). */
  ghost predicate IsResponse(box: Mailbox, from: nat, resp: seq<nat>) {
    && (forall u :: u in box.messages && u >= from ==> u in resp)
    && (forall u :: u in resp ==> u in box.messages && (u >= from || forall v :: v in box.messages ==> v <= u))
  }

  // ----- one fetch -----

  function Insert(x: nat, s: seq<nat>): (r: seq<nat>)
    ensures multiset(r) == multiset(s) + multiset{x}
  {
    if s == [] || x <= s[0] then [x] + s
    else
      assert s == [s[0]] + s[1..];
      [s[0]] + Insert(x, s[1..])
  }

  function SortUids(s: seq<nat>): (r: seq<nat>)
    ensures multiset(r) == multiset(s)
  {
    if s == [] then []
    else
      assert s == [s[0]] + s[1..];
      Insert(s[0], SortUids(s[1..]))
  }

  predicate Ascending(s: seq<nat>) {
    forall i, j :: 0 <= i < j < |s| ==> s[i] <= s[j]
  }

  lemma {:induction false} InsertAscending(x: nat, s: seq<nat>)
    requires Ascending(s)
    ensures Ascending(Insert(x, s))
  {
    if s != [] && x > s[0] {
      InsertAscending(x, s[1..]);
      var t := Insert(x, s[1..]);
      forall i | 0 <= i < |t| ensures s[0] <= t[i] {
        assert t[i] in multiset(t);
      }
    }
  }

  lemma {:induction false} SortAscending(s: seq<nat>)
    ensures Ascending(SortUids(s)) && |SortUids(s)| == |s| && forall u :: u in SortUids(s) <==> u in s
  {
    if s != [] {
      SortAscending(s[1..]);
      InsertAscending(s[0], SortUids(s[1..]));
    }
    assert |multiset(SortUids(s))| == |multiset(s)|;
    forall u ensures u in SortUids(s) <==> u in s {
      assert u in multiset(SortUids(s)) <==> u in multiset(s);
    }
  }

  /** The UIDs one fetch processes: the oldest of the response. */
  function Kept(resp: seq<nat>): seq<nat> {
    var sorted := SortUids(resp);
    if |sorted| > MAX_PER_FETCH then sorted[..MAX_PER_FETCH] else sorted
  }

  lemma KeptInBox(box: Mailbox, from: nat, resp: seq<nat>)
    requires IsResponse(box, from, resp)
    ensures forall u :: u in Kept(resp) ==> u in box.messages
  {
    SortAscending(resp);
  }

  function Keys(source: string, box: Mailbox, uids: seq<nat>): (keys: seq<string>)
    requires forall u :: u in uids ==> u in box.messages
    ensures |keys| == |uids|
    ensures forall i :: 0 <= i < |uids| ==> keys[i] == DedupeKey(source, box.validity, uids[i], box.messages[uids[i]])
  {
    seq(|uids|, i requires 0 <= i < |uids| => DedupeKey(source, box.validity, uids[i], box.messages[uids[i]]))
  }

  function NextCursor(box: Mailbox, cur: Cursor, uids: seq<nat>): Cursor {
    Cursor(box.validity, if uids == [] then cur.lastUid else uids[|uids| - 1])
  }

  /** The batch loop; `broken` is the position of a message that cannot be built: then the whole batch fails. */
  method BuildItems(source: string, box: Mailbox, cur: Cursor, uids: seq<nat>, broken: Option<nat>)
    returns (r: Result<(seq<string>, Cursor), ()>)
    requires forall u :: u in uids ==> u in box.messages
    ensures r == if broken.Some? && broken.value < |uids| then Err(())
                 else Ok((Keys(source, box, uids), NextCursor(box, cur, uids)))
  {
    var items, lastUid := [], cur.lastUid;
    var i := 0;
    while i < |uids|
      invariant 0 <= i <= |uids| && |items| == i
      invariant forall k :: 0 <= k < i ==> items[k] == DedupeKey(source, box.validity, uids[k], box.messages[uids[k]])
      invariant lastUid == if i == 0 then cur.lastUid else uids[i - 1]
      invariant broken.Some? ==> broken.value >= i || broken.value >= |uids|
    {
      if broken == Some(i) { return Err(()); }
      items := items + [DedupeKey(source, box.validity, uids[i], box.messages[uids[i]])];
      lastUid := uids[i];
      i := i + 1;
    }
    assert items == Keys(source, box, uids);
    r := Ok((items, Cursor(box.validity, lastUid)));
  }

  /** One fetch: the response sorted by UID, cut to the oldest messages, and built all or nothing. */
  method FetchMailbox(source: string, box: Mailbox, stored: Option<Cursor>, resp: seq<nat>, broken: Option<nat>)
    returns (r: Result<(seq<string>, Cursor), ()>)
    requires IsResponse(box, ResolveCursor(stored, box.validity).lastUid + 1, resp)
    ensures forall u :: u in Kept(resp) ==> u in box.messages
    ensures r == if broken.Some? && broken.value < |Kept(resp)| then Err(())
                 else Ok((Keys(source, box, Kept(resp)),
                          NextCursor(box, ResolveCursor(stored, box.validity), Kept(resp))))
  {
    var cur := ResolveCursor(stored, box.validity);
    KeptInBox(box, cur.lastUid + 1, resp);
    var summaries := SortUids(resp);
    if |summaries| > MAX_PER_FETCH { summaries := summaries[..MAX_PER_FETCH]; }
    r := BuildItems(source, box, cur, summaries, broken);
  }

  // ----- promotion -----

  /** Creating the entry of an item: nothing happens when its dedupe key is already promoted. */
  function Promote(entries: seq<string>, key: string): seq<string> {
    if key in entries then entries else entries + [key]
  }

  function PromoteAll(entries: seq<string>, keys: seq<string>): seq<string>
    decreases |keys|
  {
    if keys == [] then entries else PromoteAll(Promote(entries, keys[0]), keys[1..])
  }

  /** The first item the batch cannot get past: storage fails at it, or its row is recorded without an entry. */
  function StopsAt(keys: seq<string>, failAt: Option<nat>, unpromoted: set<string>, i: nat): (n: nat)
    requires i <= |keys|
    ensures i <= n <= |keys|
    decreases |keys| - i
  {
    if i == |keys| || failAt == Some(i) || keys[i] in unpromoted then i else StopsAt(keys, failAt, unpromoted, i + 1)
  }

  /** The source's row, the entries made from its items, and the items recorded without an entry. */
  class Source {
    var cursor: Option<Cursor>
    var failures: nat
    var entries: seq<string>
    var unpromoted: set<string>

    predicate Valid()
      reads this
    {
      forall k :: k in unpromoted ==> k !in entries
    }

    constructor ()
      ensures Valid() && cursor == None && failures == 0 && entries == [] && unpromoted == {}
    {
      cursor, failures, entries, unpromoted := None, 0, [], {};
    }

    /** Item and entry are written in one transaction, so no outcome leaves an item without its entry; one that has
        none is an error, and a known one is not created again. */
    method CreateExternalEntry(key: string, fault: bool) returns (r: Result<bool, ()>)
      requires Valid()
      modifies this`entries, this`unpromoted
      ensures Valid() && unpromoted == old(unpromoted)
      ensures r == if fault || key in unpromoted then Err(()) else Ok(key !in old(entries))
      ensures entries == if r.Ok? then Promote(old(entries), key) else old(entries)
      ensures r == Ok(true) ==> entries == old(entries) + [key]
      ensures r == Ok(false) ==> entries == old(entries) && key in entries
    {
      if key in entries || key in unpromoted {
        return if fault || key in unpromoted then Err(()) else Ok(false);
      }
      var savedEntries, savedItems := entries, unpromoted;
      unpromoted := unpromoted + {key};
      entries := entries + [key];
      unpromoted := unpromoted - {key};
      if fault {
        entries, unpromoted := savedEntries, savedItems;
        return Err(());
      }
      r := Ok(true);
    }

    /** The poll handler on a fetched batch. The cursor moves only when every item went through, and items before
        a failure stay promoted. */
    method HandleBatch(keys: seq<string>, next: Cursor, failAt: Option<nat>) returns (ok: bool, created: nat)
      requires Valid()
      modifies this
      ensures Valid() && unpromoted == old(unpromoted)
      ensures var n := StopsAt(keys, failAt, unpromoted, 0);
              ok == (n == |keys|) && entries == PromoteAll(old(entries), keys[..n])
      ensures ok <==> forall i :: 0 <= i < |keys| ==> failAt != Some(i) && keys[i] !in unpromoted
      ensures old(entries) <= entries && forall k :: k in entries ==> k in old(entries) || k in keys
      ensures ok ==> forall k :: k in keys ==> k in entries
      ensures cursor == (if ok then Some(next) else old(cursor))
      ensures failures == (if ok then 0 else old(failures) + 1)
      ensures created == |entries| - |old(entries)|
    {
      created := 0;
      for i := 0 to |keys|
        invariant Valid() && unpromoted == old(unpromoted)
        invariant entries == PromoteAll(old(entries), keys[..i])
        invariant created == |entries| - |old(entries)|
        invariant cursor == old(cursor) && failures == old(failures)
        invariant StopsAt(keys, failAt, unpromoted, i) == StopsAt(keys, failAt, unpromoted, 0)
        invariant forall k :: 0 <= k < i ==> failAt != Some(k) && keys[k] !in unpromoted && keys[k] in entries
        invariant old(entries) <= entries && forall k :: k in entries ==> k in old(entries) || k in keys
      {
        var r := CreateExternalEntry(keys[i], failAt == Some(i));
        if r.Err? {
          failures := failures + 1;
          return false, created;
        }
        PromoteAllSnoc(old(entries), keys, i);
        if r.value { created := created + 1; }
      }
      assert keys[..|keys|] == keys;
      cursor, failures := Some(next), 0;
      ok := true;
    }
  }

  lemma {:induction false} PromoteAllSnoc(entries: seq<string>, keys: seq<string>, i: nat)
    requires i < |keys|
    ensures PromoteAll(entries, keys[..i + 1]) == Promote(PromoteAll(entries, keys[..i]), keys[i])
    decreases i
  {
    if i > 0 {
      PromoteAllSnoc(Promote(entries, keys[0]), keys[1..], i - 1);
      assert keys[..i + 1][1..] == keys[1..][..i] && keys[..i][1..] == keys[1..][..i - 1];
    } else {
      assert keys[..1] == [keys[0]] && keys[..0] == [];
    }
  }

  // ----- runs -----

  /** A poll in progress. Several may exist: a poll whose lease was lost keeps running. */
  datatype Poll =
    | HasCursor(cur: Option<Cursor>)
    | HasBatch(items: seq<string>, done: nat, next: Cursor)

  datatype World = World(source: string, box: Mailbox, stored: Option<Cursor>, entries: seq<string>, polls: map<nat, Poll>)

  datatype Event =
    | Deliver(messageId: string)
    | Expunge(uids: set<nat>)
    | Renumber(validity: nat, messages: map<nat, string>, nextUid: nat)
    | StartPoll(poll: nat)
    | Fetch(poll: nat, resp: seq<nat>)
    | PromoteNext(poll: nat)
    | Record(poll: nat)
    | Stop(poll: nat)       // a failed fetch, a failed item, a failed cursor write, or a crash

  ghost predicate Enabled(w: World, e: Event) {
    match e
    case Renumber(validity, messages, nextUid) =>
      validity > w.box.validity && nextUid >= 1 && forall u :: u in messages ==> 1 <= u < nextUid
    case StartPoll(p) => p !in w.polls
    case Fetch(p, resp) =>
      && p in w.polls && w.polls[p].HasCursor?
      && IsResponse(w.box, ResolveCursor(w.polls[p].cur, w.box.validity).lastUid + 1, resp)
    case PromoteNext(p) => p in w.polls && w.polls[p].HasBatch? && w.polls[p].done < |w.polls[p].items|
    case Record(p) => p in w.polls && w.polls[p].HasBatch? && w.polls[p].done == |w.polls[p].items|
    case _ => true
  }

  ghost function FetchedBatch(w: World, stored: Option<Cursor>, resp: seq<nat>): Poll
    requires IsResponse(w.box, ResolveCursor(stored, w.box.validity).lastUid + 1, resp)
  {
    var cur := ResolveCursor(stored, w.box.validity);
    KeptInBox(w.box, cur.lastUid + 1, resp);
    HasBatch(Keys(w.source, w.box, Kept(resp)), 0, NextCursor(w.box, cur, Kept(resp)))
  }

  ghost function Step(w: World, e: Event): World {
    if !Enabled(w, e) then w else
    match e
    case Deliver(mid) =>
      w.(box := w.box.(messages := w.box.messages[w.box.nextUid := mid], nextUid := w.box.nextUid + 1))
    case Expunge(uids) => w.(box := w.box.(messages := w.box.messages - uids))
    case Renumber(validity, messages, nextUid) => w.(box := Mailbox(validity, messages, nextUid))
    case StartPoll(p) => w.(polls := w.polls[p := HasCursor(w.stored)])
    case Fetch(p, resp) => w.(polls := w.polls[p := FetchedBatch(w, w.polls[p].cur, resp)])
    case PromoteNext(p) =>
      var b := w.polls[p];
      w.(entries := Promote(w.entries, b.items[b.done]), polls := w.polls[p := b.(done := b.done + 1)])
    case Record(p) => w.(stored := Some(w.polls[p].next), polls := w.polls - {p})
    case Stop(p) => w.(polls := w.polls - {p})
  }

  ghost function Run(w: World, es: seq<Event>): World
    decreases |es|
  {
    if es == [] then w else Run(Step(w, es[0]), es[1..])
  }

  /** A new source over any mailbox with a nonzero UIDVALIDITY (RFC 3501 makes it a nonzero number). */
  ghost predicate Initial(w: World) {
    && w.stored == None && w.entries == [] && w.polls == map[]
    && w.box.validity >= 1 && w.box.nextUid >= 1
    && forall u :: u in w.box.messages ==> 1 <= u < w.box.nextUid
  }

  ghost function KeyOf(w: World, u: nat): string
    requires u in w.box.messages
  {
    DedupeKey(w.source, w.box.validity, u, w.box.messages[u])
  }

  /** If `c` is of the current UIDVALIDITY, every message at or below it has its key among `keys`. */
  ghost predicate Covers(w: World, c: Cursor, keys: seq<string>) {
    && 1 <= c.validity <= w.box.validity
    && (c.validity == w.box.validity ==>
          c.lastUid < w.box.nextUid && forall u :: u in w.box.messages && u <= c.lastUid ==> KeyOf(w, u) in keys)
  }

  ghost predicate PollSafe(w: World, p: Poll) {
    match p
    case HasCursor(c) => c.Some? ==> Covers(w, c.value, w.entries)
    case HasBatch(items, done, next) => done <= |items| && Covers(w, next, w.entries + items[done..])
  }

  ghost predicate Safe(w: World) {
    && w.box.validity >= 1 && w.box.nextUid >= 1
    && (forall u :: u in w.box.messages ==> 1 <= u < w.box.nextUid)
    && (w.stored.Some? ==> Covers(w, w.stored.value, w.entries))
    && (forall p :: p in w.polls ==> PollSafe(w, w.polls[p]))
    && (forall i, j :: 0 <= i < j < |w.entries| ==> w.entries[i] != w.entries[j])
  }
}
