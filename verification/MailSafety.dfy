/** Mail ingestion loses nothing and duplicates nothing over every run, although its cursor may move backwards;
    and undisturbed polls drain a mailbox at the full rate. */
module MailSafety {
  import opened Wrappers
  import opened Text
  import opened MailIngest

  // ----- one fetch covers everything up to its new cursor -----

  /** Whatever a fetch does not return lies above its new cursor or at or below its old one. */
  lemma KeptReachesCursor(box: Mailbox, cur: Cursor, resp: seq<nat>, u: nat)
    requires IsResponse(box, cur.lastUid + 1, resp)
    requires u in box.messages && cur.lastUid < u <= NextCursor(box, cur, Kept(resp)).lastUid
    ensures u in Kept(resp)
  {
    SortAscending(resp);
    var sorted, kept := SortUids(resp), Kept(resp);
    assert u in resp;
    assert u in sorted;
    var i :| 0 <= i < |sorted| && sorted[i] == u;
    if i >= |kept| {
      assert sorted[|kept| - 1] <= sorted[i];
    }
  }

  lemma FetchCovers(w: World, p: nat, resp: seq<nat>)
    requires Safe(w) && Enabled(w, Fetch(p, resp))
    ensures PollSafe(w, Step(w, Fetch(p, resp)).polls[p])
  {
    var stored := w.polls[p].cur;
    var cur := ResolveCursor(stored, w.box.validity);
    KeptInBox(w.box, cur.lastUid + 1, resp);
    var kept := Kept(resp);
    var items, next := Keys(w.source, w.box, kept), NextCursor(w.box, cur, kept);
    assert items[0..] == items;
    assert kept != [] ==> kept[|kept| - 1] in kept;
    forall u | u in w.box.messages && u <= next.lastUid
      ensures KeyOf(w, u) in w.entries + items
    {
      if u <= cur.lastUid {
        assert stored.Some? && Covers(w, stored.value, w.entries);
        assert KeyOf(w, u) in w.entries;
      } else {
        KeptReachesCursor(w.box, cur, resp, u);
        var i :| 0 <= i < |kept| && kept[i] == u;
        assert items[i] == KeyOf(w, u);
      }
    }
  }

  // ----- coverage survives everything else that happens -----

  /** The mailbox of `w'` came from that of `w` by new mail, expunges or a renumbering. */
  ghost predicate BoxEvolves(w: World, w': World) {
    && w'.source == w.source
    && w.box.validity <= w'.box.validity
    && (w'.box.validity == w.box.validity ==>
          && w.box.nextUid <= w'.box.nextUid
          && forall u :: u in w'.box.messages && u < w.box.nextUid ==>
               u in w.box.messages && w'.box.messages[u] == w.box.messages[u])
  }

  lemma CoversKept(w: World, w': World, c: Cursor, keys: seq<string>, keys': seq<string>)
    requires Covers(w, c, keys) && BoxEvolves(w, w') && forall k :: k in keys ==> k in keys'
    ensures Covers(w', c, keys')
  {
    if c.validity == w'.box.validity {
      forall u | u in w'.box.messages && u <= c.lastUid ensures KeyOf(w', u) in keys' {
        assert KeyOf(w', u) == KeyOf(w, u);
      }
    }
  }

  lemma BoxEventKeepsSafe(w: World, e: Event)
    requires Safe(w) && (e.Deliver? || e.Expunge? || e.Renumber?)
    ensures Safe(Step(w, e))
  {
    var w' := Step(w, e);
    assert BoxEvolves(w, w');
    if w.stored.Some? { CoversKept(w, w', w.stored.value, w.entries, w'.entries); }
    forall p | p in w'.polls ensures PollSafe(w', w'.polls[p]) {
      match w.polls[p]
      case HasCursor(c) => if c.Some? { CoversKept(w, w', c.value, w.entries, w.entries); }
      case HasBatch(items, done, next) =>
        CoversKept(w, w', next, w.entries + items[done..], w.entries + items[done..]);
    }
  }

  lemma PromoteKeepsSafe(w: World, p: nat)
    requires Safe(w) && Enabled(w, PromoteNext(p))
    ensures Safe(Step(w, PromoteNext(p)))
  {
    var w' := Step(w, PromoteNext(p));
    var b := w.polls[p];
    assert forall k :: k in w.entries ==> k in w'.entries;
    if w.stored.Some? { CoversKept(w, w', w.stored.value, w.entries, w'.entries); }
    forall q | q in w'.polls ensures PollSafe(w', w'.polls[q]) {
      match w.polls[q]
      case HasCursor(c) => if c.Some? { CoversKept(w, w', c.value, w.entries, w'.entries); }
      case HasBatch(items, done, next) =>
        var done' := if q == p then done + 1 else done;
        assert items[done..] == (if q == p then [items[done]] else []) + items[done'..];
        CoversKept(w, w', next, w.entries + items[done..], w'.entries + items[done'..]);
    }
  }

  lemma SameMailbox(w: World, w': World)
    requires w'.box == w.box && w'.source == w.source
    ensures forall c, keys :: Covers(w, c, keys) <==> Covers(w', c, keys)
  {
    assert forall u :: u in w.box.messages ==> KeyOf(w, u) == KeyOf(w', u);
  }

  lemma StepKeepsSafe(w: World, e: Event)
    requires Safe(w)
    ensures Safe(Step(w, e))
  {
    if Enabled(w, e) {
      match e
      case Deliver(_) => BoxEventKeepsSafe(w, e);
      case Expunge(_) => BoxEventKeepsSafe(w, e);
      case Renumber(_, _, _) => BoxEventKeepsSafe(w, e);
      case StartPoll(_) => SameMailbox(w, Step(w, e));
      case Fetch(p, resp) =>
        FetchCovers(w, p, resp);
        SameMailbox(w, Step(w, e));
      case PromoteNext(p) => PromoteKeepsSafe(w, p);
      case Record(p) =>
        var b := w.polls[p];
        assert w.entries + b.items[b.done..] == w.entries;
        SameMailbox(w, Step(w, e));
      case Stop(_) => SameMailbox(w, Step(w, e));
    }
  }

  lemma {:induction false} RunKeepsSafe(w: World, es: seq<Event>)
    requires Safe(w)
    ensures Safe(Run(w, es))
    decreases |es|
  {
    if es != [] {
      StepKeepsSafe(w, es[0]);
      RunKeepsSafe(Step(w, es[0]), es[1..]);
    }
  }

  /** Over every run, every message still in the mailbox at or below the cursor the next poll will start from has
      been promoted, and no dedupe key has been promoted twice. */
  lemma NothingLostNothingTwice(w: World, es: seq<Event>)
    requires Initial(w)
    ensures var w' := Run(w, es);
            && (forall u :: u in w'.box.messages && u <= ResolveCursor(w'.stored, w'.box.validity).lastUid
                  ==> KeyOf(w', u) in w'.entries)
            && (forall i, j :: 0 <= i < j < |w'.entries| ==> w'.entries[i] != w'.entries[j])
  {
    RunKeepsSafe(w, es);
  }

  /** Two such messages with different Message-IDs have two different entries. */
  lemma DifferentMailsDifferentEntries(w: World, es: seq<Event>, u: nat, v: nat)
    requires Initial(w)
    requires var w' := Run(w, es);
             var c := ResolveCursor(w'.stored, w'.box.validity).lastUid;
      && u in w'.box.messages && v in w'.box.messages && u <= c && v <= c
      && Trim(w'.box.messages[u]) != "" && Trim(w'.box.messages[v]) != ""
      && Trim(w'.box.messages[u]) != Trim(w'.box.messages[v])
    ensures var w' := Run(w, es);
            exists i, j ::
              && 0 <= i < |w'.entries| && 0 <= j < |w'.entries| && i != j
              && w'.entries[i] == KeyOf(w', u) && w'.entries[j] == KeyOf(w', v)
  {
    var w' := Run(w, es);
    NothingLostNothingTwice(w, es);
    var i :| 0 <= i < |w'.entries| && w'.entries[i] == KeyOf(w', u);
    var j :| 0 <= j < |w'.entries| && w'.entries[j] == KeyOf(w', v);
    KeysAgreeExactly(w'.source, w'.box.validity, u, w'.box.messages[u], w'.box.validity, v, w'.box.messages[v]);
  }

  // ----- nothing is invented -----

  ghost predicate InBox(w: World, key: string) {
    exists u :: u in w.box.messages && KeyOf(w, u) == key
  }

  /** At some point of the run the mailbox held a message of that key. */
  ghost predicate WasInBox(w: World, es: seq<Event>, key: string)
    decreases |es|
  {
    InBox(w, key) || (es != [] && WasInBox(Step(w, es[0]), es[1..], key))
  }

  ghost predicate Fetched(w: World, key: string) {
    exists p :: p in w.polls && w.polls[p].HasBatch? && key in w.polls[p].items
  }

  lemma FetchedFromBox(w: World, p: nat, resp: seq<nat>, key: string)
    requires Enabled(w, Fetch(p, resp)) && key in FetchedBatch(w, w.polls[p].cur, resp).items
    ensures InBox(w, key)
  {
    var cur := ResolveCursor(w.polls[p].cur, w.box.validity);
    KeptInBox(w.box, cur.lastUid + 1, resp);
    var kept := Kept(resp);
    var items := Keys(w.source, w.box, kept);
    var i :| 0 <= i < |items| && items[i] == key;
    assert kept[i] in kept && KeyOf(w, kept[i]) == key;
  }

  lemma StepInventsNothing(w: World, e: Event, key: string)
    requires key in Step(w, e).entries || Fetched(Step(w, e), key)
    ensures key in w.entries || Fetched(w, key) || InBox(w, key)
  {
    if Enabled(w, e) && key !in w.entries {
      var w' := Step(w, e);
      if e.Fetch? && key in FetchedBatch(w, w.polls[e.poll].cur, e.resp).items {
        FetchedFromBox(w, e.poll, e.resp, key);
      } else if e.PromoteNext? && key == w.polls[e.poll].items[w.polls[e.poll].done] {
        assert key in w.polls[e.poll].items;
      } else {
        assert Fetched(w', key);
        var p :| p in w'.polls && w'.polls[p].HasBatch? && key in w'.polls[p].items;
        assert p in w.polls && w.polls[p].HasBatch? && key in w.polls[p].items;
      }
    }
  }

  lemma {:induction false} RunInventsNothing(w: World, es: seq<Event>, key: string)
    requires key in Run(w, es).entries
    ensures key in w.entries || Fetched(w, key) || WasInBox(w, es, key)
    decreases |es|
  {
    if es != [] {
      RunInventsNothing(Step(w, es[0]), es[1..], key);
      if key in Step(w, es[0]).entries || Fetched(Step(w, es[0]), key) { StepInventsNothing(w, es[0], key); }
    }
  }

  /** Over every run, each entry stands for a message that was in the mailbox at some point. */
  lemma EntriesComeFromMails(w: World, es: seq<Event>, key: string)
    requires Initial(w) && key in Run(w, es).entries
    ensures WasInBox(w, es, key)
  {
    RunInventsNothing(w, es, key);
  }

  // ----- the cursor may move backwards -----

  ghost predicate CanPoll(w: World, resp: seq<nat>) {
    w.polls == map[] && IsResponse(w.box, ResolveCursor(w.stored, w.box.validity).lastUid + 1, resp)
  }

  /** One poll done alone: fetch `resp`, promote every item, record the cursor. */
  ghost function WholePoll(w: World, resp: seq<nat>): World
    requires CanPoll(w, resp)
  {
    var cur := ResolveCursor(w.stored, w.box.validity);
    KeptInBox(w.box, cur.lastUid + 1, resp);
    w.(entries := PromoteAll(w.entries, Keys(w.source, w.box, Kept(resp))),
       stored := Some(NextCursor(w.box, cur, Kept(resp))))
  }

  ghost function Promotions(n: nat): seq<Event> {
    if n == 0 then [Record(0)] else [PromoteNext(0)] + Promotions(n - 1)
  }

  /** The events of a whole poll of `n` items. */
  ghost function PollEvents(resp: seq<nat>, n: nat): seq<Event> {
    [StartPoll(0)] + ([Fetch(0, resp)] + Promotions(n))
  }

  lemma {:induction false} RunCons(w: World, e: Event, es: seq<Event>)
    ensures Run(w, [e] + es) == Run(Step(w, e), es)
  {
    assert ([e] + es)[1..] == es;
  }

  lemma {:induction false} PromotionsRun(w: World, n: nat)
    requires 0 in w.polls && w.polls[0].HasBatch? && w.polls[0].done + n == |w.polls[0].items|
    ensures Run(w, Promotions(n))
         == w.(entries := PromoteAll(w.entries, w.polls[0].items[w.polls[0].done..]),
               stored := Some(w.polls[0].next), polls := w.polls - {0})
    decreases n
  {
    var b := w.polls[0];
    if n == 0 {
      RunCons(w, Record(0), []);
      assert Promotions(0) == [Record(0)] + [];
    } else {
      RunCons(w, PromoteNext(0), Promotions(n - 1));
      var w1 := Step(w, PromoteNext(0));
      PromotionsRun(w1, n - 1);
      assert b.items[b.done..][1..] == b.items[b.done + 1..];
      assert w1.polls - {0} == w.polls - {0};
    }
  }

  lemma StartStep(w: World)
    requires w.polls == map[]
    ensures Step(w, StartPoll(0)) == w.(polls := map[0 := HasCursor(w.stored)])
  {
  }

  lemma {:induction false} FetchStep(w: World, resp: seq<nat>)
    requires w.polls == map[0 := HasCursor(w.stored)]
    requires IsResponse(w.box, ResolveCursor(w.stored, w.box.validity).lastUid + 1, resp)
    ensures Step(w, Fetch(0, resp)) == w.(polls := map[0 := FetchedBatch(w, w.stored, resp)])
  {
    assert Enabled(w, Fetch(0, resp));
    assert w.polls[0 := FetchedBatch(w, w.stored, resp)] == map[0 := FetchedBatch(w, w.stored, resp)];
  }

  lemma SameBatch(w: World, w1: World, resp: seq<nat>)
    requires w1 == w.(polls := w1.polls)
    requires IsResponse(w.box, ResolveCursor(w.stored, w.box.validity).lastUid + 1, resp)
    ensures FetchedBatch(w1, w1.stored, resp) == FetchedBatch(w, w.stored, resp)
  {
  }

  /** Start and fetch, done alone: the poll holds the whole batch. */
  lemma {:induction false} FetchRun(w: World, resp: seq<nat>, rest: seq<Event>)
    requires CanPoll(w, resp)
    ensures Run(w, [StartPoll(0)] + ([Fetch(0, resp)] + rest))
         == Run(w.(polls := map[0 := FetchedBatch(w, w.stored, resp)]), rest)
  {
    RunCons(w, StartPoll(0), [Fetch(0, resp)] + rest);
    StartStep(w);
    var w1 := w.(polls := map[0 := HasCursor(w.stored)]);
    RunCons(w1, Fetch(0, resp), rest);
    FetchStep(w1, resp);
    SameBatch(w, w1, resp);
  }

  /** A whole poll is what the poll's events do when nothing comes between them. */
  lemma {:induction false} WholePollIsARun(w: World, resp: seq<nat>)
    requires CanPoll(w, resp)
    ensures Run(w, PollEvents(resp, |Kept(resp)|)) == WholePoll(w, resp)
  {
    var n := |Kept(resp)|;
    var batch := FetchedBatch(w, w.stored, resp);
    var w2 := w.(polls := map[0 := batch]);
    FetchRun(w, resp, Promotions(n));
    PromotionsRun(w2, n);
    assert batch.items[0..] == batch.items && w2.polls - {0} == map[] == w.polls;
  }

  /** A poll that stops after `k` items, by a failure or a crash. */
  ghost function SomePromotions(k: nat): seq<Event> {
    if k == 0 then [Stop(0)] else [PromoteNext(0)] + SomePromotions(k - 1)
  }

  lemma {:induction false} SomePromotionsRun(w: World, k: nat)
    requires 0 in w.polls && w.polls[0].HasBatch? && w.polls[0].done + k <= |w.polls[0].items|
    ensures var b := w.polls[0];
            Run(w, SomePromotions(k))
            == w.(entries := PromoteAll(w.entries, b.items[b.done..b.done + k]), polls := w.polls - {0})
    decreases k
  {
    var b := w.polls[0];
    if k == 0 {
      RunCons(w, Stop(0), []);
      assert SomePromotions(0) == [Stop(0)] + [];
    } else {
      RunCons(w, PromoteNext(0), SomePromotions(k - 1));
      var w1 := Step(w, PromoteNext(0));
      SomePromotionsRun(w1, k - 1);
      assert b.items[b.done..b.done + k][1..] == b.items[b.done + 1..b.done + 1 + (k - 1)];
      assert w1.polls - {0} == w.polls - {0};
    }
  }

  /** A poll that stops at its item `k` keeps the earlier ones promoted and leaves the cursor where it was. */
  lemma {:induction false} StoppedPollIsARun(w: World, resp: seq<nat>, k: nat)
    requires CanPoll(w, resp) && k <= |Kept(resp)|
    ensures (forall u :: u in Kept(resp) ==> u in w.box.messages)
         && Run(w, [StartPoll(0)] + ([Fetch(0, resp)] + SomePromotions(k)))
            == w.(entries := PromoteAll(w.entries, Keys(w.source, w.box, Kept(resp))[..k]))
  {
    KeptInBox(w.box, ResolveCursor(w.stored, w.box.validity).lastUid + 1, resp);
    var batch := FetchedBatch(w, w.stored, resp);
    var w2 := w.(polls := map[0 := batch]);
    FetchRun(w, resp, SomePromotions(k));
    SomePromotionsRun(w2, k);
    assert batch.items[0..0 + k] == batch.items[..k] && w2.polls - {0} == map[] == w.polls;
  }

  // ----- a renumbered mailbox is read again without duplicates -----

  lemma {:induction false} KnownKeysAddNothing(entries: seq<string>, keys: seq<string>)
    requires forall i :: 0 <= i < |keys| ==> keys[i] in entries
    ensures PromoteAll(entries, keys) == entries
    decreases |keys|
  {
    if keys != [] { KnownKeysAddNothing(entries, keys[1..]); }
  }

  /** Each message now in the mailbox has the Message-ID of one that an earlier numbering had promoted. */
  ghost predicate KnownMails(w: World, validity: nat, before: map<nat, string>) {
    forall u :: u in w.box.messages ==>
      && Trim(w.box.messages[u]) != ""
      && exists v :: v in before && Trim(before[v]) == Trim(w.box.messages[u])
                  && DedupeKey(w.source, validity, v, before[v]) in w.entries
  }

  lemma KnownMailIsPromoted(w: World, validity: nat, before: map<nat, string>, u: nat)
    requires KnownMails(w, validity, before) && u in w.box.messages
    ensures KeyOf(w, u) in w.entries
  {
    var v :| v in before && Trim(before[v]) == Trim(w.box.messages[u])
          && DedupeKey(w.source, validity, v, before[v]) in w.entries;
    KeysAgreeExactly(w.source, validity, v, before[v], w.box.validity, u, w.box.messages[u]);
  }

  /** When the server renumbers the mailbox, a poll reads it from the start, and mails with the Message-IDs of promoted
      ones get no second entry. */
  lemma RenumberingDuplicatesNothing(w: World, validity: nat, messages: map<nat, string>, nextUid: nat, resp: seq<nat>)
    requires Safe(w) && w.polls == map[] && Enabled(w, Renumber(validity, messages, nextUid))
    requires var w1 := Step(w, Renumber(validity, messages, nextUid));
             KnownMails(w1, w.box.validity, w.box.messages) && CanPoll(w1, resp)
    ensures var w1 := Step(w, Renumber(validity, messages, nextUid));
      && w1.box.validity == validity && w1.box.messages == messages
      && ResolveCursor(w1.stored, w1.box.validity).lastUid == 0
      && WholePoll(w1, resp).entries == w.entries
  {
    var w1 := Step(w, Renumber(validity, messages, nextUid));
    KeptInBox(w1.box, ResolveCursor(w1.stored, w1.box.validity).lastUid + 1, resp);
    var keys := Keys(w1.source, w1.box, Kept(resp));
    forall i | 0 <= i < |keys| ensures keys[i] in w1.entries {
      assert Kept(resp)[i] in Kept(resp);
      KnownMailIsPromoted(w1, w.box.validity, w.box.messages, Kept(resp)[i]);
    }
    KnownKeysAddNothing(w1.entries, keys);
  }

  lemma WholePollKeepsSafe(w: World, resp: seq<nat>)
    requires Safe(w) && CanPoll(w, resp)
    ensures Safe(WholePoll(w, resp))
  {
    WholePollIsARun(w, resp);
    RunKeepsSafe(w, PollEvents(resp, |Kept(resp)|));
  }

  lemma KeptOfResponse(resp: seq<nat>)
    ensures Kept(resp) == [] <==> resp == []
    ensures forall u :: u in Kept(resp) ==> u in resp
  {
    SortAscending(resp);
  }

  ghost function LastUid(w: World): nat
    requires w.stored.Some?
  {
    w.stored.value.lastUid
  }

  lemma PolledUid(w: World, resp: seq<nat>)
    requires CanPoll(w, resp) && w.stored.Some? && w.stored.value.validity == w.box.validity
    ensures LastUid(WholePoll(w, resp)) == if resp == [] then LastUid(w) else Kept(resp)[|Kept(resp)| - 1]
    ensures resp != [] ==> LastUid(WholePoll(w, resp)) in resp
  {
    KeptOfResponse(resp);
    if resp != [] {
      var kept := Kept(resp);
      assert kept[|kept| - 1] in kept;
    }
  }

  /** A poll under an unchanged UIDVALIDITY lowers the recorded UID exactly when every message left is below it
      and the server answers with one of them. */
  lemma CursorMovesBackExactly(w: World, resp: seq<nat>)
    requires Safe(w) && CanPoll(w, resp) && w.stored.Some? && w.stored.value.validity == w.box.validity
    ensures LastUid(WholePoll(w, resp)) < LastUid(w)
            <==> (exists u :: u in resp && u < LastUid(w)) && (forall u :: u in w.box.messages ==> u < LastUid(w))
  {
    PolledUid(w, resp);
    if resp != [] { assert LastUid(WholePoll(w, resp)) in w.box.messages; }
  }

  lemma {:induction false} RunAppend(w: World, es: seq<Event>, fs: seq<Event>)
    ensures Run(w, es + fs) == Run(Run(w, es), fs)
    decreases |es|
  {
    if es == [] {
      assert es + fs == fs;
    } else {
      assert (es + fs)[1..] == es[1..] + fs;
      RunAppend(Step(w, es[0]), es[1..], fs);
    }
  }

  /** Two messages arrive in an empty mailbox and are polled. */
  ghost function ReadTwo(first: nat, a: string, b: string): seq<Event> {
    [Deliver(a), Deliver(b)] + PollEvents([first, first + 1], 2)
  }

  /** The newer one is expunged, and the next poll is answered with the older one. */
  ghost function LoseNewest(first: nat): seq<Event> {
    [Expunge({first + 1})] + PollEvents([first], 1)
  }

  lemma {:induction false} DeliverRun(w: World, a: string, b: string)
    ensures Run(w, [Deliver(a), Deliver(b)]) == Step(Step(w, Deliver(a)), Deliver(b))
  {
    assert [Deliver(a), Deliver(b)] == [Deliver(a)] + ([Deliver(b)] + []);
    RunCons(w, Deliver(a), [Deliver(b)] + []);
    RunCons(Step(w, Deliver(a)), Deliver(b), []);
  }

  lemma KeepsSmall(first: nat)
    ensures Kept([first, first + 1]) == [first, first + 1] && Kept([first]) == [first]
  {
    assert [first, first + 1][1..] == [first + 1] && [first + 1][1..] == [] && [first][1..] == [];
    assert SortUids([first + 1]) == [first + 1];
  }

  ghost predicate HoldsTwo(w: World, first: nat) {
    && w.polls == map[] && w.box.nextUid == first + 2 && first in w.box.messages && first + 1 in w.box.messages
    && forall u :: u in w.box.messages ==> u == first || u == first + 1
  }

  /** Both mails are still there and the cursor stands on the second. */
  ghost predicate ReadBoth(w: World, validity: nat, first: nat) {
    HoldsTwo(w, first) && w.box.validity == validity && w.stored == Some(Cursor(validity, first + 1))
  }

  lemma BothKept(w: World, first: nat)
    requires HoldsTwo(w, first) && w.stored == None && first >= 1
    ensures var resp := [first, first + 1];
            CanPoll(w, resp) && |Kept(resp)| == 2 && ReadBoth(WholePoll(w, resp), w.box.validity, first)
  {
    var resp := [first, first + 1];
    assert first in resp && first + 1 in resp && forall u :: u in resp ==> u == first || u == first + 1;
    KeepsSmall(first);
  }

  lemma {:induction false} TwoPolled(w: World, first: nat)
    requires HoldsTwo(w, first) && w.stored == None && first >= 1
    ensures ReadBoth(Run(w, PollEvents([first, first + 1], 2)), w.box.validity, first)
  {
    BothKept(w, first);
    WholePollIsARun(w, [first, first + 1]);
  }

  lemma OlderLeft(w: World, first: nat)
    requires HoldsTwo(w, first) && w.stored == Some(Cursor(w.box.validity, first + 1))
    ensures var w' := Step(w, Expunge({first + 1}));
            && CanPoll(w', [first]) && w'.stored == w.stored && w'.box.validity == w.box.validity
            && forall u :: u in w'.box.messages ==> u < first + 1
  {
    assert first in [first];
  }

  lemma NewestLost(w: World, first: nat)
    requires Safe(w) && HoldsTwo(w, first) && w.stored == Some(Cursor(w.box.validity, first + 1))
    ensures var w' := Run(w, LoseNewest(first));
            w'.stored.Some? && w'.stored.value.validity == w.box.validity && LastUid(w') < first + 1
  {
    RunCons(w, Expunge({first + 1}), PollEvents([first], 1));
    OlderLeft(w, first);
    StepKeepsSafe(w, Expunge({first + 1}));
    var w1 := Step(w, Expunge({first + 1}));
    KeepsSmall(first);
    WholePollIsARun(w1, [first]);
    assert [first][0] == first;
    CursorMovesBackExactly(w1, [first]);
  }

  /** The world with those two mails in its mailbox. */
  ghost function WithTwo(w: World, a: string, b: string): World {
    var first := w.box.nextUid;
    w.(box := Mailbox(w.box.validity, map[first := a, first + 1 := b], first + 2))
  }

  lemma {:induction false} TwoDelivered(w: World, a: string, b: string)
    requires w.box.messages == map[]
    ensures Run(w, [Deliver(a), Deliver(b)]) == WithTwo(w, a, b)
  {
    DeliverRun(w, a, b);
    var first := w.box.nextUid;
    var none: map<nat, string> := map[];
    assert none[first := a][first + 1 := b] == map[first := a, first + 1 := b];
  }

  lemma WithTwoHoldsTwo(w: World, a: string, b: string)
    requires Initial(w) && w.box.messages == map[]
    ensures HoldsTwo(WithTwo(w, a, b), w.box.nextUid)
  {
  }

  lemma {:induction false} ReadTwoSplits(w: World, a: string, b: string, poll: seq<Event>)
    requires w.box.messages == map[]
    ensures Run(w, [Deliver(a), Deliver(b)] + poll) == Run(WithTwo(w, a, b), poll)
  {
    RunAppend(w, [Deliver(a), Deliver(b)], poll);
    TwoDelivered(w, a, b);
  }

  lemma {:induction false} ReadTwoRun(w: World, a: string, b: string, first: nat)
    requires Initial(w) && w.box.messages == map[] && first == w.box.nextUid
    ensures ReadBoth(Run(w, ReadTwo(first, a, b)), w.box.validity, first)
  {
    ReadTwoSplits(w, a, b, PollEvents([first, first + 1], 2));
    WithTwoHoldsTwo(w, a, b);
    TwoPolled(WithTwo(w, a, b), first);
  }

  /** From every new source on an empty mailbox such a run leads to a cursor that has moved back. */
  lemma CursorCanMoveBackwards(w: World, a: string, b: string)
    requires Initial(w) && w.box.messages == map[]
    ensures var first := w.box.nextUid;
            var before, after := Run(w, ReadTwo(first, a, b)), Run(w, ReadTwo(first, a, b) + LoseNewest(first));
      && before.stored == Some(Cursor(w.box.validity, first + 1))
      && after.stored.Some? && after.stored.value.validity == w.box.validity
      && LastUid(after) < LastUid(before)
  {
    var first := w.box.nextUid;
    ReadTwoRun(w, a, b, first);
    RunKeepsSafe(w, ReadTwo(first, a, b));
    NewestLost(Run(w, ReadTwo(first, a, b)), first);
    RunAppend(w, ReadTwo(first, a, b), LoseNewest(first));
  }

  // ----- draining -----

  ghost function Above(messages: set<nat>, c: nat): set<nat> {
    set u | u in messages && u > c
  }

  /** The messages the next poll still has to read. */
  ghost function Remaining(w: World): set<nat> {
    Above(w.box.messages.Keys, ResolveCursor(w.stored, w.box.validity).lastUid)
  }

  ghost predicate Distinct(s: seq<nat>) {
    forall i, j :: 0 <= i < j < |s| ==> s[i] != s[j]
  }

  ghost predicate StrictlyAscending(s: seq<nat>) {
    forall i, j :: 0 <= i < j < |s| ==> s[i] < s[j]
  }

  lemma {:induction false} SortStrictlyAscending(s: seq<nat>)
    requires Distinct(s)
    ensures StrictlyAscending(SortUids(s))
  {
    if s != [] {
      SortStrictlyAscending(s[1..]);
      SortAscending(s[1..]);
      InsertStrictlyAscending(s[0], SortUids(s[1..]));
    }
  }

  lemma {:induction false} InsertStrictlyAscending(x: nat, s: seq<nat>)
    requires StrictlyAscending(s) && x !in s
    ensures StrictlyAscending(Insert(x, s))
  {
    if s != [] && x > s[0] {
      InsertStrictlyAscending(x, s[1..]);
      var t := Insert(x, s[1..]);
      forall i | 0 <= i < |t| ensures s[0] < t[i] {
        assert t[i] in multiset(t);
      }
    }
  }

  ghost function Elements(s: seq<nat>): (r: set<nat>)
    ensures forall u :: u in r <==> u in s
  {
    if s == [] then {} else {s[0]} + Elements(s[1..])
  }

  lemma {:induction false} DistinctCount(s: seq<nat>)
    requires Distinct(s)
    ensures |Elements(s)| == |s|
  {
    if s != [] {
      DistinctCount(s[1..]);
      assert s[0] !in s[1..] && Elements(s) == {s[0]} + Elements(s[1..]);
    }
  }

  /** What one fetch keeps: distinct response messages in order; all of them, or the 200 oldest. */
  lemma KeptFacts(resp: seq<nat>)
    requires Distinct(resp)
    ensures StrictlyAscending(Kept(resp)) && forall u :: u in Kept(resp) ==> u in resp
    ensures |resp| <= MAX_PER_FETCH ==> forall u :: u in resp ==> u in Kept(resp)
    ensures |resp| > MAX_PER_FETCH ==>
              |Kept(resp)| == MAX_PER_FETCH && exists above :: above in resp && forall u :: u in Kept(resp) ==> u < above
  {
    SortAscending(resp);
    SortStrictlyAscending(resp);
    var sorted := SortUids(resp);
    if |resp| > MAX_PER_FETCH {
      assert sorted[MAX_PER_FETCH] in resp;
    }
  }

  /** A whole poll over a response without repetitions leaves nothing to read, or at least 200 messages fewer. */
  lemma WholePollProgress(w: World, resp: seq<nat>)
    requires Safe(w) && CanPoll(w, resp) && Distinct(resp)
    ensures var left := Remaining(WholePoll(w, resp));
            left == {} || |left| + 200 <= |Remaining(w)|
  {
    KeptFacts(resp);
    if |resp| <= MAX_PER_FETCH {
      UntruncatedPollReadsAll(w, resp);
    } else {
      TruncatedPollReads(w, resp);
    }
  }

  lemma UntruncatedPollReadsAll(w: World, resp: seq<nat>)
    requires Safe(w) && CanPoll(w, resp) && Distinct(resp) && |resp| <= MAX_PER_FETCH
    ensures Remaining(WholePoll(w, resp)) == {}
  {
    KeptFacts(resp);
    var cur, kept := ResolveCursor(w.stored, w.box.validity), Kept(resp);
    forall u | u in w.box.messages ensures u <= WholePoll(w, resp).stored.value.lastUid {
      if u > cur.lastUid {
        assert u in kept;
        var i :| 0 <= i < |kept| && kept[i] == u;
        assert i < |kept| - 1 ==> kept[i] < kept[|kept| - 1];
      } else if kept != [] {
        assert kept[|kept| - 1] in resp;
      }
    }
  }

  /** Reading `kept` out of the messages above `c` leaves those above its last. */
  lemma ReadCount(messages: set<nat>, c: nat, kept: seq<nat>)
    requires StrictlyAscending(kept) && kept != [] && forall u :: u in kept ==> u in messages && u > c
    ensures |Above(messages, kept[|kept| - 1])| + |kept| <= |Above(messages, c)|
  {
    var read, left := Elements(kept), Above(messages, kept[|kept| - 1]);
    DistinctCount(kept);
    forall u | u in kept ensures u !in left {
      var i :| 0 <= i < |kept| && kept[i] == u;
      assert i < |kept| - 1 ==> kept[i] < kept[|kept| - 1];
    }
    assert kept[|kept| - 1] in kept;
    assert read !! left;
    SubsetCount(read + left, Above(messages, c));
  }

  lemma TruncatedPollReads(w: World, resp: seq<nat>)
    requires Safe(w) && CanPoll(w, resp) && Distinct(resp) && |resp| > MAX_PER_FETCH
    ensures |Remaining(WholePoll(w, resp))| + MAX_PER_FETCH <= |Remaining(w)|
  {
    KeptFacts(resp);
    var cur, kept := ResolveCursor(w.stored, w.box.validity), Kept(resp);
    var above :| above in resp && forall u :: u in kept ==> u < above;
    assert above in w.box.messages;
    forall u | u in kept ensures u in w.box.messages.Keys && u > cur.lastUid {
      assert u in resp;
    }
    ReadCount(w.box.messages.Keys, cur.lastUid, kept);
  }

  lemma SubsetCount(a: set<nat>, b: set<nat>)
    requires a <= b
    ensures |a| <= |b|
  {
    assert b == a + (b - a);
  }

  /** A series of whole polls of an otherwise quiet mailbox. */
  ghost predicate CanPollAll(w: World, resps: seq<seq<nat>>)
    decreases |resps|
  {
    resps == [] || (CanPoll(w, resps[0]) && Distinct(resps[0]) && CanPollAll(WholePoll(w, resps[0]), resps[1..]))
  }

  ghost function PollAll(w: World, resps: seq<seq<nat>>): World
    requires CanPollAll(w, resps)
    decreases |resps|
  {
    if resps == [] then w else PollAll(WholePoll(w, resps[0]), resps[1..])
  }

  ghost predicate Drained(w: World) {
    Remaining(w) == {} && forall u :: u in w.box.messages ==> KeyOf(w, u) in w.entries
  }

  lemma NothingRemaining(w: World)
    requires Safe(w) && Remaining(w) == {}
    ensures Drained(w)
  {
    forall u | u in w.box.messages ensures KeyOf(w, u) in w.entries {
      assert u !in Remaining(w);
    }
  }

  /** k polls read 200k messages: when that covers the backlog, nothing remains, and by then every message
      in the mailbox has been promoted. */
  lemma {:induction false} PollsDrain(w: World, resps: seq<seq<nat>>)
    requires Safe(w)
    ensures CanPollAll(w, resps) && |Remaining(w)| <= 200 * |resps| ==>
              PollAll(w, resps).box == w.box && Drained(PollAll(w, resps))
    decreases |resps|
  {
    if CanPollAll(w, resps) && |Remaining(w)| <= 200 * |resps| {
      if resps == [] {
        NothingRemaining(w);
      } else {
        WholePollProgress(w, resps[0]);
        WholePollKeepsSafe(w, resps[0]);
        PollsDrain(WholePoll(w, resps[0]), resps[1..]);
      }
    }
  }

  lemma {:induction false} InSomeOrder(s: set<nat>) returns (q: seq<nat>)
    ensures Distinct(q) && forall u :: u in q <==> u in s
    decreases |s|
  {
    q := [];
    if s != {} {
      var u :| u in s;
      var rest := InSomeOrder(s - {u});
      q := [u] + rest;
    }
  }

  /** A server can always answer a poll, again and again. */
  lemma {:induction false} PollsPossible(w: World, n: nat) returns (resps: seq<seq<nat>>)
    requires Safe(w) && w.polls == map[]
    ensures |resps| == n && CanPollAll(w, resps)
    decreases n
  {
    resps := [];
    if n > 0 {
      var resp := InSomeOrder(Remaining(w));
      assert CanPoll(w, resp);
      WholePollKeepsSafe(w, resp);
      var rest := PollsPossible(WholePoll(w, resp), n - 1);
      resps := [resp] + rest;
      assert resps[1..] == rest;
    }
  }

  /** Every backlog, whatever its size, is cleared by enough polls. */
  lemma EveryBacklogDrains(w: World)
    requires Safe(w) && w.polls == map[]
    ensures exists resps :: CanPollAll(w, resps) && PollAll(w, resps).box == w.box && Drained(PollAll(w, resps))
  {
    var resps := PollsPossible(w, |Remaining(w)|);
    PollsDrain(w, resps);
  }

  // ----- which messages share a key -----

  /** Of one source's messages, two with Message-IDs share a key exactly when these agree, two without exactly when
      UIDVALIDITY and UID agree, and one of each exactly when the Message-ID spells the other's numbers. */
  lemma KeysAgreeExactly(source: string, v1: nat, u1: nat, id1: string, v2: nat, u2: nat, id2: string)
    ensures DedupeKey(source, v1, u1, id1) == DedupeKey(source, v2, u2, id2) <==>
              if Trim(id1) != "" && Trim(id2) != "" then Trim(id1) == Trim(id2)
              else if Trim(id1) != "" then Trim(id1) == Decimal(v2) + ":" + Decimal(u2)
              else if Trim(id2) != "" then Trim(id2) == Decimal(v1) + ":" + Decimal(u1)
              else v1 == v2 && u1 == u2
  {
    var n1, n2 := Decimal(v1) + ":" + Decimal(u1), Decimal(v2) + ":" + Decimal(u2);
    var t1 := if Trim(id1) != "" then Trim(id1) else n1;
    var t2 := if Trim(id2) != "" then Trim(id2) else n2;
    var k1, k2 := DedupeKey(source, v1, u1, id1), DedupeKey(source, v2, u2, id2);
    assert k1 == source + "|" + t1 && k2 == source + "|" + t2;
    assert k1[|source| + 1..] == t1 && k2[|source| + 1..] == t2;
    NumbersAgree(v1, u1, v2, u2);
  }

  lemma NumbersAgree(v1: nat, u1: nat, v2: nat, u2: nat)
    ensures Decimal(v1) + ":" + Decimal(u1) == Decimal(v2) + ":" + Decimal(u2) <==> v1 == v2 && u1 == u2
  {
    if Decimal(v1) + ":" + Decimal(u1) == Decimal(v2) + ":" + Decimal(u2) {
      FirstSeparator(':', Decimal(v1), Decimal(u1), Decimal(v2), Decimal(u2));
      DecimalInjective(v1, v2);
      DecimalInjective(u1, u2);
    }
  }

  /** A message with a Message-ID keeps its key under every renumbering; one without keeps it exactly when UIDVALIDITY
      and UID are both unchanged. */
  lemma KeyAcrossRenumbering(source: string, v1: nat, u1: nat, v2: nat, u2: nat, messageId: string)
    ensures DedupeKey(source, v1, u1, messageId) == DedupeKey(source, v2, u2, messageId)
       <==> Trim(messageId) != "" || (v1 == v2 && u1 == u2)
  {
    KeysAgreeExactly(source, v1, u1, messageId, v2, u2, messageId);
  }

  /** Sources whose ids hold no bar never share a key. */
  lemma SourcesShareNoKey(s1: string, v1: nat, u1: nat, id1: string, s2: string, v2: nat, u2: nat, id2: string)
    requires '|' !in s1 && '|' !in s2 && DedupeKey(s1, v1, u1, id1) == DedupeKey(s2, v2, u2, id2)
    ensures s1 == s2
  {
    var t1 := if Trim(id1) != "" then Trim(id1) else Decimal(v1) + ":" + Decimal(u1);
    var t2 := if Trim(id2) != "" then Trim(id2) else Decimal(v2) + ":" + Decimal(u2);
    assert DedupeKey(s1, v1, u1, id1) == s1 + "|" + t1 && DedupeKey(s2, v2, u2, id2) == s2 + "|" + t2;
    FirstSeparator('|', s1, t1, s2, t2);
  }

  lemma FirstSeparator(sep: char, a: string, b: string, c: string, d: string)
    requires sep !in a && sep !in c && a + [sep] + b == c + [sep] + d
    ensures a == c && b == d
  {
    var s, t := a + [sep] + b, c + [sep] + d;
    assert s[|a|] == sep && t[|c|] == sep;
    assert forall i :: 0 <= i < |a| ==> s[i] != sep;
    assert forall i :: 0 <= i < |c| ==> t[i] != sep;
    assert |a| == |c|;
    assert a == s[..|a|] == t[..|c|] == c;
    assert b == s[|a| + 1..] == t[|c| + 1..] == d;
  }
}
