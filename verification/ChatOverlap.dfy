/** Deliveries of one turn's job that overlap: from which reached states the success can be undone, the chat started
    again or a second reply written. */
module ChatOverlap {
  import opened Wrappers
  import LinkMachine
  import opened ChatCreation

  // ----- what every run keeps -----

  /** Between these positions a delivery holds the thread's lock. */
  predicate NeedsLock(ph: Phase) {
    ph.Dispatch? || ph.Begin? || ph.Start? || ph.Created? || ph.Answering? || ph.Continuing? || ph.RecordAmbiguous?
    || ph.FreezeLink? || ph.Finish?
  }

  ghost predicate LockSound(w: World) {
    && (forall id :: id in w.runs && NeedsLock(w.runs[id]) ==> w.lock == Some(id))
    && (w.lock.Some? ==>
          && w.lock.value in w.runs
          && var ph := w.runs[w.lock.value]; NeedsLock(ph) || ph.RecordFailed? || ph.FailLink?)
  }

  /** A turn succeeds only on a link that was ready. */
  predicate SuccessLinked(r: Rows) {
    r.turn.status == TurnSucceeded ==> !r.link.state.CreationPending? && !r.link.state.Failed?
  }

  ghost predicate Sound(w: World) {
    LockSound(w) && Guarded(w) && SuccessLinked(w.rows)
  }

  lemma StepKeepsLockSound(w: World, job: LinkMachine.JobId, e: Event)
    requires LockSound(w)
    ensures LockSound(Step(w, job, e))
  {
  }

  lemma StepKeepsLinked(w: World, job: LinkMachine.JobId, e: Event)
    requires SuccessLinked(w.rows)
    ensures SuccessLinked(Step(w, job, e).rows)
  {
  }

  lemma {:induction false} RunKeepsSound(w: World, job: LinkMachine.JobId, es: seq<Event>)
    requires Sound(w)
    ensures Sound(Run(w, job, es))
    decreases |es|
  {
    if es != [] {
      StepKeepsLockSound(w, job, es[0]);
      StepKeepsGuarded(w, job, es[0]);
      StepKeepsLinked(w, job, es[0]);
      RunKeepsSound(Step(w, job, es[0]), job, es[1..]);
    }
  }

  // ----- reaching a goal -----

  ghost predicate Leads(w: World, job: LinkMachine.JobId, goal: Rows -> bool) {
    exists es :: goal(Run(w, job, es).rows)
  }

  lemma LeadsNow(w: World, job: LinkMachine.JobId, goal: Rows -> bool)
    requires goal(w.rows)
    ensures Leads(w, job, goal)
  {
    assert goal(Run(w, job, []).rows);
  }

  lemma LeadsFirst(w: World, job: LinkMachine.JobId, e: Event, goal: Rows -> bool)
    requires Leads(Step(w, job, e), job, goal)
    ensures Leads(w, job, goal)
  {
    var es :| goal(Run(Step(w, job, e), job, es).rows);
    RunCons(w, job, e, es);
    assert goal(Run(w, job, [e] + es).rows);
  }

  const STOPS := Env(true, true, true, true, Transient, 0)

  /** The lock's holder can be stopped by failing calls, which leave the rows alone but for a chat it may start. */
  function Freed(w: World, job: LinkMachine.JobId, holder: nat): World {
    Step(Step(w, job, Advance(holder, STOPS)), job, Advance(holder, STOPS))
  }

  lemma HolderStops(w: World, job: LinkMachine.JobId, holder: nat)
    requires LockSound(w) && w.lock == Some(holder)
    ensures var w' := Freed(w, job, holder);
      && w'.lock == None && w'.runs == w.runs[holder := Returned]
      && w'.rows == w.rows.(starts := w'.rows.starts) && w'.rows.starts >= w.rows.starts
  {
    var w1 := Step(w, job, Advance(holder, STOPS));
    var ph := w1.runs[holder];
    assert w1.runs == w.runs[holder := ph];
    assert ph != Returned ==> w1.lock == Some(holder) && Freed(w, job, holder).runs == w1.runs[holder := Returned];
  }

  lemma LeadsWhenFreed(w: World, job: LinkMachine.JobId, holder: nat, goal: Rows -> bool)
    requires Leads(Freed(w, job, holder), job, goal)
    ensures Leads(w, job, goal)
  {
    var e := Advance(holder, STOPS);
    LeadsFirst(Step(w, job, e), job, e, goal);
    LeadsFirst(w, job, e, goal);
  }

  predicate Blocked(w: World, id: nat) {
    id in w.runs && w.runs[id].AwaitLock? && w.lock.Some?
  }

  // ----- undoing a success -----

  predicate Succeeds(r: Rows) {
    r.turn.status == TurnSucceeded
  }

  /** A delivery that has not read the turn yet or can no longer record an outcome other than success. */
  predicate Harmless(r: Rows, ph: Phase) {
    ph.ReadTurn? || ph.FreezeLink? || ph.FailLink? || ph.Finish? || ph.Returned?
    || (ph.Created? && LinkMachine.ReadyRow(r.link, ph.chat, None, 0).None?)
  }

  ghost predicate AllHarmless(w: World) {
    forall id :: id in w.runs ==> Harmless(w.rows, w.runs[id])
  }

  lemma HarmlessStep(w: World, job: LinkMachine.JobId, e: Event)
    requires Sound(w) && Succeeds(w.rows) && AllHarmless(w)
    ensures var w' := Step(w, job, e); Succeeds(w'.rows) && AllHarmless(w')
  {
  }

  lemma {:induction false} HarmlessKeepSuccess(w: World, job: LinkMachine.JobId, es: seq<Event>)
    requires Sound(w) && Succeeds(w.rows) && AllHarmless(w)
    ensures Succeeds(Run(w, job, es).rows)
    decreases |es|
  {
    if es != [] {
      HarmlessStep(w, job, es[0]);
      RunKeepsSound(w, job, [es[0]]);
      RunCons(w, job, es[0], []);
      assert [es[0]] + [] == [es[0]];
      HarmlessKeepSuccess(Step(w, job, es[0]), job, es[1..]);
    }
  }

  function Undone(): Rows -> bool {
    (r: Rows) => !Succeeds(r)
  }

  const REFUSED := Env(false, false, false, true, Definitive, 0)

  lemma {:induction false} HarmfulUndoes(w: World, job: LinkMachine.JobId, id: nat)
    requires LockSound(w) && Succeeds(w.rows) && id in w.runs && !Harmless(w.rows, w.runs[id])
    ensures Leads(w, job, Undone())
    decreases StepsLeft(w.runs[id]), w.lock.Some?
  {
    var e := Advance(id, REFUSED);
    if Blocked(w, id) {
      HolderStops(w, job, w.lock.value);
      HarmfulUndoes(Freed(w, job, w.lock.value), job, id);
      LeadsWhenFreed(w, job, w.lock.value, Undone());
    } else {
      StepKeepsLockSound(w, job, e);
      if w.runs[id].RecordAmbiguous? || w.runs[id].RecordFailed? {
        LeadsNow(Step(w, job, e), job, Undone());
      } else {
        HarmfulUndoes(Step(w, job, e), job, id);
      }
      LeadsFirst(w, job, e, Undone());
    }
  }

  lemma LastsExactly(w: World, job: LinkMachine.JobId)
    requires Sound(w) && Succeeds(w.rows)
    ensures (forall es :: Succeeds(Run(w, job, es).rows)) <==> AllHarmless(w)
  {
    if AllHarmless(w) {
      forall es ensures Succeeds(Run(w, job, es).rows) { HarmlessKeepSuccess(w, job, es); }
    } else {
      var id :| id in w.runs && !Harmless(w.rows, w.runs[id]);
      HarmfulUndoes(w, job, id);
      var es :| Undone()(Run(w, job, es).rows);
      assert !Succeeds(Run(w, job, es).rows);
    }
  }

  /** From any state reached with the turn succeeded: it stays succeeded in every continuation if and only if no live
      delivery has already read the turn and may still act on what it read. */
  lemma SuccessLastsExactly(branch: LinkMachine.Branch, workspace: nat, job: LinkMachine.JobId, at: int,
                            before: seq<Event>)
    requires Succeeds(Run(Claimed(branch, workspace, job, at), job, before).rows)
    ensures var w := Run(Claimed(branch, workspace, job, at), job, before);
            (forall es :: Succeeds(Run(w, job, es).rows))
            <==> forall id :: id in w.runs ==> Harmless(w.rows, w.runs[id])
  {
    RunKeepsSound(Claimed(branch, workspace, job, at), job, before);
    LastsExactly(Run(Claimed(branch, workspace, job, at), job, before), job);
  }

  // ----- starting the chat again -----

  /** The delivery will begin the first attempt, or has begun one and not yet called the provider. */
  predicate MayStart(r: Rows, job: LinkMachine.JobId, ph: Phase) {
    match ph
    case ReadLink(a) => a == 0 && LinkMachine.AllowsInitialStartChat(r.link, job)
    case AwaitLock(a, l) => a == 0 && LinkMachine.AllowsInitialStartChat(l, job)
    case Dispatch(a, l) => a == 0 && LinkMachine.AllowsInitialStartChat(l, job)
    case Begin(_) => true
    case Start => true
    case _ => false
  }

  ghost predicate NoneMayStart(w: World, job: LinkMachine.JobId) {
    forall id :: id in w.runs ==> !MayStart(w.rows, job, w.runs[id])
  }

  lemma NoStartStep(w: World, job: LinkMachine.JobId, e: Event)
    requires w.rows.turn.attempt > 0 && NoneMayStart(w, job)
    ensures var w' := Step(w, job, e);
            w'.rows.turn.attempt > 0 && w'.rows.starts == w.rows.starts && NoneMayStart(w', job)
  {
    var w' := Step(w, job, e);
    forall id | id in w'.runs ensures !MayStart(w'.rows, job, w'.runs[id]) {
      assert id in w.runs ==> !MayStart(w.rows, job, w.runs[id]);
    }
  }

  lemma {:induction false} NoStartRun(w: World, job: LinkMachine.JobId, es: seq<Event>)
    requires w.rows.turn.attempt > 0 && NoneMayStart(w, job)
    ensures Run(w, job, es).rows.starts == w.rows.starts
    decreases |es|
  {
    if es != [] {
      NoStartStep(w, job, es[0]);
      NoStartRun(Step(w, job, es[0]), job, es[1..]);
    }
  }

  function MoreStarts(n: nat): Rows -> bool {
    (r: Rows) => r.starts > n
  }

  const UNSURE := Env(false, false, true, true, Transient, 0)

  lemma {:induction false} StarterStarts(w: World, job: LinkMachine.JobId, id: nat, n: nat)
    requires LockSound(w) && Guarded(w) && w.rows.starts >= n && id in w.runs && MayStart(w.rows, job, w.runs[id])
    ensures Leads(w, job, MoreStarts(n))
    decreases StepsLeft(w.runs[id]), w.lock.Some?
  {
    var e := Advance(id, UNSURE);
    if Blocked(w, id) {
      HolderStops(w, job, w.lock.value);
      StepKeepsGuarded(w, job, Advance(w.lock.value, STOPS));
      StepKeepsGuarded(Step(w, job, Advance(w.lock.value, STOPS)), job, Advance(w.lock.value, STOPS));
      StarterStarts(Freed(w, job, w.lock.value), job, id, n);
      LeadsWhenFreed(w, job, w.lock.value, MoreStarts(n));
    } else {
      StepKeepsLockSound(w, job, e);
      StepKeepsGuarded(w, job, e);
      if w.runs[id].Start? {
        LeadsNow(Step(w, job, e), job, MoreStarts(n));
      } else {
        StarterStarts(Step(w, job, e), job, id, n);
      }
      LeadsFirst(w, job, e, MoreStarts(n));
    }
  }

  lemma StartsNoMoreExactly(w: World, job: LinkMachine.JobId)
    requires Sound(w) && w.rows.starts > 0
    ensures (forall es :: Run(w, job, es).rows.starts == w.rows.starts) <==> NoneMayStart(w, job)
  {
    if NoneMayStart(w, job) {
      forall es ensures Run(w, job, es).rows.starts == w.rows.starts { NoStartRun(w, job, es); }
    } else {
      var id :| id in w.runs && MayStart(w.rows, job, w.runs[id]);
      StarterStarts(w, job, id, w.rows.starts);
      var es :| MoreStarts(w.rows.starts)(Run(w, job, es).rows);
      assert Run(w, job, es).rows.starts > w.rows.starts;
    }
  }

  /** From any state reached with the chat started: it is never started again if and only if no live delivery is at the
      start, on its way there with attempt 0 and a link it may start, or about to read such a link. */
  lemma NoFurtherStartExactly(branch: LinkMachine.Branch, workspace: nat, job: LinkMachine.JobId, at: int,
                              before: seq<Event>)
    requires Run(Claimed(branch, workspace, job, at), job, before).rows.starts > 0
    ensures var w := Run(Claimed(branch, workspace, job, at), job, before);
            (forall es :: Run(w, job, es).rows.starts == w.rows.starts)
            <==> forall id :: id in w.runs ==> !MayStart(w.rows, job, w.runs[id])
  {
    RunKeepsSound(Claimed(branch, workspace, job, at), job, before);
    StartsNoMoreExactly(Run(Claimed(branch, workspace, job, at), job, before), job);
  }

  // ----- replying again -----

  predicate Open(l: LinkMachine.Link) {
    l.state.Ready? || l.state.Ambiguous?
  }

  /** The delivery can still complete the turn, or leave it ambiguous on a link that the owner may then confirm. */
  predicate MayReply(r: Rows, job: LinkMachine.JobId, ph: Phase) {
    match ph
    case ReadLink(_) => r.link.state.Ready?
    case AwaitLock(_, l) => Open(r.link) && (l.state.Ready? || LinkMachine.AllowsInitialStartChat(l, job))
    case Dispatch(_, l) => Open(r.link) && (l.state.Ready? || LinkMachine.AllowsInitialStartChat(l, job))
    case Begin(_) => Open(r.link)
    case Start => Open(r.link)
    case Created(chat) => LinkMachine.ReadyRow(r.link, chat, None, 0).Some?
    case Answering => Open(r.link)
    case Continuing(_) => Open(r.link)
    case RecordAmbiguous => Open(r.link)
    case Finish => r.link.state.Ready?
    case _ => false
  }

  ghost predicate NoneMayReply(w: World, job: LinkMachine.JobId) {
    forall id :: id in w.runs ==> !MayReply(w.rows, job, w.runs[id])
  }

  /** No reply comes from a delivery, and none from the owner. */
  ghost predicate Quiet(w: World, job: LinkMachine.JobId) {
    && LockSound(w) && !w.rows.link.state.CreationPending? && !w.rows.turn.status.TurnPending?
    && (w.rows.turn.status.TurnAmbiguous? ==> !Open(w.rows.link))
    && NoneMayReply(w, job)
  }

  lemma QuietRowsStep(w: World, job: LinkMachine.JobId, e: Event)
    requires Quiet(w, job)
    ensures var r, r' := w.rows, Step(w, job, e).rows;
      && r'.replies == r.replies && !r'.link.state.CreationPending? && !r'.turn.status.TurnPending?
      && (r'.turn.status.TurnAmbiguous? ==> !Open(r'.link))
      && (r'.link.state.Ready? ==> r'.link == r.link) && (Open(r'.link) ==> Open(r.link))
      && (r'.link != r.link && r.link.state.Ready? ==> e.Advance? && w.lock == Some(e.id) && w.runs[e.id].FreezeLink?)
  {
  }

  lemma QuietStep(w: World, job: LinkMachine.JobId, e: Event)
    requires Quiet(w, job)
    ensures Quiet(Step(w, job, e), job) && Step(w, job, e).rows.replies == w.rows.replies
  {
    var w' := Step(w, job, e);
    StepKeepsLockSound(w, job, e);
    QuietRowsStep(w, job, e);
    forall id | id in w'.runs ensures !MayReply(w'.rows, job, w'.runs[id]) {
      assert id in w.runs ==> !MayReply(w.rows, job, w.runs[id]);
    }
  }

  lemma {:induction false} QuietRun(w: World, job: LinkMachine.JobId, es: seq<Event>)
    requires Quiet(w, job)
    ensures Run(w, job, es).rows.replies == w.rows.replies
    decreases |es|
  {
    if es != [] {
      QuietStep(w, job, es[0]);
      QuietRun(Step(w, job, es[0]), job, es[1..]);
    }
  }

  function MoreReplies(n: nat): Rows -> bool {
    (r: Rows) => r.replies > n
  }

  /** An outcome recorded as ambiguous freezes the link, and then the owner may confirm the chat with its answer. */
  lemma AmbiguousIsConfirmed(w: World, job: LinkMachine.JobId, id: nat, n: nat)
    requires id in w.runs && w.runs[id].RecordAmbiguous? && Open(w.rows.link) && w.rows.replies >= n
    ensures Leads(w, job, MoreReplies(n))
  {
    var e := Advance(id, UNSURE);
    var w1 := Step(w, job, e);
    var w2 := Step(w1, job, e);
    assert w2.rows.link.state.Ambiguous? && w2.rows.turn.status == TurnAmbiguous;
    var chat := if w2.rows.link.chat.Some? then w2.rows.link.chat.value else "c";
    var confirm := OwnerConfirm(chat, true, 0);
    LeadsNow(Step(w2, job, confirm), job, MoreReplies(n));
    LeadsFirst(w2, job, confirm, MoreReplies(n));
    LeadsFirst(w1, job, e, MoreReplies(n));
    LeadsFirst(w, job, e, MoreReplies(n));
  }

  lemma {:induction false} ReplierReplies(w: World, job: LinkMachine.JobId, id: nat, n: nat)
    requires LockSound(w) && !w.rows.link.state.CreationPending?
    requires w.rows.replies >= n && id in w.runs && MayReply(w.rows, job, w.runs[id])
    ensures Leads(w, job, MoreReplies(n))
    decreases StepsLeft(w.runs[id]), w.lock.Some?
  {
    var e := Advance(id, UNSURE);
    if Blocked(w, id) {
      HolderStops(w, job, w.lock.value);
      ReplierReplies(Freed(w, job, w.lock.value), job, id, n);
      LeadsWhenFreed(w, job, w.lock.value, MoreReplies(n));
    } else if w.runs[id].RecordAmbiguous? {
      AmbiguousIsConfirmed(w, job, id, n);
    } else {
      StepKeepsLockSound(w, job, e);
      if w.runs[id].Finish? {
        LeadsNow(Step(w, job, e), job, MoreReplies(n));
      } else {
        ReplierReplies(Step(w, job, e), job, id, n);
      }
      LeadsFirst(w, job, e, MoreReplies(n));
    }
  }

  lemma RepliesNoMoreExactly(w: World, job: LinkMachine.JobId)
    requires Sound(w) && Succeeds(w.rows)
    ensures (forall es :: Run(w, job, es).rows.replies == w.rows.replies) <==> NoneMayReply(w, job)
  {
    if NoneMayReply(w, job) {
      forall es ensures Run(w, job, es).rows.replies == w.rows.replies { QuietRun(w, job, es); }
    } else {
      var id :| id in w.runs && MayReply(w.rows, job, w.runs[id]);
      ReplierReplies(w, job, id, w.rows.replies);
      var es :| MoreReplies(w.rows.replies)(Run(w, job, es).rows);
      assert Run(w, job, es).rows.replies > w.rows.replies;
    }
  }

  /** From any state reached with the turn succeeded: no further reply is written if and only if no live delivery may
      still reply. */
  lemma NoFurtherReplyExactly(branch: LinkMachine.Branch, workspace: nat, job: LinkMachine.JobId, at: int,
                              before: seq<Event>)
    requires Succeeds(Run(Claimed(branch, workspace, job, at), job, before).rows)
    ensures var w := Run(Claimed(branch, workspace, job, at), job, before);
            (forall es :: Run(w, job, es).rows.replies == w.rows.replies)
            <==> forall id :: id in w.runs ==> !MayReply(w.rows, job, w.runs[id])
  {
    RunKeepsSound(Claimed(branch, workspace, job, at), job, before);
    RepliesNoMoreExactly(Run(Claimed(branch, workspace, job, at), job, before), job);
  }

  // ----- a second reply -----

  lemma SecondRepliesToo(l: LinkMachine.Link, job: LinkMachine.JobId)
    requires Unstarted(l, job)
    ensures var g := Advance(2, OK);
            Run(Two(Succeeded(l), None, Returned, AwaitLock(1, Succeeded(l).link)), job, [g, g, g, g]).rows.replies == 2
  {
    var g := Advance(2, OK);
    var done := Succeeded(l);
    var w0 := Two(done, None, Returned, AwaitLock(1, done.link));
    var w1 := Step(w0, job, g);
    assert w1.rows == done && w1.runs[2] == Dispatch(1, done.link);
    var w2 := Step(w1, job, g);
    assert w2.rows == done && w2.runs[2] == Continuing(1);
    var w3 := Step(w2, job, g);
    assert w3.rows.link == done.link && w3.rows.replies == 1 && w3.runs[2] == Finish;
    RunFour(w0, job, g);
  }

  lemma FirstFinishes(l: LinkMachine.Link, job: LinkMachine.JobId, second: Phase)
    requires Unstarted(l, job)
    ensures var g := Advance(1, OK);
            Run(Two(Fresh(Succeeded(l).link, 1, 1), Some(1), Answering, second), job, [g, g])
            == Two(Succeeded(l), None, Returned, second)
  {
    var g := Advance(1, OK);
    var r := Fresh(Succeeded(l).link, 1, 1);
    assert [g, g] == [g] + [g] && [g] == [g] + [];
    RunCons(Two(r, Some(1), Answering, second), job, g, [g]);
    AdvanceFirst(r, job, Answering, second);
    RunCons(Two(r, Some(1), Finish, second), job, g, []);
    AdvanceFirst(r, job, Finish, second);
  }

  /** The second delivery reads the pending turn and the ready link while the first waits for the answer. */
  function AnswerTwiceEvents(): seq<Event> {
    var g1, g2 := Advance(1, OK), Advance(2, OK);
    [Deliver(1), Deliver(2), g1, g1] + ([g1, g1, g1, g1] + ([g1] + ([g2, g2] + ([g1, g1] + [g2, g2, g2, g2]))))
  }

  lemma AnsweredTwice(l: LinkMachine.Link, job: LinkMachine.JobId)
    requires Unstarted(l, job)
    ensures var g1, g2 := Advance(1, OK), Advance(2, OK);
            Run(Two(Fresh(Succeeded(l).link, 1, 1), Some(1), Answering, ReadTurn), job,
                [g2, g2] + ([g1, g1] + [g2, g2, g2, g2])).rows.replies == 2
  {
    var g1, g2 := Advance(1, OK), Advance(2, OK);
    var r := Fresh(Succeeded(l).link, 1, 1);
    RunAppend(Two(r, Some(1), Answering, ReadTurn), job, [g2, g2], [g1, g1] + [g2, g2, g2, g2]);
    SecondReads(r, Some(1), Answering, job);
    RunAppend(Two(r, Some(1), Answering, AwaitLock(1, r.link)), job, [g1, g1], [g2, g2, g2, g2]);
    FirstFinishes(l, job, AwaitLock(1, r.link));
    SecondRepliesToo(l, job);
  }

  /** Completing a turn does not look at its status: two deliveries that overlap at the answer write two replies. */
  lemma OverlapRepliesTwice(branch: LinkMachine.Branch, workspace: nat, job: LinkMachine.JobId, at: int)
    ensures Run(Claimed(branch, workspace, job, at), job, AnswerTwiceEvents()).rows.replies == 2
  {
    var w := Claimed(branch, workspace, job, at);
    var l := w.rows.link;
    var g1, g2 := Advance(1, OK), Advance(2, OK);
    var tail := [g2, g2] + ([g1, g1] + [g2, g2, g2, g2]);
    FirstWaits(branch, workspace, job, at);
    RunAppend(w, job, [Deliver(1), Deliver(2), g1, g1], [g1, g1, g1, g1] + ([g1] + tail));
    FirstDeliveryStarts(l, job, ReadTurn);
    RunAppend(Two(Fresh(l, 0, 0), None, AwaitLock(0, l), ReadTurn), job, [g1, g1, g1, g1], [g1] + tail);
    FirstMarksReady(l, job, ReadTurn);
    RunCons(Two(Fresh(l, 1, 1), Some(1), Created("c"), ReadTurn), job, g1, tail);
    AnsweredTwice(l, job);
  }
}
