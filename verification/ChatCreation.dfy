/** The first turn of a branch: the one-shot StartChat, deliveries of the turn's job interleaving with owner
    recovery, and exactly what overlapping deliveries break. */
module ChatCreation {
  import opened Wrappers
  import opened LinkMachine

  datatype TurnStatus = TurnPending | TurnSucceeded | TurnFailed | TurnAmbiguous | TurnCancelled
  datatype Turn = Turn(attempt: nat, status: TurnStatus)

  // ----- the handler, one read, write or provider call at a time -----

  datatype Phase =
    | ReadTurn
    | ReadLink(attempt: nat)
    | AwaitLock(attempt: nat, link: Link)     // both rows were read before the thread's lock is asked for
    | Dispatch(attempt: nat, link: Link)      // holds the lock; decides on what it read
    | Begin(attempt: nat)
    | Start
    | Created(chat: Chat)                     // the remote chat exists; about to mark the link ready
    | Answering                               // the bundled first turn
    | Continuing(attempt: nat)                // a ready link's turn
    | RecordAmbiguous
    | FreezeLink
    | RecordFailed(failLink: bool)
    | FailLink
    | Finish
    | Returned

  datatype Answer = Success(chat: Chat) | Definitive | Transient
  /** What the environment answers: a failing storage call, a cancelled context, eligibility (under the lock: whether
      the path to the turn can be built), the provider. */
  datatype Env = Env(fault: bool, cancelled: bool, eligible: bool, lastAttempt: bool, answer: Answer, at: int)

  /** The branch's rows, and counts of provider calls and of assistant replies written. */
  datatype Rows = Rows(link: Link, turn: Turn, starts: nat, replies: nat)

  function WithLink(r: Rows, row: Option<Link>): Rows {
    if row.Some? then r.(link := row.value) else r
  }

  function HandlerStep(r: Rows, job: JobId, ph: Phase, env: Env): (Rows, Phase) {
    match ph
    case ReadTurn =>
      (r, if env.fault || r.turn.status != TurnPending then Returned else ReadLink(r.turn.attempt))
    case ReadLink(attempt) =>
      (r, if env.fault then Returned
          else if !env.eligible then RecordFailed(r.link.state == CreationPending)
          else AwaitLock(attempt, r.link))
    case AwaitLock(attempt, link) => (r, if env.cancelled then Returned else Dispatch(attempt, link))
    case Dispatch(attempt, link) =>
      (r, if !env.eligible then RecordFailed(link.state == CreationPending) else
          match link.state
          case CreationPending =>
            if !AllowsInitialStartChat(link, job) then RecordFailed(true)
            else if attempt > 0 then RecordAmbiguous
            else Begin(attempt)
          case Ready => Continuing(attempt)
          case _ => RecordFailed(false))
    case Begin(attempt) =>
      if env.fault then (r, Returned) else (r.(turn := r.turn.(attempt := attempt + 1)), Start)
    case Start =>
      (r.(starts := r.starts + 1),
       match env.answer
       case Success(chat) => Created(chat)
       case Definitive => RecordFailed(true)
       case Transient => if env.cancelled then Returned else RecordAmbiguous)
    case Created(chat) =>
      var row := ReadyRow(r.link, chat, None, env.at);
      if env.fault || row.None? then (r, Returned) else (WithLink(r, row), Answering)
    case Answering =>
      (r, match env.answer
          case Success(_) => Finish
          case Definitive => RecordFailed(true)
          case Transient => if env.lastAttempt && !env.cancelled then RecordAmbiguous else Returned)
    case Continuing(attempt) =>
      if env.fault then (r, Returned)
      else (r.(turn := r.turn.(attempt := attempt + 1)),
            match env.answer
            case Success(_) => Finish
            case Definitive => RecordFailed(false)
            case Transient => if env.lastAttempt && !env.cancelled then RecordAmbiguous else Returned)
    case RecordAmbiguous =>
      if env.fault then (r, Returned) else (r.(turn := r.turn.(status := TurnAmbiguous)), FreezeLink)
    case FreezeLink =>
      (if env.fault then r else WithLink(r, AmbiguousRow(r.link, env.at)), Returned)
    case RecordFailed(failLink) =>
      if env.fault then (r, Returned)
      else (r.(turn := r.turn.(status := TurnFailed)), if failLink then FailLink else Returned)
    case FailLink =>
      (if env.fault then r else WithLink(r, TerminalRow(r.link, Failed, CreationPending, "", env.at)), Returned)
    case Finish =>
      if env.fault || r.link.state != Ready then (r, Returned)
      else (r.(turn := r.turn.(status := TurnSucceeded), replies := r.replies + 1), Returned)
    case Returned => (r, Returned)
  }

  /** The longest way from a position to the end of a delivery. */
  function StepsLeft(ph: Phase): nat {
    match ph
    case ReadTurn => 10
    case ReadLink(_) => 9
    case AwaitLock(_, _) => 8
    case Dispatch(_, _) => 7
    case Begin(_) => 6
    case Start => 5
    case Created(_) => 4
    case Answering => 3
    case Continuing(_) => 3
    case RecordAmbiguous => 2
    case RecordFailed(_) => 2
    case FreezeLink => 1
    case FailLink => 1
    case Finish => 1
    case Returned => 0
  }

  // ----- deliveries, crashes and owner recovery interleaved -----

  /** `lock` names the delivery holding the thread's lock. */
  datatype World = World(rows: Rows, lock: Option<nat>, runs: map<nat, Phase>)

  datatype Event =
    | Deliver(id: nat)
    | Advance(id: nat, env: Env)
    | Crash                                   // the process dies: every handler and every lock is gone
    | OwnerFreeze(jobTerminal: bool, at: int)
    | OwnerConfirm(chat: Chat, recovered: bool, at: int)
    | OwnerAbandon(at: int)

  predicate Recoverable(t: Turn) {
    t.status == TurnPending || t.status == TurnAmbiguous
  }

  predicate Live(w: World, id: nat) {
    id in w.runs && w.runs[id] != Returned
  }

  function Step(w: World, job: JobId, e: Event): World {
    match e
    case Deliver(id) => if id in w.runs then w else w.(runs := w.runs[id := ReadTurn])
    case Advance(id, env) =>
      if !Live(w, id) || (w.runs[id].AwaitLock? && !env.cancelled && w.lock.Some?) then w else
      var (rows, ph) := HandlerStep(w.rows, job, w.runs[id], env);
      var lock := if ph == Returned && w.lock == Some(id) then None
                  else if ph.Dispatch? then Some(id) else w.lock;
      World(rows, lock, w.runs[id := ph])
    case Crash => w.(runs := map[], lock := None)
    case OwnerFreeze(jobTerminal, at) =>
      if w.rows.link.state != CreationPending || !jobTerminal then w
      else w.(rows := WithLink(w.rows, AmbiguousRow(w.rows.link, at)))
    case OwnerConfirm(chat, recovered, at) =>
      var row := ReadyRow(w.rows.link, chat, None, at);
      if w.rows.link.state != Ambiguous || row.None?
         || !Recoverable(w.rows.turn) then w
      else if recovered then
        w.(rows := WithLink(w.rows, row).(turn := w.rows.turn.(status := TurnSucceeded), replies := w.rows.replies + 1))
      else w.(rows := WithLink(w.rows, row).(turn := w.rows.turn.(status := TurnFailed)))
    case OwnerAbandon(at) =>
      if w.rows.link.state != Ambiguous then w
      else
        var turn := if Recoverable(w.rows.turn) then w.rows.turn.(status := TurnCancelled) else w.rows.turn;
        w.(rows := WithLink(w.rows, TerminalRow(w.rows.link, Dead, Ambiguous, "", at)).(turn := turn))
  }

  function Run(w: World, job: JobId, es: seq<Event>): World
    decreases |es|
  {
    if es == [] then w else Run(Step(w, job, es[0]), job, es[1..])
  }

  /** The branch as the bridge claims it. */
  function Claimed(branch: Branch, workspace: nat, job: JobId, at: int): World {
    World(Rows(Link(branch, workspace, CreationPending, Some(job), None, None, None, None, at),
               Turn(0, TurnPending), 0, 0), None, map[])
  }

  /** What the owner's three commands do: a pending link whose job is over is frozen; an ambiguous one becomes ready on
      its chat, its turn completed with the recovered answer or failed; or it is given up and its turn cancelled. Each
      changes nothing where the link, the chat or the turn does not allow it, and none asks the provider for a chat. */
  lemma OwnerDecides(w: World, job: JobId, chat: Chat, at: int)
    ensures var r, frozen := w.rows, Step(w, job, OwnerFreeze(true, at)).rows;
            && Step(w, job, OwnerFreeze(false, at)) == w
            && frozen == (if r.link.state == CreationPending
                          then r.(link := r.link.(state := Ambiguous, lastTransitionAt := at)) else r)
    ensures var r := w.rows;
            var done, lost := Step(w, job, OwnerConfirm(chat, true, at)).rows,
                              Step(w, job, OwnerConfirm(chat, false, at)).rows;
            if r.link.state == Ambiguous && (r.link.chat == None || r.link.chat == Some(chat))
               && r.turn.status in {TurnPending, TurnAmbiguous}
            then
              && done.link == lost.link && done.link.state == Ready && done.link.chat == Some(chat)
              && done == Rows(done.link, Turn(r.turn.attempt, TurnSucceeded), r.starts, r.replies + 1)
              && lost == Rows(done.link, Turn(r.turn.attempt, TurnFailed), r.starts, r.replies)
            else done == lost == r
    ensures var r, given := w.rows, Step(w, job, OwnerAbandon(at)).rows;
            if r.link.state == Ambiguous then
              && given.link == r.link.(state := Dead, category := given.link.category, lastTransitionAt := at)
              && given.link.category.Some? && given.starts == r.starts && given.replies == r.replies
              && given.turn == (if r.turn.status in {TurnPending, TurnAmbiguous}
                                then Turn(r.turn.attempt, TurnCancelled) else r.turn)
            else given == r
  {
  }

  /** A crash leaves the rows and no handler or lock. */
  lemma CrashKeepsRows(w: World, job: JobId)
    ensures Step(w, job, Crash) == World(w.rows, None, map[])
  {
  }

  // ----- deliveries that do not overlap -----

  predicate Idle(w: World) {
    forall id :: id in w.runs ==> w.runs[id] == Returned
  }

  /** A delivery begins, the job counts as terminal, and the owner confirms, only while no handler is live. */
  predicate Exclusive(w: World, e: Event) {
    e.Deliver? || (e.OwnerFreeze? && e.jobTerminal) || e.OwnerConfirm? ==> Idle(w)
  }

  ghost predicate ExclusiveRun(w: World, job: JobId, es: seq<Event>)
    decreases |es|
  {
    es == [] || (Exclusive(w, es[0]) && ExclusiveRun(Step(w, job, es[0]), job, es[1..]))
  }

  ghost predicate RowsSafe(r: Rows) {
    && RowSafe(r.link)
    && r.starts <= 1
    && (r.starts == 1 ==> r.turn.attempt > 0)
    && r.replies == (if r.turn.status == TurnSucceeded then 1 else 0)
  }

  /** A snapshot of a pending or ready link is still what the row says. */
  predicate Current(link: Link, snapshot: Link) {
    snapshot.state == CreationPending || snapshot.state == Ready ==> snapshot == link
  }

  /** The turn is pending, or was cancelled when the owner abandoned its link. */
  predicate Undecided(r: Rows) {
    r.turn.status == TurnPending || (r.turn.status == TurnCancelled && r.link.state == Dead)
  }

  /** What a live delivery's position says about the rows while it is the only one. */
  ghost predicate PhaseSafe(r: Rows, ph: Phase) {
    match ph
    case ReadTurn => true
    case ReadLink(a) => Undecided(r) && a == r.turn.attempt
    case AwaitLock(a, l) => Undecided(r) && a == r.turn.attempt && Current(r.link, l)
    case Dispatch(a, l) => Undecided(r) && a == r.turn.attempt && Current(r.link, l)
    case Begin(a) => r.turn.status == TurnPending && a == r.turn.attempt == 0 && r.link.state == CreationPending
    case Start => r.turn.status == TurnPending && r.starts == 0 && r.turn.attempt > 0 && r.link.state == CreationPending
    case Created(_) => r.turn.status == TurnPending && r.link.state == CreationPending
    case Answering => r.turn.status == TurnPending && r.link.state == Ready
    case Continuing(a) => r.turn.status == TurnPending && a == r.turn.attempt && r.link.state == Ready
    case RecordAmbiguous => r.turn.status == TurnPending && r.link.state != Ambiguous
    case FreezeLink => r.turn.status == TurnAmbiguous && r.link.state != Ambiguous
    case RecordFailed(_) => Undecided(r)
    case FailLink => r.turn.status == TurnFailed
    case Finish => r.turn.status == TurnPending && r.link.state == Ready
    case Returned => true
  }

  ghost predicate Safe(w: World) {
    && RowsSafe(w.rows)
    && (forall id :: Live(w, id) ==> PhaseSafe(w.rows, w.runs[id]))
    && (forall a, b :: Live(w, a) && Live(w, b) ==> a == b)
  }

  lemma HandlerKeepsSafe(r: Rows, job: JobId, ph: Phase, env: Env)
    requires RowsSafe(r) && PhaseSafe(r, ph)
    ensures var (r', ph') := HandlerStep(r, job, ph, env);
            RowsSafe(r') && PhaseSafe(r', ph')
  {
  }

  lemma OwnerKeepsSafe(w: World, job: JobId, e: Event)
    requires Safe(w) && Exclusive(w, e) && (e.OwnerFreeze? || e.OwnerConfirm? || e.OwnerAbandon?)
    ensures Safe(Step(w, job, e))
  {
    var w' := Step(w, job, e);
    assert RowsSafe(w'.rows) && w'.runs == w.runs;
    forall a, b | Live(w', a) && Live(w', b) ensures a == b {
      assert Live(w, a) && Live(w, b);
    }
    forall id | Live(w', id) ensures PhaseSafe(w'.rows, w'.runs[id]) {
      assert Live(w, id);
      assert PhaseSafe(w.rows, w.runs[id]);
    }
  }

  lemma StepKeepsSafe(w: World, job: JobId, e: Event)
    requires Safe(w) && Exclusive(w, e)
    ensures Safe(Step(w, job, e))
  {
    var w' := Step(w, job, e);
    match e {
      case Deliver(id) =>
      case Advance(id, env) =>
        if Live(w, id) {
          HandlerKeepsSafe(w.rows, job, w.runs[id], env);
          forall other | Live(w', other) ensures other == id { assert Live(w, other); }
        }
      case Crash =>
      case _ => OwnerKeepsSafe(w, job, e);
    }
  }

  lemma {:induction false} RunKeepsSafe(w: World, job: JobId, es: seq<Event>)
    requires Safe(w) && ExclusiveRun(w, job, es)
    ensures Safe(Run(w, job, es))
    decreases |es|
  {
    if es != [] {
      StepKeepsSafe(w, job, es[0]);
      RunKeepsSafe(Step(w, job, es[0]), job, es[1..]);
    }
  }

  /** Whatever crashes, failed writes, provider answers and owner decisions occur: as long as no delivery, freeze
      or confirmation happens beside a live handler, the provider is asked to start the chat at most once, at
      most one reply is written, and one is written exactly when the turn succeeded. */
  lemma StartsAtMostOneChat(branch: Branch, workspace: nat, job: JobId, at: int, es: seq<Event>)
    requires ExclusiveRun(Claimed(branch, workspace, job, at), job, es)
    ensures var r := Run(Claimed(branch, workspace, job, at), job, es).rows;
      r.starts <= 1 && RowSafe(r.link) && r.replies == if r.turn.status == TurnSucceeded then 1 else 0
  {
    RunKeepsSafe(Claimed(branch, workspace, job, at), job, es);
  }

  // ----- deliveries that overlap -----

  const OK: Env := Env(false, false, true, false, Success("c"), 0)

  function Two(r: Rows, lock: Option<nat>, first: Phase, second: Phase): World {
    World(r, lock, map[1 := first, 2 := second])
  }

  function Fresh(l: Link, attempt: nat, starts: nat): Rows {
    Rows(l, Turn(attempt, TurnPending), starts, 0)
  }

  lemma RunCons(w: World, job: JobId, e: Event, es: seq<Event>)
    ensures Run(w, job, [e] + es) == Run(Step(w, job, e), job, es)
  {
    assert ([e] + es)[1..] == es;
  }

  lemma RunThree(w: World, job: JobId, e: Event)
    ensures Run(w, job, [e, e, e]) == Step(Step(Step(w, job, e), job, e), job, e)
  {
    var w1 := Step(w, job, e);
    var w2 := Step(w1, job, e);
    assert [e, e, e] == [e] + [e, e] && [e, e] == [e] + [e] && [e] == [e] + [];
    RunCons(w, job, e, [e, e]); RunCons(w1, job, e, [e]); RunCons(w2, job, e, []);
  }

  lemma RunFour(w: World, job: JobId, e: Event)
    ensures Run(w, job, [e, e, e, e]) == Step(Step(Step(Step(w, job, e), job, e), job, e), job, e)
  {
    var w1 := Step(w, job, e);
    var w2 := Step(w1, job, e);
    var w3 := Step(w2, job, e);
    assert [e, e, e, e] == [e] + [e, e, e] && [e, e, e] == [e] + [e, e] && [e, e] == [e] + [e] && [e] == [e] + [];
    RunCons(w, job, e, [e, e, e]); RunCons(w1, job, e, [e, e]); RunCons(w2, job, e, [e]); RunCons(w3, job, e, []);
  }

  lemma {:induction false} RunAppend(w: World, job: JobId, es: seq<Event>, fs: seq<Event>)
    ensures Run(w, job, es + fs) == Run(Run(w, job, es), job, fs)
    decreases |es|
  {
    if es == [] {
      assert es + fs == fs;
    } else {
      assert (es + fs)[1..] == es[1..] + fs;
      RunAppend(Step(w, job, es[0]), job, es[1..], fs);
    }
  }

  predicate Unstarted(l: Link, job: JobId) {
    l.state == CreationPending && l.claimJob == Some(job) && l.chat == None && l.readyAt == None
  }

  /** One step of the first of two deliveries, when it is not waiting for the lock. */
  lemma AdvanceFirst(r: Rows, job: JobId, first: Phase, second: Phase)
    requires first != Returned && !first.AwaitLock?
    ensures var (r', ph) := HandlerStep(r, job, first, OK);
            Step(Two(r, Some(1), first, second), job, Advance(1, OK))
            == Two(r', if ph == Returned then None else Some(1), ph, second)
  {
    var (r', ph) := HandlerStep(r, job, first, OK);
    var runs := map[1 := first, 2 := second];
    assert runs[1 := ph] == map[1 := ph, 2 := second];
  }

  lemma FirstTakesLock(l: Link, job: JobId, second: Phase)
    requires Unstarted(l, job)
    ensures Step(Two(Fresh(l, 0, 0), None, AwaitLock(0, l), second), job, Advance(1, OK))
         == Two(Fresh(l, 0, 0), Some(1), Dispatch(0, l), second)
  {
    assert map[1 := AwaitLock(0, l), 2 := second][1 := Dispatch(0, l)] == map[1 := Dispatch(0, l), 2 := second];
  }

  lemma FirstDeliveryStarts(l: Link, job: JobId, second: Phase)
    requires Unstarted(l, job)
    ensures var g := Advance(1, OK);
            Run(Two(Fresh(l, 0, 0), None, AwaitLock(0, l), second), job, [g, g, g, g])
            == Two(Fresh(l, 1, 1), Some(1), Created("c"), second)
  {
    RunFour(Two(Fresh(l, 0, 0), None, AwaitLock(0, l), second), job, Advance(1, OK));
    FirstTakesLock(l, job, second);
    AdvanceFirst(Fresh(l, 0, 0), job, Dispatch(0, l), second);
    AdvanceFirst(Fresh(l, 0, 0), job, Begin(0), second);
    AdvanceFirst(Fresh(l, 1, 0), job, Start, second);
  }

  function Succeeded(l: Link): Rows {
    Rows(l.(state := Ready, chat := Some("c"), readyAt := Some(0), lastTransitionAt := 0), Turn(1, TurnSucceeded), 1, 1)
  }

  lemma FirstMarksReady(l: Link, job: JobId, second: Phase)
    requires Unstarted(l, job)
    ensures Step(Two(Fresh(l, 1, 1), Some(1), Created("c"), second), job, Advance(1, OK))
         == Two(Fresh(Succeeded(l).link, 1, 1), Some(1), Answering, second)
  {
    AdvanceFirst(Fresh(l, 1, 1), job, Created("c"), second);
  }

  lemma FirstDeliverySucceeds(l: Link, job: JobId, second: Phase)
    requires Unstarted(l, job)
    ensures var g := Advance(1, OK);
            Run(Two(Fresh(l, 1, 1), Some(1), Created("c"), second), job, [g, g, g])
            == Two(Succeeded(l), None, Returned, second)
  {
    var g := Advance(1, OK);
    var ready := Succeeded(l).link;
    RunThree(Two(Fresh(l, 1, 1), Some(1), Created("c"), second), job, g);
    FirstMarksReady(l, job, second);
    AdvanceFirst(Fresh(ready, 1, 1), job, Answering, second);
    AdvanceFirst(Fresh(ready, 1, 1), job, Finish, second);
  }

  lemma SecondDeliveryStartsAgain(done: Rows, l: Link, job: JobId)
    requires l.state == CreationPending && l.claimJob == Some(job) && done.starts == 1
    ensures var g := Advance(2, OK);
            Run(Two(done, None, Returned, AwaitLock(0, l)), job, [g, g, g, g]).rows.starts == 2
  {
    var g := Advance(2, OK);
    var w0 := Two(done, None, Returned, AwaitLock(0, l));
    var w1 := Step(w0, job, g);
    assert w1 == Two(done, Some(2), Returned, Dispatch(0, l));
    var w2 := Step(w1, job, g);
    assert w2 == Two(done, Some(2), Returned, Begin(0));
    var w3 := Step(w2, job, g);
    assert w3.runs[2] == Start;
    var w4 := Step(w3, job, g);
    assert w4.rows.starts == 2;
    RunFour(w0, job, g);
  }

  lemma ThreeLegs(w: World, job: JobId, a: seq<Event>, b: seq<Event>, c: seq<Event>)
    ensures Run(w, job, a + b + c) == Run(Run(Run(w, job, a), job, b), job, c)
  {
    RunAppend(w, job, a, b);
    RunAppend(w, job, a + b, c);
  }

  /** The first delivery runs to its end, then the second gets the lock. */
  function TwoChatEvents(): seq<Event> {
    var g1, g2 := Advance(1, OK), Advance(2, OK);
    [g1, g1, g1, g1] + [g1, g1, g1] + [g2, g2, g2, g2]
  }

  lemma TwoWaitersStartTwice(l: Link, job: JobId)
    requires Unstarted(l, job)
    ensures Run(Two(Fresh(l, 0, 0), None, AwaitLock(0, l), AwaitLock(0, l)), job, TwoChatEvents()).rows.starts == 2
  {
    var g1, g2 := Advance(1, OK), Advance(2, OK);
    ThreeLegs(Two(Fresh(l, 0, 0), None, AwaitLock(0, l), AwaitLock(0, l)), job,
              [g1, g1, g1, g1], [g1, g1, g1], [g2, g2, g2, g2]);
    FirstDeliveryStarts(l, job, AwaitLock(0, l));
    FirstDeliverySucceeds(l, job, AwaitLock(0, l));
    SecondDeliveryStartsAgain(Succeeded(l), l, job);
  }

  lemma FirstWaits(branch: Branch, workspace: nat, job: JobId, at: int)
    ensures var w := Claimed(branch, workspace, job, at);
            var l := w.rows.link;
            Run(w, job, [Deliver(1), Deliver(2), Advance(1, OK), Advance(1, OK)])
            == Two(Fresh(l, 0, 0), None, AwaitLock(0, l), ReadTurn)
  {
    var w := Claimed(branch, workspace, job, at);
    var l, r := w.rows.link, w.rows;
    var g := Advance(1, OK);
    assert [Deliver(1), Deliver(2), g, g] == [Deliver(1)] + [Deliver(2), g, g];
    assert [Deliver(2), g, g] == [Deliver(2)] + [g, g] && [g, g] == [g] + [g] && [g] == [g] + [];
    RunCons(w, job, Deliver(1), [Deliver(2), g, g]);
    var w1 := Step(w, job, Deliver(1));
    RunCons(w1, job, Deliver(2), [g, g]);
    assert Step(w1, job, Deliver(2)) == Two(r, None, ReadTurn, ReadTurn);
    RunCons(Two(r, None, ReadTurn, ReadTurn), job, g, [g]);
    assert Step(Two(r, None, ReadTurn, ReadTurn), job, g) == Two(r, None, ReadLink(0), ReadTurn);
    RunCons(Two(r, None, ReadLink(0), ReadTurn), job, g, []);
    assert Step(Two(r, None, ReadLink(0), ReadTurn), job, g) == Two(r, None, AwaitLock(0, l), ReadTurn);
  }

  lemma SecondReads(r: Rows, lock: Option<nat>, first: Phase, job: JobId)
    requires r.turn.status == TurnPending
    ensures var g := Advance(2, OK);
            Run(Two(r, lock, first, ReadTurn), job, [g, g]) == Two(r, lock, first, AwaitLock(r.turn.attempt, r.link))
  {
    var g := Advance(2, OK);
    var a, l := r.turn.attempt, r.link;
    assert [g, g] == [g] + [g] && [g] == [g] + [];
    RunCons(Two(r, lock, first, ReadTurn), job, g, [g]);
    SecondSteps(r, lock, first, job, ReadTurn);
    RunCons(Two(r, lock, first, ReadLink(a)), job, g, []);
    SecondSteps(r, lock, first, job, ReadLink(a));
  }

  lemma SecondSteps(r: Rows, lock: Option<nat>, first: Phase, job: JobId, second: Phase)
    requires r.turn.status == TurnPending && (second.ReadTurn? || second.ReadLink?)
    ensures Step(Two(r, lock, first, second), job, Advance(2, OK))
         == Two(r, lock, first, HandlerStep(r, job, second, OK).1)
  {
    var ph := HandlerStep(r, job, second, OK).1;
    assert map[1 := first, 2 := second][2 := ph] == map[1 := first, 2 := ph];
  }

  /** Both deliveries begin and read the turn and the link. */
  function BothWaitEvents(): seq<Event> {
    [Deliver(1), Deliver(2), Advance(1, OK), Advance(1, OK)] + [Advance(2, OK), Advance(2, OK)]
  }

  lemma BothWait(branch: Branch, workspace: nat, job: JobId, at: int)
    ensures var w := Claimed(branch, workspace, job, at);
            var l := w.rows.link;
            Run(w, job, BothWaitEvents()) == Two(Fresh(l, 0, 0), None, AwaitLock(0, l), AwaitLock(0, l))
  {
    var w := Claimed(branch, workspace, job, at);
    FirstWaits(branch, workspace, job, at);
    RunAppend(w, job, [Deliver(1), Deliver(2), Advance(1, OK), Advance(1, OK)], [Advance(2, OK), Advance(2, OK)]);
    SecondReads(Fresh(w.rows.link, 0, 0), None, AwaitLock(0, w.rows.link), job);
  }

  /** The thread's lock does not help: both deliveries read turn and link before asking for it, and nothing is
      read again under the lock. Two deliveries that overlap at the wait start two remote chats, the second
      after the first succeeded. */
  lemma OverlapStartsTwoChats(branch: Branch, workspace: nat, job: JobId, at: int)
    ensures Run(Claimed(branch, workspace, job, at), job, BothWaitEvents() + TwoChatEvents()).rows.starts == 2
  {
    var l := Claimed(branch, workspace, job, at).rows.link;
    BothWait(branch, workspace, job, at);
    TwoWaitersStartTwice(l, job);
    RunAppend(Claimed(branch, workspace, job, at), job, BothWaitEvents(), TwoChatEvents());
  }

  // ----- the step that makes a second chat possible -----

  /** A delivery begins its attempt although the chat was already started. */
  predicate LateBegin(w: World, e: Event) {
    e.Advance? && Live(w, e.id) && w.runs[e.id].Begin? && !e.env.fault && w.rows.starts > 0
  }

  ghost predicate NeverLate(w: World, job: JobId, es: seq<Event>)
    decreases |es|
  {
    es == [] || (!LateBegin(w, es[0]) && NeverLate(Step(w, job, es[0]), job, es[1..]))
  }

  /** A delivery begins its attempt although the turn's attempt is no longer the one it read. */
  predicate Overtaken(w: World, e: Event) {
    e.Advance? && Live(w, e.id) && w.runs[e.id].Begin? && !e.env.fault && w.rows.turn.attempt != w.runs[e.id].attempt
  }

  ghost predicate NeverOvertaken(w: World, job: JobId, es: seq<Event>)
    decreases |es|
  {
    es == [] || (!Overtaken(w, es[0]) && NeverOvertaken(Step(w, job, es[0]), job, es[1..]))
  }

  /** What holds of overlapping deliveries too: the thread's lock admits one of them to the start of the chat. */
  ghost predicate Guarded(w: World) {
    && (w.rows.starts > 0 ==> w.rows.turn.attempt > 0)
    && forall id :: id in w.runs ==>
         && (w.runs[id].Dispatch? || w.runs[id].Begin? || w.runs[id].Start? ==> w.lock == Some(id))
         && (w.runs[id].Begin? ==> w.runs[id].attempt == 0)
         && (w.runs[id].Start? ==> w.rows.turn.attempt > 0)
  }

  ghost predicate StartedOnce(w: World) {
    w.rows.starts <= 1 && forall id :: id in w.runs && w.runs[id].Start? ==> w.rows.starts == 0
  }

  lemma StepKeepsGuarded(w: World, job: JobId, e: Event)
    requires Guarded(w)
    ensures Guarded(Step(w, job, e))
  {
  }

  lemma StepKeepsStartedOnce(w: World, job: JobId, e: Event)
    requires Guarded(w) && StartedOnce(w) && !LateBegin(w, e)
    ensures StartedOnce(Step(w, job, e))
  {
  }

  lemma LateMeansOvertaken(w: World, e: Event)
    requires Guarded(w)
    ensures LateBegin(w, e) ==> Overtaken(w, e)
  {
  }

  lemma {:induction false} RunKeepsGuarded(w: World, job: JobId, es: seq<Event>)
    requires Guarded(w)
    ensures Guarded(Run(w, job, es))
    ensures NeverOvertaken(w, job, es) ==> NeverLate(w, job, es)
    ensures StartedOnce(w) && NeverLate(w, job, es) ==> StartedOnce(Run(w, job, es))
    decreases |es|
  {
    if es != [] {
      StepKeepsGuarded(w, job, es[0]);
      LateMeansOvertaken(w, es[0]);
      if StartedOnce(w) && !LateBegin(w, es[0]) { StepKeepsStartedOnce(w, job, es[0]); }
      RunKeepsGuarded(Step(w, job, es[0]), job, es[1..]);
    }
  }

  /** Deliveries may overlap in any way: while each one that begins its attempt finds the turn's attempt as it read
      it, the chat is started at most once. */
  lemma UnchangedAttemptStartsOnce(branch: Branch, workspace: nat, job: JobId, at: int, es: seq<Event>)
    requires NeverOvertaken(Claimed(branch, workspace, job, at), job, es)
    ensures Run(Claimed(branch, workspace, job, at), job, es).rows.starts <= 1
  {
    RunKeepsGuarded(Claimed(branch, workspace, job, at), job, es);
  }

  /** After any run with no late begin, one further step of a delivery followed by its next one starts a second chat
      exactly when that step is a late begin, and then the attempt the delivery read is no longer the turn's. */
  lemma SecondStartExactly(branch: Branch, workspace: nat, job: JobId, at: int, es: seq<Event>, e: Event, next: Env)
    requires NeverLate(Claimed(branch, workspace, job, at), job, es)
    requires e.Advance?
    ensures var w := Run(Claimed(branch, workspace, job, at), job, es);
      && (Step(Step(w, job, e), job, Advance(e.id, next)).rows.starts > 1 <==> LateBegin(w, e))
      && (LateBegin(w, e) ==> Overtaken(w, e))
  {
    var w := Run(Claimed(branch, workspace, job, at), job, es);
    RunKeepsGuarded(Claimed(branch, workspace, job, at), job, es);
    LateMeansOvertaken(w, e);
    if !LateBegin(w, e) {
      StepKeepsGuarded(w, job, e);
      StepKeepsStartedOnce(w, job, e);
      BeginComesFirst(w, job, e, next);
    }
  }

  lemma BeginComesFirst(w: World, job: JobId, e: Event, next: Env)
    requires Guarded(w) && StartedOnce(w) && e.Advance? && !LateBegin(w, e)
    ensures Step(Step(w, job, e), job, Advance(e.id, next)).rows.starts <= 1
  {
    var w1 := Step(w, job, e);
    StepKeepsStartedOnce(w, job, e);
    assert !Live(w1, e.id) || w1.runs[e.id].Start? ==>
      Step(w1, job, Advance(e.id, next)).rows.starts <= w1.rows.starts + 1;
  }

  // ----- a stale snapshot acted on after a success -----

  lemma SecondActsOnSnapshot(l: Link, job: JobId)
    requires Unstarted(l, job)
    ensures var g := Advance(2, OK);
            var r := Run(Two(Succeeded(l), None, Returned, AwaitLock(1, l)), job, [g, g, g, g]).rows;
            r.turn.status == TurnAmbiguous && r.link.state == Ambiguous && r.replies == 1
  {
    var g := Advance(2, OK);
    var done := Succeeded(l);
    var w0 := Two(done, None, Returned, AwaitLock(1, l));
    var w1 := Step(w0, job, g);
    assert w1 == Two(done, Some(2), Returned, Dispatch(1, l));
    var w2 := Step(w1, job, g);
    assert w2 == Two(done, Some(2), Returned, RecordAmbiguous);
    var w3 := Step(w2, job, g);
    assert w3.runs[2] == FreezeLink && w3.rows.turn.status == TurnAmbiguous;
    RunFour(w0, job, g);
  }

  /** The second delivery reads turn and link between the first one's StartChat and its ready mark. */
  function StaleEvents(): seq<Event> {
    var g1, g2 := Advance(1, OK), Advance(2, OK);
    [Deliver(1), Deliver(2), g1, g1] + ([g1, g1, g1, g1] + ([g2, g2] + ([g1, g1, g1] + [g2, g2, g2, g2])))
  }

  /** A delivery that read the pending link after another one's attempt turns that turn's success into an ambiguous
      turn on a frozen link: the stale snapshot is acted on without looking again. */
  lemma StaleSnapshotReopensASucceededTurn(branch: Branch, workspace: nat, job: JobId, at: int)
    ensures var r := Run(Claimed(branch, workspace, job, at), job, StaleEvents()).rows;
            r.turn.status == TurnAmbiguous && r.link.state == Ambiguous && r.replies == 1
  {
    var w := Claimed(branch, workspace, job, at);
    var l := w.rows.link;
    var g1, g2 := Advance(1, OK), Advance(2, OK);
    FirstWaits(branch, workspace, job, at);
    RunAppend(w, job, [Deliver(1), Deliver(2), g1, g1],
              [g1, g1, g1, g1] + ([g2, g2] + ([g1, g1, g1] + [g2, g2, g2, g2])));
    StaleFromTheWait(l, job);
  }

  lemma StaleFromTheWait(l: Link, job: JobId)
    requires Unstarted(l, job)
    ensures var g1, g2 := Advance(1, OK), Advance(2, OK);
            var es := [g1, g1, g1, g1] + ([g2, g2] + ([g1, g1, g1] + [g2, g2, g2, g2]));
            var r := Run(Two(Fresh(l, 0, 0), None, AwaitLock(0, l), ReadTurn), job, es).rows;
            r.turn.status == TurnAmbiguous && r.link.state == Ambiguous && r.replies == 1
  {
    var g1, g2 := Advance(1, OK), Advance(2, OK);
    FirstDeliveryStarts(l, job, ReadTurn);
    RunAppend(Two(Fresh(l, 0, 0), None, AwaitLock(0, l), ReadTurn), job, [g1, g1, g1, g1],
              [g2, g2] + ([g1, g1, g1] + [g2, g2, g2, g2]));
    SecondReads(Fresh(l, 1, 1), Some(1), Created("c"), job);
    RunAppend(Two(Fresh(l, 1, 1), Some(1), Created("c"), ReadTurn), job, [g2, g2], [g1, g1, g1] + [g2, g2, g2, g2]);
    FirstDeliverySucceeds(l, job, AwaitLock(1, l));
    RunAppend(Two(Fresh(l, 1, 1), Some(1), Created("c"), AwaitLock(1, l)), job, [g1, g1, g1], [g2, g2, g2, g2]);
    SecondActsOnSnapshot(l, job);
  }

  // ----- success without overlap -----

  ghost predicate StaysSucceeded(w: World, job: JobId, es: seq<Event>)
    decreases |es|
  {
    w.rows.turn.status == TurnSucceeded && (es == [] || StaysSucceeded(Step(w, job, es[0]), job, es[1..]))
  }

  lemma {:induction false} ExclusiveStaysSucceeded(w: World, job: JobId, es: seq<Event>)
    requires Safe(w) && w.rows.turn.status == TurnSucceeded && ExclusiveRun(w, job, es)
    ensures StaysSucceeded(w, job, es)
    decreases |es|
  {
    if es != [] {
      if es[0].Advance? && Live(w, es[0].id) { assert PhaseSafe(w.rows, w.runs[es[0].id]); }
      StepKeepsSafe(w, job, es[0]);
      ExclusiveStaysSucceeded(Step(w, job, es[0]), job, es[1..]);
    }
  }

  /** While deliveries do not overlap success is final. */
  lemma SuccessLastsWhenExclusive(branch: Branch, workspace: nat, job: JobId, at: int, es: seq<Event>, fs: seq<Event>)
    requires ExclusiveRun(Claimed(branch, workspace, job, at), job, es)
    requires var w := Run(Claimed(branch, workspace, job, at), job, es);
             w.rows.turn.status == TurnSucceeded && ExclusiveRun(w, job, fs)
    ensures StaysSucceeded(Run(Claimed(branch, workspace, job, at), job, es), job, fs)
  {
    RunKeepsSafe(Claimed(branch, workspace, job, at), job, es);
    ExclusiveStaysSucceeded(Run(Claimed(branch, workspace, job, at), job, es), job, fs);
  }
}
