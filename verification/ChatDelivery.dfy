/** One delivery of a branch's first turn with nothing in between: the service that makes its calls in order, and
    what it does to the link, the turn, the provider and the thread. */
module ChatDelivery {
  import opened Wrappers
  import LinkMachine
  import opened ChatCreation

  type Envs = Phase -> Env

  /** A delivery left alone until it returns; `envs` answers each phase. */
  function RunAlone(r: Rows, job: LinkMachine.JobId, ph: Phase, envs: Envs): Rows
    decreases StepsLeft(ph)
  {
    if ph.Returned? then r else
    var (r', ph') := HandlerStep(r, job, ph, envs(ph));
    RunAlone(r', job, ph', envs)
  }

  lemma RunStep(r: Rows, job: LinkMachine.JobId, ph: Phase, envs: Envs)
    requires !ph.Returned?
    ensures var (r', ph') := HandlerStep(r, job, ph, envs(ph));
            RunAlone(r, job, ph, envs) == RunAlone(r', job, ph', envs)
  {
  }

  // ----- seen from outside -----

  /** The turn is recorded as failed, and a pending link with it where that is asked for. */
  ghost predicate Fails(r: Rows, r': Rows, failLink: bool, envs: Envs) {
    if envs(RecordFailed(failLink)).fault then r' == r else
    && r'.turn == Turn(r.turn.attempt, TurnFailed) && r'.starts == r.starts && r'.replies == r.replies
    && if failLink && !envs(FailLink).fault && r.link.state.CreationPending?
       then r'.link.state.Failed? && r'.link.claimJob == r.link.claimJob && r'.link.chat == r.link.chat
       else r'.link == r.link
  }

  /** The turn is recorded as ambiguous, and the link is frozen for the owner. */
  ghost predicate Freezes(r: Rows, r': Rows, envs: Envs) {
    if envs(RecordAmbiguous).fault then r' == r else
    && r'.turn == Turn(r.turn.attempt, TurnAmbiguous) && r'.starts == r.starts && r'.replies == r.replies
    && if !envs(FreezeLink).fault && (r.link.state.CreationPending? || r.link.state.Ready?)
       then r'.link.state.Ambiguous? && r'.link.claimJob == r.link.claimJob && r'.link.chat == r.link.chat
       else r'.link == r.link
  }

  /** The provider was asked for the answer on a ready link: only a success writes a reply. */
  ghost predicate Answers(r: Rows, r': Rows, env: Env, failLink: bool, envs: Envs) {
    match env.answer
    case Success(_) =>
      if envs(Finish).fault then r' == r
      else r' == Rows(r.link, Turn(r.turn.attempt, TurnSucceeded), r.starts, r.replies + 1)
    case Definitive => Fails(r, r', failLink, envs)
    case Transient => if env.lastAttempt && !env.cancelled then Freezes(r, r', envs) else r' == r
  }

  /** A recorded first attempt that asks for the chat. */
  function Begun(r: Rows): Rows {
    Rows(r.link, Turn(1, r.turn.status), r.starts + 1, r.replies)
  }

  ghost predicate Creates(r: Rows, r': Rows, envs: Envs) {
    if envs(Begin(0)).fault then r' == r else
    match envs(Start).answer
    case Definitive => Fails(Begun(r), r', true, envs)
    case Transient => if envs(Start).cancelled then r' == Begun(r) else Freezes(Begun(r), r', envs)
    case Success(chat) =>
      if envs(Created(chat)).fault then r' == Begun(r) else
      exists ready: Rows ::
        && ready.link.state.Ready? && ready.link.chat == Some(chat) && ready.link.claimJob == r.link.claimJob
        && ready == Begun(r).(link := ready.link)
        && Answers(ready, r', envs(Answering), true, envs)
  }

  /** What one delivery does, case by case, in the order in which it looks. */
  ghost predicate Delivered(r: Rows, r': Rows, job: LinkMachine.JobId, envs: Envs) {
    var a, l := r.turn.attempt, r.link;
    if r.turn.status != TurnPending || envs(ReadTurn).fault || envs(ReadLink(a)).fault then r' == r
    else if !envs(ReadLink(a)).eligible then Fails(r, r', l.state.CreationPending?, envs)
    else if envs(AwaitLock(a, l)).cancelled then r' == r
    else if !envs(Dispatch(a, l)).eligible then Fails(r, r', l.state.CreationPending?, envs)
    else if l.state.Ready? then
      if envs(Continuing(a)).fault then r' == r
      else Answers(r.(turn := Turn(a + 1, TurnPending)), r', envs(Continuing(a)), false, envs)
    else if !l.state.CreationPending? then Fails(r, r', false, envs)
    else if l.claimJob != Some(job) then Fails(r, r', true, envs)
    else if a > 0 then Freezes(r, r', envs)
    else Creates(r, r', envs)
  }

  lemma AloneFails(r: Rows, job: LinkMachine.JobId, failLink: bool, envs: Envs)
    ensures Fails(r, RunAlone(r, job, RecordFailed(failLink), envs), failLink, envs)
  {
    var (r1, ph1) := HandlerStep(r, job, RecordFailed(failLink), envs(RecordFailed(failLink)));
    RunStep(r, job, RecordFailed(failLink), envs);
    if ph1.FailLink? { RunStep(r1, job, FailLink, envs); }
  }

  lemma AloneFreezes(r: Rows, job: LinkMachine.JobId, envs: Envs)
    ensures Freezes(r, RunAlone(r, job, RecordAmbiguous, envs), envs)
  {
    var (r1, ph1) := HandlerStep(r, job, RecordAmbiguous, envs(RecordAmbiguous));
    RunStep(r, job, RecordAmbiguous, envs);
    if ph1.FreezeLink? { RunStep(r1, job, FreezeLink, envs); }
  }

  lemma AloneFinishes(r: Rows, job: LinkMachine.JobId, envs: Envs)
    requires r.link.state.Ready?
    ensures RunAlone(r, job, Finish, envs) ==
            if envs(Finish).fault then r
            else Rows(r.link, Turn(r.turn.attempt, TurnSucceeded), r.starts, r.replies + 1)
  {
    RunStep(r, job, Finish, envs);
  }

  lemma AloneAnswers(r: Rows, job: LinkMachine.JobId, envs: Envs)
    requires r.link.state.Ready?
    ensures Answers(r, RunAlone(r, job, Answering, envs), envs(Answering), true, envs)
  {
    RunStep(r, job, Answering, envs);
    match envs(Answering).answer
    case Success(_) => AloneFinishes(r, job, envs);
    case Definitive => AloneFails(r, job, true, envs);
    case Transient => AloneFreezes(r, job, envs);
  }

  lemma AloneContinues(r: Rows, job: LinkMachine.JobId, envs: Envs)
    requires r.link.state.Ready? && r.turn.status == TurnPending
    ensures var a := r.turn.attempt;
            var r' := RunAlone(r, job, Continuing(a), envs);
            if envs(Continuing(a)).fault then r' == r
            else Answers(r.(turn := Turn(a + 1, TurnPending)), r', envs(Continuing(a)), false, envs)
  {
    var a := r.turn.attempt;
    var r1 := r.(turn := Turn(a + 1, TurnPending));
    RunStep(r, job, Continuing(a), envs);
    match envs(Continuing(a)).answer
    case Success(_) => AloneFinishes(r1, job, envs);
    case Definitive => AloneFails(r1, job, false, envs);
    case Transient => AloneFreezes(r1, job, envs);
  }

  lemma StartStep(r: Rows, job: LinkMachine.JobId, envs: Envs)
    ensures var b := r.(starts := r.starts + 1);
            RunAlone(r, job, Start, envs) ==
            match envs(Start).answer
            case Success(chat) => RunAlone(b, job, Created(chat), envs)
            case Definitive => RunAlone(b, job, RecordFailed(true), envs)
            case Transient => if envs(Start).cancelled then b else RunAlone(b, job, RecordAmbiguous, envs)
  {
    RunStep(r, job, Start, envs);
  }

  lemma AloneStarts(r: Rows, job: LinkMachine.JobId, envs: Envs)
    ensures var r' := RunAlone(r, job, Start, envs);
            var b := r.(starts := r.starts + 1);
            match envs(Start).answer
            case Definitive => Fails(b, r', true, envs)
            case Transient => if envs(Start).cancelled then r' == b else Freezes(b, r', envs)
            case Success(chat) => r' == RunAlone(b, job, Created(chat), envs)
  {
    StartStep(r, job, envs);
    AloneFails(r.(starts := r.starts + 1), job, true, envs);
    AloneFreezes(r.(starts := r.starts + 1), job, envs);
  }

  lemma AloneMarksReady(b: Rows, job: LinkMachine.JobId, chat: LinkMachine.Chat, envs: Envs)
    requires b.link.state.CreationPending? && b.link.chat == None && !envs(Created(chat)).fault
    ensures var r' := RunAlone(b, job, Created(chat), envs);
            exists ready: Rows ::
              && ready.link.state.Ready? && ready.link.chat == Some(chat) && ready.link.claimJob == b.link.claimJob
              && ready == b.(link := ready.link)
              && Answers(ready, r', envs(Answering), true, envs)
  {
    RunStep(b, job, Created(chat), envs);
    var (ready, ph) := HandlerStep(b, job, Created(chat), envs(Created(chat)));
    assert ph == Answering && ready == b.(link := ready.link);
    AloneAnswers(ready, job, envs);
  }

  lemma AloneCreates(r: Rows, job: LinkMachine.JobId, envs: Envs)
    requires r.link.state.CreationPending? && r.link.chat == None && r.turn.attempt == 0
    ensures Creates(r, RunAlone(r, job, Begin(0), envs), envs)
  {
    RunStep(r, job, Begin(0), envs);
    if !envs(Begin(0)).fault {
      var r1 := r.(turn := r.turn.(attempt := 1));
      AloneStarts(r1, job, envs);
      assert r1.(starts := r1.starts + 1) == Begun(r);
      if envs(Start).answer.Success? {
        var chat := envs(Start).answer.chat;
        RunStep(Begun(r), job, Created(chat), envs);
        if !envs(Created(chat)).fault { AloneMarksReady(Begun(r), job, chat, envs); }
      }
    }
  }

  lemma AloneDispatches(r: Rows, job: LinkMachine.JobId, envs: Envs)
    requires LinkMachine.RowSafe(r.link) && r.turn.status == TurnPending
    ensures var a, l := r.turn.attempt, r.link;
            var r' := RunAlone(r, job, Dispatch(a, l), envs);
            if !envs(Dispatch(a, l)).eligible then Fails(r, r', l.state.CreationPending?, envs)
            else if l.state.Ready? then r' == RunAlone(r, job, Continuing(a), envs)
            else if !l.state.CreationPending? then Fails(r, r', false, envs)
            else if l.claimJob != Some(job) then Fails(r, r', true, envs)
            else if a > 0 then Freezes(r, r', envs)
            else Creates(r, r', envs)
  {
    var a, l := r.turn.attempt, r.link;
    RunStep(r, job, Dispatch(a, l), envs);
    if !envs(Dispatch(a, l)).eligible {
      AloneFails(r, job, l.state.CreationPending?, envs);
    } else if !l.state.Ready? {
      if !l.state.CreationPending? { AloneFails(r, job, false, envs); }
      else if l.claimJob != Some(job) { AloneFails(r, job, true, envs); }
      else if a > 0 { AloneFreezes(r, job, envs); }
      else { AloneCreates(r, job, envs); }
    }
  }

  /** A delivery left alone does exactly one of these things, whatever its calls are answered. */
  lemma AloneDelivers(r: Rows, job: LinkMachine.JobId, envs: Envs)
    requires LinkMachine.RowSafe(r.link)
    ensures Delivered(r, RunAlone(r, job, ReadTurn, envs), job, envs)
  {
    var a, l := r.turn.attempt, r.link;
    RunStep(r, job, ReadTurn, envs);
    if r.turn.status == TurnPending && !envs(ReadTurn).fault {
      RunStep(r, job, ReadLink(a), envs);
      if !envs(ReadLink(a)).fault {
        if !envs(ReadLink(a)).eligible {
          AloneFails(r, job, l.state.CreationPending?, envs);
        } else {
          RunStep(r, job, AwaitLock(a, l), envs);
          if !envs(AwaitLock(a, l)).cancelled {
            AloneDispatches(r, job, envs);
            if l.state.Ready? { AloneContinues(r, job, envs); }
          }
        }
      }
    }
  }

  // ----- the service -----

  /** The turn job on its branch's rows. */
  class TurnJob {
    var rows: Rows
    const job: LinkMachine.JobId

    constructor (rows: Rows, job: LinkMachine.JobId)
      ensures this.rows == rows && this.job == job
    {
      this.rows := rows;
      this.job := job;
    }

    method FailPermanent(failLink: bool, envs: Envs)
      modifies this`rows
      ensures rows == RunAlone(old(rows), job, RecordFailed(failLink), envs)
    {
      ghost var r := rows;
      RunStep(r, job, RecordFailed(failLink), envs);
      if envs(RecordFailed(failLink)).fault { return; }
      rows := rows.(turn := rows.turn.(status := TurnFailed));
      if !failLink { return; }
      RunStep(rows, job, FailLink, envs);
      if envs(FailLink).fault { return; }
      rows := WithLink(rows, LinkMachine.TerminalRow(rows.link, LinkMachine.Failed, LinkMachine.CreationPending, "",
                                                     envs(FailLink).at));
    }

    method FailAmbiguous(envs: Envs)
      modifies this`rows
      ensures rows == RunAlone(old(rows), job, RecordAmbiguous, envs)
    {
      RunStep(rows, job, RecordAmbiguous, envs);
      if envs(RecordAmbiguous).fault { return; }
      rows := rows.(turn := rows.turn.(status := TurnAmbiguous));
      RunStep(rows, job, FreezeLink, envs);
      if envs(FreezeLink).fault { return; }
      rows := WithLink(rows, LinkMachine.AmbiguousRow(rows.link, envs(FreezeLink).at));
    }

    method Complete(envs: Envs)
      modifies this`rows
      ensures rows == RunAlone(old(rows), job, Finish, envs)
    {
      RunStep(rows, job, Finish, envs);
      if envs(Finish).fault || !rows.link.state.Ready? { return; }
      rows := rows.(turn := rows.turn.(status := TurnSucceeded), replies := rows.replies + 1);
    }

    method HandleReady(attempt: nat, envs: Envs)
      modifies this`rows
      ensures rows == RunAlone(old(rows), job, Continuing(attempt), envs)
    {
      var env := envs(Continuing(attempt));
      RunStep(rows, job, Continuing(attempt), envs);
      if env.fault { return; }
      rows := rows.(turn := rows.turn.(attempt := attempt + 1));
      match env.answer {
        case Success(_) => Complete(envs);
        case Definitive => FailPermanent(false, envs);
        case Transient => if env.lastAttempt && !env.cancelled { FailAmbiguous(envs); }
      }
    }

    /** The bundled first turn, once the chat is recorded. */
    method HandleAnswer(envs: Envs)
      modifies this`rows
      ensures rows == RunAlone(old(rows), job, Answering, envs)
    {
      var env := envs(Answering);
      RunStep(rows, job, Answering, envs);
      match env.answer {
        case Success(_) => Complete(envs);
        case Definitive => FailPermanent(true, envs);
        case Transient => if env.lastAttempt && !env.cancelled { FailAmbiguous(envs); }
      }
    }

    method HandleCreationPending(envs: Envs)
      modifies this`rows
      ensures rows == RunAlone(old(rows), job, Begin(0), envs)
    {
      RunStep(rows, job, Begin(0), envs);
      if envs(Begin(0)).fault { return; }
      rows := rows.(turn := rows.turn.(attempt := 1));
      StartChat(envs);
    }

    method StartChat(envs: Envs)
      modifies this`rows
      ensures rows == RunAlone(old(rows), job, Start, envs)
    {
      RunStep(rows, job, Start, envs);
      rows := rows.(starts := rows.starts + 1);
      match envs(Start).answer {
        case Definitive => FailPermanent(true, envs);
        case Transient => if !envs(Start).cancelled { FailAmbiguous(envs); }
        case Success(chat) => OnChatCreated(chat, envs);
      }
    }

    method OnChatCreated(chat: LinkMachine.Chat, envs: Envs)
      modifies this`rows
      ensures rows == RunAlone(old(rows), job, Created(chat), envs)
    {
      RunStep(rows, job, Created(chat), envs);
      var row := LinkMachine.ReadyRow(rows.link, chat, None, envs(Created(chat)).at);
      if envs(Created(chat)).fault || row.None? { return; }
      rows := WithLink(rows, row);
      HandleAnswer(envs);
    }

    /** With the thread's lock: the branch that the link's state asks for. */
    method HandleLocked(attempt: nat, link: LinkMachine.Link, envs: Envs)
      modifies this`rows
      ensures rows == RunAlone(old(rows), job, Dispatch(attempt, link), envs)
    {
      RunStep(rows, job, Dispatch(attempt, link), envs);
      if !envs(Dispatch(attempt, link)).eligible {
        FailPermanent(link.state.CreationPending?, envs);
        return;
      }
      match link.state {
        case CreationPending =>
          if !LinkMachine.AllowsInitialStartChat(link, job) {
            FailPermanent(true, envs);
          } else if attempt > 0 {
            FailAmbiguous(envs);
          } else {
            HandleCreationPending(envs);
          }
        case Ready => HandleReady(attempt, envs);
        case _ => FailPermanent(false, envs);
      }
    }

    /** One delivery: early exits, then the branch that the link's state asks for. */
    method Handle(envs: Envs)
      requires LinkMachine.RowSafe(rows.link)
      modifies this`rows
      ensures rows == RunAlone(old(rows), job, ReadTurn, envs)
      ensures Delivered(old(rows), rows, job, envs)
    {
      AloneDelivers(rows, job, envs);
      Process(envs);
    }

    method Process(envs: Envs)
      modifies this`rows
      ensures rows == RunAlone(old(rows), job, ReadTurn, envs)
    {
      var attempt, link := rows.turn.attempt, rows.link;
      RunStep(rows, job, ReadTurn, envs);
      if envs(ReadTurn).fault || rows.turn.status != TurnPending { return; }
      RunStep(rows, job, ReadLink(attempt), envs);
      if envs(ReadLink(attempt)).fault { return; }
      if !envs(ReadLink(attempt)).eligible {
        FailPermanent(link.state.CreationPending?, envs);
        return;
      }
      RunStep(rows, job, AwaitLock(attempt, link), envs);
      if envs(AwaitLock(attempt, link)).cancelled { return; }
      HandleLocked(attempt, link, envs);
    }
  }

  // ----- the same as events -----

  function DeliveryEvents(r: Rows, job: LinkMachine.JobId, ph: Phase, id: nat, envs: Envs): seq<Event>
    decreases StepsLeft(ph)
  {
    if ph.Returned? then [] else
    var (r', ph') := HandlerStep(r, job, ph, envs(ph));
    [Advance(id, envs(ph))] + DeliveryEvents(r', job, ph', id, envs)
  }

  /** No other delivery holds the lock, and this one does from its dispatch on. */
  predicate HasTurn(w: World, id: nat, ph: Phase) {
    && id in w.runs && w.runs[id] == ph
    && (w.lock == None || (w.lock == Some(id) && !ph.ReadTurn? && !ph.ReadLink? && !ph.AwaitLock?))
  }

  lemma AdvanceTakesOneStep(w: World, job: LinkMachine.JobId, id: nat, ph: Phase, env: Env)
    requires HasTurn(w, id, ph) && !ph.Returned?
    ensures var (r', ph') := HandlerStep(w.rows, job, ph, env);
            var w' := Step(w, job, Advance(id, env));
      && w'.rows == r' && w'.runs == w.runs[id := ph'] && HasTurn(w', id, ph')
      && (ph' == Returned ==> w'.lock == None)
  {
  }

  /** With the lock free, a delivery's events do what the delivery alone does, and leave the lock free. */
  lemma {:induction false} DeliveryIsARun(w: World, job: LinkMachine.JobId, id: nat, ph: Phase, envs: Envs)
    requires HasTurn(w, id, ph) && (ph.Returned? ==> w.lock == None)
    ensures var w' := Run(w, job, DeliveryEvents(w.rows, job, ph, id, envs));
            w'.rows == RunAlone(w.rows, job, ph, envs) && w'.lock == None && w'.runs == w.runs[id := Returned]
    decreases StepsLeft(ph)
  {
    if ph.Returned? {
      assert w.runs[id := Returned] == w.runs;
    } else {
      NextAdvance(w, job, id, ph, envs);
      AdvanceTakesOneStep(w, job, id, ph, envs(ph));
      var (r', ph') := HandlerStep(w.rows, job, ph, envs(ph));
      var w1 := Step(w, job, Advance(id, envs(ph)));
      assert ph' == Returned ==> w1.lock == None;
      DeliveryIsARun(w1, job, id, ph', envs);
      RunStep(w.rows, job, ph, envs);
      assert w.runs[id := ph'][id := Returned] == w.runs[id := Returned];
    }
  }

  lemma NextAdvance(w: World, job: LinkMachine.JobId, id: nat, ph: Phase, envs: Envs)
    requires !ph.Returned?
    ensures var (r', ph') := HandlerStep(w.rows, job, ph, envs(ph));
            Run(w, job, DeliveryEvents(w.rows, job, ph, id, envs))
            == Run(Step(w, job, Advance(id, envs(ph))), job, DeliveryEvents(r', job, ph', id, envs))
  {
    var (r', ph') := HandlerStep(w.rows, job, ph, envs(ph));
    RunCons(w, job, Advance(id, envs(ph)), DeliveryEvents(r', job, ph', id, envs));
  }
}
