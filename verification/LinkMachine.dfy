/** Conversation links: the transition table, the compare-and-set writes on the stored links, and what
    every sequence of writes keeps. */
module LinkMachine {
  import opened Wrappers

  type LinkId = nat
  type JobId = nat
  type Chat = string
  datatype Branch = Branch(thread: nat, branch: nat)

  datatype LinkState = CreationPending | Ready | Ambiguous | Failed | Dead
  datatype LinkEvent =
    | Confirmed | DefinitiveFailure | UncertainCreation | UncertainContinuation | OwnerConfirmed | OwnerAbandoned

  const LINK_TRANSITIONS: map<LinkState, map<LinkEvent, LinkState>> :=
    map[CreationPending := map[Confirmed := Ready, DefinitiveFailure := Failed, UncertainCreation := Ambiguous],
        Ready := map[UncertainContinuation := Ambiguous],
        Ambiguous := map[OwnerConfirmed := Ready, OwnerAbandoned := Dead]]

  function LinkTransition(from: LinkState, ev: LinkEvent): Option<LinkState> {
    if from in LINK_TRANSITIONS && ev in LINK_TRANSITIONS[from] then Some(LINK_TRANSITIONS[from][ev]) else None
  }

  datatype Link = Link(branch: Branch, workspace: nat, state: LinkState, claimJob: Option<JobId>, chat: Option<Chat>,
                       current: Option<string>, category: Option<string>, readyAt: Option<int>, lastTransitionAt: int)
  type Links = map<LinkId, Link>

  predicate AllowsInitialStartChat(l: Link, job: JobId) {
    l.state == CreationPending && l.claimJob == Some(job)
  }

  predicate IsTerminal(l: Link) {
    l.state == Failed || l.state == Dead
  }

  // ----- the writes -----

  datatype Write =
    | Claim(id: LinkId, branch: Branch, workspace: nat, job: Option<JobId>, at: int)
    | MarkReady(id: LinkId, chat: Chat, current: Option<string>, at: int)
    | MarkAmbiguous(id: LinkId, at: int)
    | MarkFailed(id: LinkId, category: string, at: int)
    | MarkDead(id: LinkId, category: string, at: int)
    | SetRemoteCurrent(id: LinkId, current: Option<string>, at: int)

  function ReadyRow(l: Link, chat: Chat, current: Option<string>, at: int): Option<Link> {
    if (l.state == CreationPending || l.state == Ambiguous) && (l.chat == None || l.chat == Some(chat))
    then Some(l.(state := Ready, chat := Some(chat), current := if current.Some? then current else l.current,
                 readyAt := if l.readyAt.Some? then l.readyAt else Some(at), lastTransitionAt := at))
    else None
  }

  function AmbiguousRow(l: Link, at: int): Option<Link> {
    if l.state == CreationPending || l.state == Ready then Some(l.(state := Ambiguous, lastTransitionAt := at))
    else None
  }

  function TerminalRow(l: Link, to: LinkState, from: LinkState, category: string, at: int): Option<Link> {
    if l.state == from then Some(l.(state := to, category := Some(category), lastTransitionAt := at)) else None
  }

  function CurrentRow(l: Link, current: Option<string>): Option<Link> {
    if l.state == Ready then Some(l.(current := current)) else None
  }

  /** A chat of that workspace is recorded on another link: the unique index refuses it. */
  predicate ChatTaken(links: Links, id: LinkId, workspace: nat, chat: Chat) {
    exists other :: other in links && other != id && links[other].workspace == workspace
                 && links[other].chat == Some(chat)
  }

  predicate BranchClaimed(links: Links, b: Branch) {
    exists other :: other in links && links[other].branch == b
  }

  function Put(links: Links, id: LinkId, row: Option<Link>): (Links, bool) {
    if row.Some? then (links[id := row.value], true) else (links, false)
  }

  /** The table after a write and whether the write succeeded; an unsuccessful one changes nothing. */
  function Apply(links: Links, w: Write): (Links, bool) {
    if w.Claim? then
      if w.id in links || BranchClaimed(links, w.branch) then (links, false)
      else (links[w.id := Link(w.branch, w.workspace, CreationPending, w.job, None, None, None, None, w.at)], true)
    else if w.id !in links then (links, false)
    else
      var l := links[w.id];
      match w
      case MarkReady(id, chat, current, at) =>
        if ChatTaken(links, id, l.workspace, chat) then (links, false)
        else Put(links, id, ReadyRow(l, chat, current, at))
      case MarkAmbiguous(id, at) => Put(links, id, AmbiguousRow(l, at))
      case MarkFailed(id, category, at) => Put(links, id, TerminalRow(l, Failed, CreationPending, category, at))
      case MarkDead(id, category, at) => Put(links, id, TerminalRow(l, Dead, Ambiguous, category, at))
      case SetRemoteCurrent(id, current, _) => Put(links, id, CurrentRow(l, current))
      case Claim(_, _, _, _, _) => (links, false)
  }

  /** No link but that one changes, nor that one unless the write succeeded. */
  predicate OthersKept(a: Links, b: Links, id: LinkId, ok: bool) {
    (forall other :: other in a && (other != id || !ok) ==> other in b && b[other] == a[other])
    && forall other :: other in b ==> other in a || (other == id && ok)
  }

  /** The links table; every method is one compare-and-set statement, `ok` false standing for a conflict. */
  class LinkRepository {
    var links: Links

    constructor ()
      ensures links == map[]
    {
      links := map[];
    }

    method ClaimBranch(id: LinkId, branch: Branch, workspace: nat, job: Option<JobId>, at: int) returns (ok: bool)
      modifies this
      ensures (links, ok) == Apply(old(links), Claim(id, branch, workspace, job, at))
      ensures ok <==> id !in old(links) && forall other :: other in old(links) ==> old(links)[other].branch != branch
      ensures ok ==> id in links && links[id] == Link(branch, workspace, CreationPending, job, None, None, None, None, at)
      ensures ok ==> forall j: JobId :: AllowsInitialStartChat(links[id], j) <==> job == Some(j)
      ensures OthersKept(old(links), links, id, ok)
    {
      if id in links || BranchClaimed(links, branch) { return false; }
      links := links[id := Link(branch, workspace, CreationPending, job, None, None, None, None, at)];
      ok := true;
    }

    method SetReady(id: LinkId, chat: Chat, current: Option<string>, at: int) returns (ok: bool)
      modifies this
      ensures (links, ok) == Apply(old(links), MarkReady(id, chat, current, at))
      ensures ok ==>
                && id in old(links) && id in links
                && links[id] == old(links)[id].(state := Ready, chat := Some(chat), current := links[id].current,
                                                readyAt := links[id].readyAt, lastTransitionAt := at)
                && links[id].current == (if current.Some? then current else old(links)[id].current)
                && links[id].readyAt == (if old(links)[id].readyAt.Some? then old(links)[id].readyAt else Some(at))
      ensures OthersKept(old(links), links, id, ok)
    {
      if id !in links { return false; }
      var l := links[id];
      if l.state != CreationPending && l.state != Ambiguous { return false; }
      if l.chat.Some? && l.chat.value != chat { return false; }
      if ChatTaken(links, id, l.workspace, chat) { return false; }
      var newCurrent := if current.Some? then current else l.current;
      var firstReady := if l.readyAt.Some? then l.readyAt else Some(at);
      links := links[id := l.(state := Ready, chat := Some(chat), current := newCurrent,
                              readyAt := firstReady, lastTransitionAt := at)];
      ok := true;
    }

    method SetAmbiguous(id: LinkId, at: int) returns (ok: bool)
      modifies this
      ensures (links, ok) == Apply(old(links), MarkAmbiguous(id, at))
      ensures ok ==> id in old(links) && id in links
                     && links[id] == old(links)[id].(state := Ambiguous, lastTransitionAt := at)
      ensures OthersKept(old(links), links, id, ok)
    {
      if id !in links || (links[id].state != CreationPending && links[id].state != Ready) { return false; }
      links := links[id := links[id].(state := Ambiguous, lastTransitionAt := at)];
      ok := true;
    }

    method SetTerminal(id: LinkId, dead: bool, category: string, at: int) returns (ok: bool)
      modifies this
      ensures (links, ok) == Apply(old(links), if dead then MarkDead(id, category, at) else MarkFailed(id, category, at))
      ensures ok ==> id in old(links) && id in links
                     && links[id] == old(links)[id].(state := if dead then Dead else Failed,
                                                     category := Some(category), lastTransitionAt := at)
      ensures OthersKept(old(links), links, id, ok)
    {
      var from, to := if dead then Ambiguous else CreationPending, if dead then Dead else Failed;
      if id !in links || links[id].state != from { return false; }
      links := links[id := links[id].(state := to, category := Some(category), lastTransitionAt := at)];
      ok := true;
    }

    method SetCurrent(id: LinkId, current: Option<string>, at: int) returns (ok: bool)
      modifies this
      ensures (links, ok) == Apply(old(links), SetRemoteCurrent(id, current, at))
      ensures ok <==> id in old(links) && old(links)[id].state == Ready
      ensures ok ==> id in links && links[id] == old(links)[id].(current := current)
      ensures OthersKept(old(links), links, id, ok)
    {
      if id !in links || links[id].state != Ready { return false; }
      links := links[id := links[id].(current := current)];
      ok := true;
    }
  }

  // ----- the writes against the table -----

  /** The events a Mark write may stand for. */
  function EventsOf(w: Write): set<LinkEvent> {
    match w
    case MarkReady(_, _, _, _) => {Confirmed, OwnerConfirmed}
    case MarkAmbiguous(_, _) => {UncertainCreation, UncertainContinuation}
    case MarkFailed(_, _, _) => {DefinitiveFailure}
    case MarkDead(_, _, _) => {OwnerAbandoned}
    case _ => {}
  }

  predicate IsMark(w: Write) {
    !w.Claim? && !w.SetRemoteCurrent?
  }

  /** What MarkReady asks beyond the table: the recorded chat must match and be no other link's. */
  predicate ChatAcceptable(links: Links, w: Write)
    requires w.id in links
  {
    w.MarkReady? ==>
      (links[w.id].chat == None || links[w.id].chat == Some(w.chat))
      && !ChatTaken(links, w.id, links[w.id].workspace, w.chat)
  }

  /** A Mark write succeeds exactly where the table allows one of its events (MarkReady also needing an acceptable
      chat), and then the link is in the state the table names. */
  lemma MarksFollowTheTable(links: Links, w: Write)
    requires IsMark(w) && w.id in links
    ensures var (links', ok) := Apply(links, w);
      && (ok <==> ChatAcceptable(links, w)
                  && exists ev :: ev in EventsOf(w) && LinkTransition(links[w.id].state, ev).Some?)
      && (forall ev :: ok && ev in EventsOf(w) && LinkTransition(links[w.id].state, ev).Some? ==>
            links'[w.id].state == LinkTransition(links[w.id].state, ev).value)
      && (!ok ==> links' == links)
  {
    var s := links[w.id].state;
    match w {
      case MarkReady(_, _, _, _) =>
        assert LinkTransition(s, Confirmed).Some? <==> s == CreationPending;
        assert LinkTransition(s, OwnerConfirmed).Some? <==> s == Ambiguous;
      case MarkAmbiguous(_, _) =>
        assert LinkTransition(s, UncertainCreation).Some? <==> s == CreationPending;
        assert LinkTransition(s, UncertainContinuation).Some? <==> s == Ready;
      case MarkFailed(_, _, _) => assert LinkTransition(s, DefinitiveFailure).Some? <==> s == CreationPending;
      case MarkDead(_, _, _) => assert LinkTransition(s, OwnerAbandoned).Some? <==> s == Ambiguous;
    }
  }

  /** A state is terminal exactly when the table has no way out of it. */
  lemma TerminalMeansNoWayOut(l: Link)
    ensures IsTerminal(l) <==> forall ev :: LinkTransition(l.state, ev).None?
  {
    match l.state {
      case CreationPending => assert LinkTransition(l.state, Confirmed).Some?;
      case Ready => assert LinkTransition(l.state, UncertainContinuation).Some?;
      case Ambiguous => assert LinkTransition(l.state, OwnerAbandoned).Some?;
      case _ =>
    }
  }

  // ----- every sequence of writes -----

  function Run(links: Links, ws: seq<Write>): Links
    decreases |ws|
  {
    if ws == [] then links else Run(Apply(links, ws[0]).0, ws[1..])
  }

  ghost predicate RowSafe(l: Link) {
    && (l.state == CreationPending || l.state == Failed ==> l.chat == None)
    && (l.state == Ready ==> l.chat.Some?)
    && (l.chat.Some? <==> l.readyAt.Some?)
    && (IsTerminal(l) <==> l.category.Some?)
  }

  ghost predicate Safe(links: Links) {
    && (forall id :: id in links ==> RowSafe(links[id]))
    && (forall a, b :: a in links && b in links && a != b ==> links[a].branch != links[b].branch)
    && (forall a, b :: a in links && b in links && a != b && links[a].chat.Some?
          ==> links[a].workspace != links[b].workspace || links[a].chat != links[b].chat)
  }

  /** How one link may differ between two points of a run. */
  ghost predicate Evolves(l: Link, l': Link) {
    && l'.branch == l.branch && l'.workspace == l.workspace && l'.claimJob == l.claimJob
    && (l.chat.Some? ==> l'.chat == l.chat && l'.readyAt == l.readyAt)
    && (l.state != CreationPending ==> l'.state != CreationPending)
    && (IsTerminal(l) ==> l' == l)
  }

  lemma PutKeepsSafe(links: Links, id: LinkId, row: Link)
    requires Safe(links) && RowSafe(row)
    requires id in links ==> row.branch == links[id].branch
    requires id !in links ==> !BranchClaimed(links, row.branch)
    requires row.chat.Some? ==> !ChatTaken(links, id, row.workspace, row.chat.value)
    ensures Safe(links[id := row])
  {
  }

  lemma OwnChatNotTaken(links: Links, id: LinkId)
    requires Safe(links) && id in links && links[id].chat.Some?
    ensures !ChatTaken(links, id, links[id].workspace, links[id].chat.value)
  {
  }

  lemma ApplyKeepsSafe(links: Links, w: Write)
    requires Safe(links)
    ensures Safe(Apply(links, w).0)
  {
    var (links', ok) := Apply(links, w);
    if ok {
      var row := links'[w.id];
      if !w.MarkReady? && row.chat.Some? { OwnChatNotTaken(links, w.id); }
      PutKeepsSafe(links, w.id, row);
    }
  }

  lemma ApplyEvolves(links: Links, w: Write, id: LinkId)
    requires Safe(links) && id in links
    ensures id in Apply(links, w).0 && Evolves(links[id], Apply(links, w).0[id])
  {
  }

  lemma {:induction false} RunKeepsSafe(links: Links, ws: seq<Write>)
    requires Safe(links)
    ensures Safe(Run(links, ws))
    decreases |ws|
  {
    if ws != [] {
      ApplyKeepsSafe(links, ws[0]);
      RunKeepsSafe(Apply(links, ws[0]).0, ws[1..]);
    }
  }

  lemma {:induction false} RunEvolves(links: Links, ws: seq<Write>, id: LinkId)
    requires Safe(links) && id in links
    ensures id in Run(links, ws) && Evolves(links[id], Run(links, ws)[id])
    decreases |ws|
  {
    if ws != [] {
      ApplyEvolves(links, ws[0], id);
      ApplyKeepsSafe(links, ws[0]);
      RunEvolves(Apply(links, ws[0]).0, ws[1..], id);
    }
  }

  /** After any writes: one link per branch, no chat on two links of a workspace, ready links have a chat and
      failed ones none. From any point on, a link's claim job and recorded chat never change, failed and dead
      links are frozen, and a link that left creation_pending never returns. */
  lemma LinksStaySound(before: seq<Write>, after: seq<Write>, id: LinkId)
    requires id in Run(map[], before)
    ensures Safe(Run(map[], before))
    ensures var l := Run(map[], before)[id];
            var links' := Run(Run(map[], before), after);
            && id in links' && Evolves(l, links'[id]) && RowSafe(links'[id])
  {
    RunKeepsSafe(map[], before);
    RunKeepsSafe(Run(map[], before), after);
    RunEvolves(Run(map[], before), after, id);
  }

  /** The authorisation to start the chat belongs to one job and is never regained. */
  lemma AuthorisationIsSingleUse(links: Links, ws: seq<Write>, id: LinkId, a: JobId, b: JobId)
    requires Safe(links) && id in links
    ensures id in Run(links, ws)
    ensures !AllowsInitialStartChat(links[id], a) ==> !AllowsInitialStartChat(Run(links, ws)[id], a)
    ensures AllowsInitialStartChat(links[id], a) && AllowsInitialStartChat(Run(links, ws)[id], b) ==> a == b
  {
    RunEvolves(links, ws, id);
  }

  /** An ambiguous link moves only by MarkReady onto its chat or by MarkDead. */
  lemma AmbiguousLeftOnlyByResolution(links: Links, w: Write, id: LinkId)
    requires id in links && links[id].state == Ambiguous && Apply(links, w).0[id].state != Ambiguous
    ensures w.id == id && (w.MarkReady? || w.MarkDead?)
    ensures exists ev :: ev in {OwnerConfirmed, OwnerAbandoned}
                      && LinkTransition(Ambiguous, ev) == Some(Apply(links, w).0[id].state)
  {
    assert LinkTransition(Ambiguous, OwnerConfirmed) == Some(Ready);
    assert LinkTransition(Ambiguous, OwnerAbandoned) == Some(Dead);
  }

  /** The table alone does not decide MarkReady: a pending link without a chat is refused a chat that another link
      of its workspace already holds. */
  lemma PendingLinkRefusedTakenChat(chat: Chat, at: int)
    ensures var ws := [Claim(1, Branch(1, 1), 0, None, at), MarkReady(1, chat, None, at),
                       Claim(2, Branch(1, 2), 0, None, at)];
            var links := Run(map[], ws);
            && 2 in links && links[2].state == CreationPending && links[2].chat == None
            && !Apply(links, MarkReady(2, chat, None, at)).1
  {
    var c1, r1, c2 := Claim(1, Branch(1, 1), 0, None, at), MarkReady(1, chat, None, at), Claim(2, Branch(1, 2), 0, None, at);
    var ws := [c1, r1, c2];
    assert ws[1..] == [r1, c2] && [r1, c2][1..] == [c2] && [c2][1..] == [];
    var l0: Links := map[];
    var l1, l2 := Apply(l0, c1).0, Apply(Apply(l0, c1).0, r1).0;
    var l3 := Apply(l2, c2).0;
    assert !BranchClaimed(l0, c1.branch) && !ChatTaken(l1, 1, 0, chat);
    assert l2[1].chat == Some(chat) && l2[1].branch == Branch(1, 1);
    assert !BranchClaimed(l2, c2.branch);
    assert Run(l0, ws) == Run(l1, [r1, c2]) == Run(l2, [c2]) == Run(l3, []) == l3;
    assert 1 in l3 && l3[1].chat == Some(chat) && l3[1].workspace == l3[2].workspace;
  }
}
