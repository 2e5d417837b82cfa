/** Push sessions: one open plan at a time, committed at most once, with an answer that stays. */
module PushSession {
  import opened Paths

  datatype State = Open | Committing | Committed | Failed | Aborted | Expired

  predicate Active(s: State) { s == Open || s == Committing }

  /** The response or error of a commit, as a value of its own. */
  datatype Answer = Success(response: nat) | Failure(error: nat)

  datatype Session = Session(
    project: nat,
    state: State,
    planned: set<Path>,
    uploaded: set<Path>,
    permit: bool,
    answer: Option<Answer>,
    /** How often the plan was given to the commit engine. */
    applied: nat,
    cleanupPending: bool,
    staging: bool)

  /** What `commit_result` answers for a session that is not active. */
  datatype Reply = Stored(answer: Answer) | NotCommitted

  function CommitResult(s: Session): Reply {
    if s.answer.Some? then Stored(s.answer.value) else NotCommitted
  }

  /** The permit is held exactly while the plan is open or committing; the engine ran at most
      once; the answer is there exactly when it ran to an end. */
  predicate Consistent(s: Session) {
    && (s.permit <==> Active(s.state)) && s.uploaded <= s.planned
    && s.applied == (if s.state in {Committing, Committed, Failed} then 1 else 0)
    && (s.answer.Some? <==> s.state == Committed || s.state == Failed)
    && (s.answer.Some? ==> (s.answer.value.Success? <==> s.state == Committed))
    && (s.state == Committing ==> s.uploaded == s.planned)
    && (Active(s.state) ==> s.staging && !s.cleanupPending) && (s.cleanupPending ==> !Active(s.state))
    && (!Active(s.state) && !s.cleanupPending ==> !s.staging)
  }

  /** States only move on, and a session that is over keeps its state and its answer. */
  predicate Later(a: Session, b: Session) {
    && a.project == b.project && a.applied <= b.applied
    && (a.state == Committing ==> b.state in {Committing, Committed, Failed})
    && (!Active(a.state) ==> b.state == a.state && b.answer == a.answer && b.applied == a.applied)
  }

  /** A session that ends: its plan and its permit are gone, its staging is to be removed. */
  function Closed(s: Session, state: State, answer: Option<Answer>): Session {
    s.(state := state, answer := answer, planned := {}, uploaded := {}, permit := false, cleanupPending := true)
  }

  /** The session is over: nothing of its plan is left, and its staging is still to be removed. */
  ghost predicate IsClosed(s: Session, state: State, answer: Option<Answer>) {
    s.state == state && s.answer == answer && s.planned == s.uploaded == {} && !s.permit && s.cleanupPending
  }

  datatype CommitStart = Waits | Answers(reply: Reply) | PlanExpired | UploadsMissing | Starts

  class SyncManager {
    var sessions: map<nat, Session>
    var slotFree: bool

    ghost predicate Valid() reads this {
      && (forall id :: id in sessions ==> Consistent(sessions[id]))
      && (slotFree ==> forall id :: id in sessions ==> !sessions[id].permit)
      && (forall a, b :: a in sessions && b in sessions && sessions[a].permit && sessions[b].permit ==> a == b)
      && (!slotFree ==> exists id :: id in sessions && sessions[id].permit)
    }

    twostate predicate Moved() reads this {
      forall id :: id in old(sessions) && id in sessions ==> Later(old(sessions)[id], sessions[id])
    }

    constructor ()
      ensures Valid() && sessions == map[] && slotFree
    {
      sessions, slotFree := map[], true;
    }

    /** `create_plan`: without the permit there is no second open plan. */
    method CreatePlan(id: nat, project: nat, planned: set<Path>) returns (ok: bool)
      requires Valid() && id !in sessions
      modifies this
      ensures Valid() && Moved() && (ok <==> old(slotFree))
      ensures ok ==> !slotFree && sessions == old(sessions)[id := Session(project, Open, planned, {}, true, None, 0, false, true)]
      ensures !ok ==> sessions == old(sessions)
    {
      ok := slotFree;
      if ok {
        slotFree := false;
        sessions := sessions[id := Session(project, Open, planned, {}, true, None, 0, false, true)];
        assert sessions[id].permit;
      }
    }

    /** `upload_file`: only for an open plan that is in time and asked for the file; it counts once
        the body was received and put in place. The activity lock keeps the plan open meanwhile. */
    method Upload(id: nat, path: Path, expired: bool, received: bool) returns (ok: bool)
      requires Valid()
      modifies this`sessions
      ensures Valid() && Moved()
      ensures ok <==> id in old(sessions) && old(sessions)[id].state == Open && !expired && path in old(sessions)[id].planned && received
      ensures ok ==> sessions == old(sessions)[id := old(sessions)[id].(uploaded := old(sessions)[id].uploaded + {path})]
      ensures !ok ==> sessions == old(sessions)
    {
      ok := id in sessions && sessions[id].state == Open && !expired && path in sessions[id].planned && received;
      if ok { Put(id, sessions[id].(uploaded := sessions[id].uploaded + {path})); }
    }

    /** Change one session without touching the permit. */
    method Put(id: nat, s: Session)
      requires Valid() && id in sessions && Consistent(s) && s.permit == sessions[id].permit && Later(sessions[id], s)
      modifies this`sessions
      ensures Valid() && Moved() && sessions == old(sessions)[id := s]
    {
      ghost var before := sessions;
      sessions := sessions[id := s];
      assert !slotFree ==> exists k :: k in sessions && sessions[k].permit by {
        if !slotFree {
          var k :| k in before && before[k].permit;
          assert sessions[k].permit;
        }
      }
    }

    /** End a session: its plan and its permit go, its staging directory is to be removed. */
    method Close(id: nat, state: State, answer: Option<Answer>)
      requires Valid() && id in sessions && Active(sessions[id].state) && !Active(state)
      requires sessions[id].state == Committing <==> state in {Committed, Failed}
      requires answer.Some? <==> state in {Committed, Failed}
      requires answer.Some? ==> (answer.value.Success? <==> state == Committed)
      modifies this
      ensures Valid() && Moved() && slotFree && sessions == old(sessions)[id := Closed(old(sessions)[id], state, answer)]
    {
      assert sessions[id].permit;
      sessions := sessions[id := Closed(sessions[id], state, answer)];
      slotFree := true;
    }

    /** `commit_session`, up to the point where the engine takes over. */
    method BeginCommit(id: nat, expired: bool) returns (r: CommitStart)
      requires Valid() && id in sessions
      modifies this
      ensures Valid() && Moved()
      ensures var s := old(sessions)[id];
        && (r == Waits <==> s.state == Committing)
        && (r.Answers? <==> !Active(s.state)) && (r.Answers? ==> r.reply == CommitResult(s))
        && (r == PlanExpired <==> s.state == Open && expired)
        && (r == UploadsMissing <==> s.state == Open && !expired && s.uploaded != s.planned)
        && (r == Starts <==> s.state == Open && !expired && s.uploaded == s.planned)
        && (r == Starts ==> s.applied == 0 && sessions == old(sessions)[id := s.(state := Committing, applied := 1)])
        && (r == PlanExpired ==> sessions == old(sessions)[id := Closed(s, Expired, None)] && IsClosed(sessions[id], Expired, None) && slotFree)
        && (r != Starts && r != PlanExpired ==> sessions == old(sessions))
    {
      var s := sessions[id];
      if s.state == Committing { return Waits; }
      if s.state != Open { return Answers(CommitResult(s)); }
      if expired {
        Close(id, Expired, None);
        return PlanExpired;
      }
      if exists p | p in s.planned :: p !in s.uploaded { return UploadsMissing; }
      assert s.uploaded == s.planned;
      Put(id, s.(state := Committing, applied := s.applied + 1));
      r := Starts;
    }

    /** The engine is done: the answer is stored before anybody is woken. */
    method EndCommit(id: nat, answer: Answer)
      requires Valid() && id in sessions && sessions[id].state == Committing
      modifies this
      ensures Valid() && Moved() && slotFree && id in sessions && CommitResult(sessions[id]) == Stored(answer)
      ensures sessions == old(sessions)[id := Closed(old(sessions)[id], if answer.Success? then Committed else Failed, Some(answer))]
      ensures IsClosed(sessions[id], if answer.Success? then Committed else Failed, Some(answer))
    {
      Close(id, if answer.Success? then Committed else Failed, Some(answer));
    }

    /** `abort_session_inner`, once no commit is under way: only an open plan is aborted, every
        other session keeps its outcome. */
    method Abort(id: nat, state: State)
      requires Valid() && id in sessions && sessions[id].state != Committing && state in {Aborted, Expired}
      modifies this
      ensures Valid() && Moved() && id in sessions && !Active(sessions[id].state)
      ensures old(sessions)[id].state == Open ==> slotFree && sessions == old(sessions)[id := Closed(old(sessions)[id], state, None)]
      ensures old(sessions)[id].state == Open ==> IsClosed(sessions[id], state, None)
      ensures old(sessions)[id].state != Open ==> sessions == old(sessions) && slotFree == old(slotFree)
    {
      if sessions[id].state == Open { Close(id, state, None); }
    }

    /** `cleanup_session`: remove the staging directory; a failure leaves it for later. */
    method Cleanup(id: nat, removed: bool)
      requires Valid() && id in sessions
      modifies this`sessions
      ensures Valid() && Moved()
      ensures Active(old(sessions)[id].state) || !removed ==> sessions == old(sessions)
      ensures removed && !Active(old(sessions)[id].state) ==>
        sessions == old(sessions)[id := old(sessions)[id].(cleanupPending := false, staging := false)]
    {
      if sessions[id].cleanupPending && removed {
        Put(id, sessions[id].(cleanupPending := false, staging := false));
      }
    }

    /** `prune_results` forgets sessions that are over and cleaned up. */
    method Prune(forget: set<nat>)
      requires Valid() && forall id :: id in forget && id in sessions ==> !Active(sessions[id].state) && !sessions[id].cleanupPending
      modifies this`sessions
      ensures Valid() && Moved() && sessions == old(sessions) - forget
    {
      ghost var before := sessions;
      sessions := sessions - forget;
      assert !slotFree ==> exists k :: k in sessions && sessions[k].permit by {
        if !slotFree {
          var k :| k in before && before[k].permit;
          assert k in sessions && sessions[k].permit;
        }
      }
    }
  }

  lemma LaterTransitive(a: Session, b: Session, c: Session)
    requires Consistent(a) && Consistent(b) && Later(a, b) && Later(b, c)
    ensures Later(a, c)
  {
  }

  datatype Step = CreatePlan(id: nat, project: nat, planned: set<Path>) | Upload(id: nat, path: Path, expired: bool, received: bool)
    | BeginCommit(id: nat, expired: bool) | EndCommit(id: nat, answer: Answer) | Abort(id: nat, state: State)
    | Cleanup(id: nat, removed: bool) | Prune(forget: set<nat>)

  /** The results that a step may forget. */
  function Forgets(step: Step): set<nat> {
    if step.Prune? then step.forget else {}
  }

  /** What the steps from the `i`-th to before the `n`-th may forget. */
  function ForgottenIn(steps: seq<Step>, i: nat, n: nat): set<nat>
    requires i <= n <= |steps|
  {
    if i == n then {} else ForgottenIn(steps, i, n - 1) + Forgets(steps[n - 1])
  }

  /** Any run: one open plan at most, each plan applied at most once, and an answer, once given,
      is the answer from then on, until its result is pruned. */
  method Run(steps: seq<Step>) returns (m: SyncManager, ghost log: seq<map<nat, Session>>)
    ensures fresh(m) && m.Valid() && |log| == |steps| + 1 && log[|steps|] == m.sessions
    ensures forall i :: 0 <= i < |log| ==> Before(log[i], m.sessions, ForgottenIn(steps, i, |steps|))
  {
    m := new SyncManager();
    log := [m.sessions];
    for n := 0 to |steps|
      invariant fresh(m) && m.Valid() && |log| == n + 1 && log[n] == m.sessions
      invariant forall i :: 0 <= i < |log| ==> Before(log[i], m.sessions, ForgottenIn(steps, i, n))
    {
      ghost var before := m.sessions;
      Take(m, steps[n]);
      forall i | 0 <= i < |log| ensures Before(log[i], m.sessions, ForgottenIn(steps, i, n + 1)) {
        BeforeTransitive(log[i], before, m.sessions, ForgottenIn(steps, i, n), Forgets(steps[n]));
      }
      log := log + [m.sessions];
    }
  }

  /** An earlier and a later snapshot of the sessions; only `gone` were forgotten. */
  ghost predicate Before(a: map<nat, Session>, b: map<nat, Session>, gone: set<nat>) {
    forall id :: id in a && id !in gone ==> id in b && Consistent(a[id]) && a[id].applied <= 1 && Later(a[id], b[id])
  }

  lemma BeforeTransitive(a: map<nat, Session>, b: map<nat, Session>, c: map<nat, Session>, gone: set<nat>, more: set<nat>)
    requires Before(a, b, gone)
    requires forall id :: id in b && id !in more ==> Consistent(b[id]) && id in c && Later(b[id], c[id])
    ensures Before(a, c, gone + more)
  {
    forall id | id in a && id !in gone + more ensures id in c && Later(a[id], c[id]) { LaterTransitive(a[id], b[id], c[id]); }
  }

  method Take(m: SyncManager, step: Step)
    requires m.Valid()
    modifies m
    ensures m.Valid()
    ensures forall id :: id in old(m.sessions) && id !in Forgets(step) ==> id in m.sessions && Later(old(m.sessions)[id], m.sessions[id])
  {
    match step {
      case CreatePlan(id, project, planned) => if id !in m.sessions { var _ := m.CreatePlan(id, project, planned); }
      case Upload(id, path, expired, received) => var _ := m.Upload(id, path, expired, received);
      case BeginCommit(id, expired) => if id in m.sessions { var _ := m.BeginCommit(id, expired); }
      case EndCommit(id, answer) => if id in m.sessions && m.sessions[id].state == Committing { m.EndCommit(id, answer); }
      case Abort(id, state) => if id in m.sessions && m.sessions[id].state != Committing && state in {Aborted, Expired} { m.Abort(id, state); }
      case Cleanup(id, removed) => if id in m.sessions { m.Cleanup(id, removed); }
      case Prune(forget) =>
        if forall id | id in forget :: id in m.sessions ==> !Active(m.sessions[id].state) && !m.sessions[id].cleanupPending { m.Prune(forget); }
    }
  }
}
